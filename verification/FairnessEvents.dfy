/** The append-only, hash-chained evidence of a fairness proof, and its verification. */
module FairnessEvents {
  import opened Text
  import opened Bytes
  import opened SpinProof

  datatype ProofStatus = Committed | Revealed | ExpiredProof | CancelledProof

  /** The columns that only a revealed proof has; the table's CHECK allows them all or none. */
  datatype Disclosure = Disclosure(
    outcomeId: Uuid, clientSeed: seq<CodePoint>, fingerprint: string, rawDigestHex: string, normalizedValue: int,
    attempt: nat, rewardKey: seq<CodePoint>, rewardValue: int, evaluatedAt: int, serverSeedHex: string, revealedAt: int)

  /** A row of `fairness_proofs`. */
  datatype Proof = Proof(
    id: Uuid, sessionId: Uuid, playerId: Uuid, configVersionId: Uuid, status: ProofStatus, versions: Versions,
    commitment: string, nonce: int, mappingDigest: string, disclosure: Option<Disclosure>)

  // ---------- payloads ----------

  /** What every payload repeats of the proof. */
  datatype CommitFacts = CommitFacts(versions: Versions, configVersionId: Uuid, mappingDigest: string, nonce: int,
                                     commitment: string, sessionId: Uuid)

  datatype Payload =
    | CommitPayload(facts: CommitFacts)
    | TerminalPayload(facts: CommitFacts, terminalAt: int)
    | RevealedPayload(facts: CommitFacts, disclosure: Option<Disclosure>)

  function FactsOf(proof: Proof): CommitFacts {
    CommitFacts(proof.versions, proof.configVersionId, proof.mappingDigest, proof.nonce, proof.commitment, proof.sessionId)
  }

  // ---------- events ----------

  /** A row of `fairness_proof_events`. */
  datatype Event = Event(proofId: Uuid, sequence: int, eventType: string, version: int, payload: Payload,
                         status: ProofStatus, previous: Option<string>, hash: string, createdAt: int)

  /** What a hash is taken of. Version 1 leaves the payload out and prints an absent link as nothing. */
  datatype Evidence =
    | V1(proofId: Uuid, sequence: int, eventType: string, status: ProofStatus, createdAt: int, link: string)
    | V2(proofId: Uuid, sequence: int, eventType: string, status: ProofStatus, createdAt: int, previous: Option<string>,
         payload: Payload)

  type Hash = Evidence -> string

  function EvidenceV1(event: Event): Evidence {
    V1(event.proofId, event.sequence, event.eventType, event.status, event.createdAt,
       match event.previous case Some(link) => link case None => "")
  }

  function EvidenceV2(event: Event): Evidence {
    V2(event.proofId, event.sequence, event.eventType, event.status, event.createdAt, event.previous, event.payload)
  }

  function HashOf(hash: Hash, event: Event): Option<string> {
    if event.version == 1 then Some(hash(EvidenceV1(event)))
    else if event.version == 2 then Some(hash(EvidenceV2(event)))
    else None
  }

  // ---------- verification ----------

  function LinkTo(events: seq<Event>, i: nat): Option<string>
    requires i <= |events|
  {
    if i == 0 then None else Some(events[i - 1].hash)
  }

  predicate LinkHolds(events: seq<Event>, i: nat)
    requires i < |events|
  {
    events[i].sequence == i && events[i].previous == LinkTo(events, i)
  }

  /** The stored hash is that of the event's columns, in the form of its version: version 1 leaves the payload out and
      writes an absent link as nothing. */
  predicate CarriesHash(hash: Hash, event: Event) {
    || (event.version == 1
        && event.hash == hash(V1(event.proofId, event.sequence, event.eventType, event.status, event.createdAt,
                                 if event.previous.Some? then event.previous.value else "")))
    || (event.version == 2
        && event.hash == hash(V2(event.proofId, event.sequence, event.eventType, event.status, event.createdAt,
                                 event.previous, event.payload)))
  }

  predicate Sound(hash: Hash, events: seq<Event>, i: nat)
    requires i < |events|
  {
    LinkHolds(events, i) && CarriesHash(hash, events[i])
  }

  /** Every event follows its predecessor and carries its own hash. */
  predicate Chained(hash: Hash, events: seq<Event>) {
    forall i | 0 <= i < |events| :: Sound(hash, events, i)
  }

  /** The first and the last event agree with the proof. */
  predicate AgreesWith(proof: Proof, events: seq<Event>)
    requires events != []
  {
    var last := events[|events| - 1];
    && (events[0].version == 2 ==> events[0].payload == CommitPayload(FactsOf(proof)))
    && (proof.status == Revealed ==>
          last.status == Revealed && (last.version == 2 ==> last.payload == RevealedPayload(FactsOf(proof), proof.disclosure)))
  }

  /** The code of the first check that an event fails. */
  function LinkCode(hash: Hash, events: seq<Event>, i: nat): string
    requires i < |events|
  {
    if !LinkHolds(events, i) then "event_chain_link_mismatch"
    else if events[i].version != 1 && events[i].version != 2 then "unsupported_event_version"
    else if !CarriesHash(hash, events[i]) then "event_hash_mismatch"
    else "verified"
  }

  function FinalCode(proof: Proof, events: seq<Event>): string
    requires events != []
  {
    var last := events[|events| - 1];
    if events[0].version == 2 && events[0].payload != CommitPayload(FactsOf(proof)) then "commit_payload_mismatch"
    else if proof.status == Revealed && last.status != Revealed then "event_terminal_state_mismatch"
    else if proof.status == Revealed && last.version == 2 && last.payload != RevealedPayload(FactsOf(proof), proof.disclosure)
      then "revealed_payload_mismatch"
    else "verified"
  }

  predicate FirstFailure(hash: Hash, events: seq<Event>, i: int) {
    && 0 <= i < |events| && LinkCode(hash, events, i) != "verified"
    && forall j | 0 <= j < i :: Sound(hash, events, j)
  }

  /** `verify_fairness_event_chain`: the code names the first failing event and check. */
  method VerifyFairnessEventChain(hash: Hash, proof: Proof, events: seq<Event>) returns (ok: bool, code: string)
    ensures ok <==> code == "verified"
    ensures ok <==> events != [] && Chained(hash, events) && AgreesWith(proof, events)
    ensures events == [] ==> code == "event_chain_missing"
    ensures events != [] && !Chained(hash, events) ==> exists i :: FirstFailure(hash, events, i) && code == LinkCode(hash, events, i)
    ensures events != [] && Chained(hash, events) ==> code == FinalCode(proof, events)
  {
    hide FactsOf;
    if events == [] { return false, "event_chain_missing"; }
    var previous: Option<string> := None;
    for sequence := 0 to |events|
      invariant previous == LinkTo(events, sequence)
      invariant forall j | 0 <= j < sequence :: Sound(hash, events, j)
    {
      var event := events[sequence];
      if event.sequence != sequence || event.previous != previous {
        assert FirstFailure(hash, events, sequence) && !Sound(hash, events, sequence);
        return false, "event_chain_link_mismatch";
      }
      var expected := HashOf(hash, event);
      if expected.None? {
        assert FirstFailure(hash, events, sequence) && !Sound(hash, events, sequence);
        return false, "unsupported_event_version";
      }
      if expected.value != event.hash {
        assert FirstFailure(hash, events, sequence) && !Sound(hash, events, sequence);
        return false, "event_hash_mismatch";
      }
      previous := Some(event.hash);
    }
    var last := events[|events| - 1];
    if events[0].version == 2 && events[0].payload != CommitPayload(FactsOf(proof)) { return false, "commit_payload_mismatch"; }
    if proof.status == Revealed {
      if last.status != Revealed { return false, "event_terminal_state_mismatch"; }
      if last.version == 2 && last.payload != RevealedPayload(FactsOf(proof), proof.disclosure) {
        return false, "revealed_payload_mismatch";
      }
    }
    return true, "verified";
  }

  /** The columns that every payload repeats are those of the proof. */
  predicate Repeats(facts: CommitFacts, p: Proof) {
    && facts.versions == p.versions && facts.configVersionId == p.configVersionId && facts.mappingDigest == p.mappingDigest
    && facts.nonce == p.nonce && facts.commitment == p.commitment && facts.sessionId == p.sessionId
  }

  /** The code of each check of a link is given when that check is the first to fail. */
  lemma LinkCodes(hash: Hash, events: seq<Event>, i: nat)
    requires i < |events|
    ensures var event := events[i];
      var linked := event.sequence == i && event.previous == if i == 0 then None else Some(events[i - 1].hash);
      LinkCode(hash, events, i) ==
        if !linked then "event_chain_link_mismatch"
        else if event.version != 1 && event.version != 2 then "unsupported_event_version"
        else if !CarriesHash(hash, event) then "event_hash_mismatch"
        else "verified"
  {
    hide CarriesHash;
  }

  /** The first event must repeat the proof, the last one of a revealed proof reveal it with all its evidence; each code is
      given when that check is the first to fail. */
  lemma ClosingCodes(proof: Proof, events: seq<Event>)
    requires events != []
    ensures var first, last := events[0], events[|events| - 1];
      var begun := first.version == 2 ==> first.payload.CommitPayload? && Repeats(first.payload.facts, proof);
      var ended := proof.status == Revealed ==> last.status == Revealed;
      var sealed := proof.status == Revealed && last.version == 2 ==>
        last.payload.RevealedPayload? && Repeats(last.payload.facts, proof) && last.payload.disclosure == proof.disclosure;
      && (AgreesWith(proof, events) <==> begun && ended && sealed)
      && FinalCode(proof, events) ==
         if !begun then "commit_payload_mismatch"
         else if !ended then "event_terminal_state_mismatch"
         else if !sealed then "revealed_payload_mismatch"
         else "verified"
  {
  }

  // ---------- what a chain proves ----------

  predicate AllV2(events: seq<Event>) {
    forall i | 0 <= i < |events| :: events[i].version == 2
  }

  function EvidenceOf(event: Event): Evidence {
    if event.version == 1 then EvidenceV1(event) else EvidenceV2(event)
  }

  /** Different evidence with one hash. */
  predicate Clash(hash: Hash, x: Event, y: Event) {
    EvidenceOf(x) != EvidenceOf(y) && hash(EvidenceOf(x)) == hash(EvidenceOf(y))
  }

  /** The `k`-th events from the end clash. */
  predicate ClashAt(hash: Hash, a: seq<Event>, b: seq<Event>, k: nat) {
    1 <= k <= |a| && k <= |b| && Clash(hash, a[|a| - k], b[|b| - k])
  }

  ghost predicate Collide(hash: Hash, a: seq<Event>, b: seq<Event>) {
    exists k :: ClashAt(hash, a, b, k)
  }

  ghost predicate SameEnd(hash: Hash, a: seq<Event>, b: seq<Event>)
    requires a != []
  {
    b != [] && Chained(hash, b) && b[|b| - 1].hash == a[|a| - 1].hash
  }

  lemma SameHashSameEvent(hash: Hash, x: Event, y: Event)
    requires x.version == 2 && CarriesHash(hash, x) && CarriesHash(hash, y) && x.hash == y.hash
    requires !Clash(hash, x, y)
    ensures x == y
  {
    assert EvidenceOf(x) == EvidenceOf(y);
  }

  /** Going back link by link from the shared end, nothing can differ. */
  lemma {:induction false} SamePast(hash: Hash, a: seq<Event>, b: seq<Event>, k: nat)
    requires Chained(hash, a) && Chained(hash, b) && AllV2(a) && a != [] && SameEnd(hash, a, b)
    requires !Collide(hash, a, b) && 1 <= k <= |a|
    ensures |b| == |a| && a[|a| - k] == b[|b| - k]
  {
    hide Clash, CarriesHash;
    var m, n := |a| - 1, |b| - 1;
    assert Sound(hash, a, m) && Sound(hash, b, n);
    assert !ClashAt(hash, a, b, 1);
    SameHashSameEvent(hash, a[m], b[n]);
    if k > 1 {
      SamePast(hash, a, b, k - 1);
      var i := |a| - k;
      assert Sound(hash, a, i) && Sound(hash, b, i) && Sound(hash, a, i + 1) && Sound(hash, b, i + 1);
      assert !ClashAt(hash, a, b, k);
      SameHashSameEvent(hash, a[i], b[i]);
    }
  }

  lemma V2ChainIsFixed(hash: Hash, a: seq<Event>, b: seq<Event>)
    requires a != [] && Chained(hash, a) && AllV2(a) && SameEnd(hash, a, b)
    ensures b == a || Collide(hash, a, b)
  {
    hide Clash, CarriesHash, Chained;
    if !Collide(hash, a, b) {
      SamePast(hash, a, b, 1);
      forall i | 0 <= i < |a| ensures a[i] == b[i] { SamePast(hash, a, b, |a| - i); }
    }
  }

  /** The last hash pins a verified chain exactly if all its events are of version 2: every verified chain that ends
      in the same hash is then the same chain, unless two different pieces of evidence hash alike. */
  lemma LastHashFixesChain(hash: Hash, a: seq<Event>)
    requires a != [] && Chained(hash, a)
    ensures AllV2(a) <==> forall b: seq<Event> | SameEnd(hash, a, b) :: b == a || Collide(hash, a, b)
  {
    hide Chained, Collide, SameEnd;
    if AllV2(a) {
      forall b: seq<Event> | SameEnd(hash, a, b) ensures b == a || Collide(hash, a, b) { V2ChainIsFixed(hash, a, b); }
    } else {
      var i :| 0 <= i < |a| && a[i].version != 2;
      assert a[i].version == 1 by { VersionIsKnown(hash, a, i); }
      var b := Forged(hash, a, i);
    }
  }

  lemma VersionIsKnown(hash: Hash, events: seq<Event>, i: nat)
    requires Chained(hash, events) && i < |events|
    ensures events[i].version == 1 || events[i].version == 2
  {
    assert Sound(hash, events, i);
  }

  /** Another payload at a version 1 event makes another chain with the same end and no collision. */
  lemma Forged(hash: Hash, a: seq<Event>, i: nat) returns (b: seq<Event>)
    requires Chained(hash, a) && i < |a| && a[i].version == 1
    ensures SameEnd(hash, a, b) && b != a && !Collide(hash, a, b)
  {
    var facts := a[i].payload.facts;
    var payload := if a[i].payload.CommitPayload? then TerminalPayload(facts, 0) else CommitPayload(facts);
    b := a[i := a[i].(payload := payload)];
    V1KeepsChain(hash, a, i, payload);
    hide Chained, CarriesHash;
    assert b[i] != a[i];
    SameEvidence(a[i], payload);
    hide EvidenceOf;
    forall k: nat ensures !ClashAt(hash, a, b, k) {
    }
  }

  lemma SameEvidence(event: Event, payload: Payload)
    requires event.version == 1
    ensures EvidenceOf(event.(payload := payload)) == EvidenceOf(event)
  {
  }

  lemma V1KeepsChain(hash: Hash, events: seq<Event>, i: nat, payload: Payload)
    requires Chained(hash, events) && i < |events| && events[i].version == 1
    ensures var changed := events[i := events[i].(payload := payload)];
      Chained(hash, changed) && changed[|changed| - 1].hash == events[|events| - 1].hash
  {
    var changed := events[i := events[i].(payload := payload)];
    forall j | 0 <= j < |changed| ensures Sound(hash, changed, j) {
      assert Sound(hash, events, j) && (j > 0 ==> Sound(hash, events, j - 1));
    }
  }

  /** Version 1 does not protect its payload: changing it leaves the chain verified, whatever the proof. */
  lemma V1IgnoresPayload(hash: Hash, proof: Proof, events: seq<Event>, i: nat, payload: Payload)
    requires Chained(hash, events) && i < |events| && events[i].version == 1
    ensures var changed := events[i := events[i].(payload := payload)];
      && Chained(hash, changed) && changed[|changed| - 1].hash == events[|events| - 1].hash
      && AgreesWith(proof, changed) == AgreesWith(proof, events)
  {
    hide Chained, FactsOf;
    V1KeepsChain(hash, events, i, payload);
  }

  // ---------- building a chain ----------

  function StatusText(status: ProofStatus): string {
    match status
    case Committed => "committed"
    case Revealed => "revealed"
    case ExpiredProof => "expired"
    case CancelledProof => "cancelled"
  }

  /** A version 2 event with its hash filled in. */
  function NewEvent(hash: Hash, proofId: Uuid, sequence: int, status: ProofStatus, previous: Option<string>,
                    payload: Payload, now: int): Event {
    var event := Event(proofId, sequence, StatusText(status), 2, payload, status, previous, "", now);
    event.(hash := hash(EvidenceV2(event)))
  }

  /** The event holds these columns, is of version 2 and carries the hash of all of them. */
  predicate Records(hash: Hash, event: Event, proofId: Uuid, sequence: int, eventType: string, status: ProofStatus,
                    previous: Option<string>, payload: Payload, at: int)
  {
    && event.proofId == proofId && event.sequence == sequence && event.eventType == eventType && event.status == status
    && event.previous == previous && event.payload == payload && event.createdAt == at && event.version == 2
    && event.hash == hash(V2(proofId, sequence, eventType, status, at, previous, payload))
  }

  /** Appending an event that names the last one keeps the chain. */
  lemma ChainGrows(hash: Hash, events: seq<Event>, proofId: Uuid, status: ProofStatus, payload: Payload, now: int)
    requires Chained(hash, events)
    ensures Chained(hash, events + [NewEvent(hash, proofId, |events|, status, LinkTo(events, |events|), payload, now)])
  {
    var event := NewEvent(hash, proofId, |events|, status, LinkTo(events, |events|), payload, now);
    var longer := events + [event];
    forall i | 0 <= i < |longer| ensures Sound(hash, longer, i) {
      if i < |events| { assert Sound(hash, events, i); }
    }
  }
}
