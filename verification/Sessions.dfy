/** Creating sessions: idempotent request ids, one active session per player and game, and cooldowns. */
module Sessions {
  import opened Text
  import opened Lifecycle
  import opened GameRules

  /** A row of `game_sessions`; `config` is the pinned configuration version. */
  datatype SessionRow = SessionRow(
    id: Uuid, requestId: Uuid, fingerprint: string, playerId: Uuid, gameKey: string, config: Uuid,
    status: Status, createdAt: int, expiresAt: int, endedAt: Option<int>)

  datatype Request = Request(requestId: Uuid, playerId: Uuid, ownerId: Uuid, gameKey: string)

  /** What the other tables say at the time: whether the player and the game exist and are active, and which
      configuration is current. */
  datatype Facts = Facts(playerActive: Option<bool>, gameActive: Option<bool>, config: Option<Uuid>)

  /** The payload of each configuration and the game it belongs to, and the fingerprint of a request. */
  datatype Catalogue = Catalogue(payload: Uuid -> Config, game: Uuid -> string, fingerprint: (Uuid, string) -> string)

  datatype CreateError =
    | NotYours | NoSuch | RequestConflict | PlayerInactive | GameInactive | StillActive | CoolingDown | UnknownGame | UniqueViolation

  datatype CreateReply = NewSession(index: nat) | SameSession(index: nat) | Rejected(error: CreateError)

  const SECOND_US: int := 1_000_000

  function CooldownUs(cat: Catalogue, row: SessionRow): nat {
    cat.payload(row.config).cooldown * SECOND_US
  }

  function DurationUs(config: Config): nat {
    (if config.SkillCheckConfig? then config.duration else 300) * SECOND_US
  }

  predicate Of(row: SessionRow, playerId: Uuid, gameKey: string) {
    row.playerId == playerId && row.gameKey == gameKey
  }

  // ---------- queries ----------

  function ExpiredRow(row: SessionRow, playerId: Uuid, gameKey: string, now: int): SessionRow {
    if Of(row, playerId, gameKey) && row.status == Active && row.expiresAt <= now
    then row.(status := Expired, endedAt := Some(now)) else row
  }

  /** All elapsed active sessions of the pair finalised. */
  function ExpireDue(rows: seq<SessionRow>, playerId: Uuid, gameKey: string, now: int): (expired: seq<SessionRow>)
    ensures |expired| == |rows|
  {
    seq(|rows|, i requires 0 <= i < |rows| => ExpiredRow(rows[i], playerId, gameKey, now))
  }

  /** `order by created_at desc, id desc`. */
  predicate Later(a: SessionRow, b: SessionRow) {
    a.createdAt > b.createdAt || (a.createdAt == b.createdAt && a.id > b.id)
  }

  predicate IsLatest(rows: seq<SessionRow>, playerId: Uuid, gameKey: string, k: nat) {
    && k < |rows| && Of(rows[k], playerId, gameKey)
    && forall j | 0 <= j < |rows| && Of(rows[j], playerId, gameKey) :: !Later(rows[j], rows[k])
  }

  /** `latest_session`. */
  function LatestIndex(rows: seq<SessionRow>, playerId: Uuid, gameKey: string): Option<nat> {
    if rows == [] then None
    else
      var n := |rows| - 1;
      var earlier := LatestIndex(rows[..n], playerId, gameKey);
      if !Of(rows[n], playerId, gameKey) then earlier
      else match earlier case None => Some(n) case Some(k) => if k < n && Later(rows[k], rows[n]) then earlier else Some(n)
  }

  lemma {:induction false} LatestIsLatest(rows: seq<SessionRow>, playerId: Uuid, gameKey: string)
    ensures match LatestIndex(rows, playerId, gameKey)
            case None => forall j | 0 <= j < |rows| :: !Of(rows[j], playerId, gameKey)
            case Some(k) => IsLatest(rows, playerId, gameKey, k)
  {
    if rows != [] {
      var n := |rows| - 1;
      LatestIsLatest(rows[..n], playerId, gameKey);
      assert forall j | 0 <= j < n :: rows[..n][j] == rows[j];
    }
  }

  function RequestIndex(rows: seq<SessionRow>, requestId: Uuid): Option<nat> {
    if rows == [] then None
    else if rows[0].requestId == requestId then Some(0)
    else match RequestIndex(rows[1..], requestId) case Some(k) => Some(k + 1) case None => None
  }

  lemma {:induction false} RequestIndexFinds(rows: seq<SessionRow>, requestId: Uuid)
    ensures match RequestIndex(rows, requestId)
            case Some(k) => k < |rows| && rows[k].requestId == requestId && forall j | 0 <= j < k :: rows[j].requestId != requestId
            case None => forall j | 0 <= j < |rows| :: rows[j].requestId != requestId
  {
    if rows != [] && rows[0].requestId != requestId {
      RequestIndexFinds(rows[1..], requestId);
      assert forall j | 0 <= j < |rows| - 1 :: rows[1..][j] == rows[j + 1];
      assert forall j | 1 <= j < |rows| :: rows[j] == rows[1..][j - 1];
    }
  }

  /** The partial unique index on active sessions and the primary key. */
  predicate Insertable(rows: seq<SessionRow>, playerId: Uuid, gameKey: string, id: Uuid) {
    forall j | 0 <= j < |rows| :: rows[j].id != id && !(Of(rows[j], playerId, gameKey) && rows[j].status == Active)
  }

  // ---------- create_session ----------

  datatype Creation = Creation(rows: seq<SessionRow>, reply: CreateReply)

  function Reject(rows: seq<SessionRow>, error: CreateError): Creation {
    Creation(rows, Rejected(error))
  }

  function NewRow(cat: Catalogue, request: Request, config: Uuid, now: int, id: Uuid): SessionRow {
    SessionRow(id, request.requestId, cat.fingerprint(request.playerId, request.gameKey), request.playerId, request.gameKey, config,
               Active, now, now + DurationUs(cat.payload(config)), None)
  }

  /** A call that raises also rolls back the expirations it made. */
  function Create(cat: Catalogue, rows: seq<SessionRow>, request: Request, facts: Facts, now: int,
                  id: Uuid): Creation {
    if request.playerId != request.ownerId then Reject(rows, NotYours)
    else if facts.playerActive.None? then Reject(rows, NoSuch)
    else
      match RequestIndex(rows, request.requestId)
      case Some(k) =>
        if k < |rows| && rows[k].fingerprint == cat.fingerprint(request.playerId, request.gameKey)
        then Creation(rows, SameSession(k)) else Reject(rows, RequestConflict)
      case None =>
        if !facts.playerActive.value then Reject(rows, PlayerInactive)
        else if facts.gameActive.None? then Reject(rows, NoSuch)
        else if !facts.gameActive.value then Reject(rows, GameInactive)
        else if facts.config.None? then Reject(rows, NoSuch)
        else CreateFresh(cat, rows, request, facts.config.value, now, id)
  }

  function CreateFresh(cat: Catalogue, rows: seq<SessionRow>, request: Request, config: Uuid, now: int,
                       id: Uuid): Creation {
    var expired := ExpireDue(rows, request.playerId, request.gameKey, now);
    match Blocked(cat, expired, request.playerId, request.gameKey, now)
    case Some(error) => Reject(rows, error)
    case None =>
      if !KnownGame(request.gameKey) then Reject(rows, UnknownGame)
      else if !Insertable(expired, request.playerId, request.gameKey, id) then Reject(rows, UniqueViolation)
      else Creation(expired + [NewRow(cat, request, config, now, id)], NewSession(|rows|))
  }

  /** What the latest session has against a new one. */
  function Blocked(cat: Catalogue, rows: seq<SessionRow>, playerId: Uuid, gameKey: string,
                   now: int): Option<CreateError> {
    match LatestIndex(rows, playerId, gameKey)
    case None => None
    case Some(k) =>
      if k < |rows| && rows[k].status == Active then Some(StillActive)
      else if k < |rows| && rows[k].createdAt + CooldownUs(cat, rows[k]) > now then Some(CoolingDown)
      else None
  }

  // ---------- retrieve_player_game_state ----------

  /** `next_play_at`: the end of the latest session's cooldown, if that lies ahead. */
  function NextPlayAt(cat: Catalogue, rows: seq<SessionRow>, playerId: Uuid, gameKey: string, now: int): Option<int> {
    match LatestIndex(rows, playerId, gameKey)
    case None => None
    case Some(k) =>
      if k < |rows| && rows[k].createdAt + CooldownUs(cat, rows[k]) > now
      then Some(rows[k].createdAt + CooldownUs(cat, rows[k])) else None
  }

  datatype StateReply = Denied(error: CreateError) | State(latest: Option<nat>, nextPlayAt: Option<int>)

  /** The reply and the rows it leaves: the expirations it finds are committed. An inactive player or game is shown. */
  function Look(cat: Catalogue, rows: seq<SessionRow>, playerId: Uuid, ownerId: Uuid, gameKey: string, facts: Facts,
                now: int): (StateReply, seq<SessionRow>) {
    if playerId != ownerId then (Denied(NotYours), rows)
    else if facts.playerActive.None? || facts.gameActive.None? || facts.config.None? then (Denied(NoSuch), rows)
    else
      var seen := ExpireDue(rows, playerId, gameKey, now);
      (State(LatestIndex(seen, playerId, gameKey), NextPlayAt(cat, seen, playerId, gameKey, now)), seen)
  }

  // ---------- the table as an object ----------

  class SessionTable {
    var rows: seq<SessionRow>

    constructor ()
      ensures rows == []
    {
      rows := [];
    }

    method FindRequest(requestId: Uuid) returns (found: Option<nat>)
      ensures found == RequestIndex(rows, requestId)
    {
      for i := 0 to |rows|
        invariant match RequestIndex(rows[i..], requestId)
                  case None => RequestIndex(rows, requestId).None?
                  case Some(k) => RequestIndex(rows, requestId) == Some(i + k)
      {
        assert rows[i..][1..] == rows[i + 1..];
        if rows[i].requestId == requestId { return Some(i); }
      }
      assert rows[|rows|..] == [];
      found := None;
    }

    method FindLatest(playerId: Uuid, gameKey: string) returns (latest: Option<nat>)
      ensures latest == LatestIndex(rows, playerId, gameKey)
      ensures latest.Some? ==> latest.value < |rows|
    {
      latest := None;
      for i := 0 to |rows|
        invariant latest == LatestIndex(rows[..i], playerId, gameKey) && (latest.Some? ==> latest.value < i)
      {
        assert rows[..i + 1][..i] == rows[..i];
        if Of(rows[i], playerId, gameKey) && (latest.None? || !Later(rows[latest.value], rows[i])) { latest := Some(i); }
      }
      assert rows[..|rows|] == rows;
    }

    /** Finalises every elapsed active session of the pair. */
    method FinalizeDue(playerId: Uuid, gameKey: string, now: int) returns (any: bool)
      modifies this
      ensures rows == ExpireDue(old(rows), playerId, gameKey, now)
      ensures any <==> rows != old(rows)
    {
      any := false;
      ghost var before := rows;
      for i := 0 to |rows|
        invariant |rows| == |before|
        invariant forall k | 0 <= k < i :: rows[k] == ExpiredRow(before[k], playerId, gameKey, now)
        invariant forall k | i <= k < |rows| :: rows[k] == before[k]
        invariant any <==> exists k :: 0 <= k < i && rows[k] != before[k]
      {
        if Of(rows[i], playerId, gameKey) && rows[i].status == Active && rows[i].expiresAt <= now {
          rows := rows[i := rows[i].(status := Expired, endedAt := Some(now))];
          assert rows[i] != before[i];
          any := true;
        }
      }
    }

    method CanInsert(playerId: Uuid, gameKey: string, id: Uuid) returns (ok: bool)
      ensures ok <==> Insertable(rows, playerId, gameKey, id)
    {
      for i := 0 to |rows|
        invariant forall j | 0 <= j < i :: rows[j].id != id && !(Of(rows[j], playerId, gameKey) && rows[j].status == Active)
      {
        if rows[i].id == id || (Of(rows[i], playerId, gameKey) && rows[i].status == Active) { return false; }
      }
      ok := true;
    }

    method CreateSession(cat: Catalogue, request: Request, facts: Facts, now: int, id: Uuid)
      returns (reply: CreateReply)
      modifies this
      ensures Creation(rows, reply) == Create(cat, old(rows), request, facts, now, id)
    {
      hide ExpireDue, LatestIndex, Insertable;
      var saved := rows;
      if request.playerId != request.ownerId { return Rejected(NotYours); }
      if facts.playerActive.None? { return Rejected(NoSuch); }
      var existing := FindRequest(request.requestId);
      RequestIndexFinds(rows, request.requestId);
      if existing.Some? {
        if rows[existing.value].fingerprint != cat.fingerprint(request.playerId, request.gameKey) { return Rejected(RequestConflict); }
        return SameSession(existing.value);
      }
      if !facts.playerActive.value { return Rejected(PlayerInactive); }
      if facts.gameActive.None? { return Rejected(NoSuch); }
      if !facts.gameActive.value { return Rejected(GameInactive); }
      if facts.config.None? { return Rejected(NoSuch); }
      var any := FinalizeDue(request.playerId, request.gameKey, now);
      var latest := FindLatest(request.playerId, request.gameKey);
      if latest.Some? && rows[latest.value].status == Active { rows := saved; return Rejected(StillActive); }
      if latest.Some? && rows[latest.value].createdAt + CooldownUs(cat, rows[latest.value]) > now {
        rows := saved;
        return Rejected(CoolingDown);
      }
      if !KnownGame(request.gameKey) { rows := saved; return Rejected(UnknownGame); }
      var ok := CanInsert(request.playerId, request.gameKey, id);
      if !ok { rows := saved; return Rejected(UniqueViolation); }
      reply := NewSession(|rows|);
      rows := rows + [NewRow(cat, request, facts.config.value, now, id)];
    }

    /** The recovery view of a player's game: expirations are committed, then the wait is worked out. */
    method RetrieveState(cat: Catalogue, playerId: Uuid, ownerId: Uuid, gameKey: string, facts: Facts, now: int)
      returns (reply: StateReply)
      modifies this
      ensures (reply, rows) == Look(cat, old(rows), playerId, ownerId, gameKey, facts, now)
    {
      hide ExpireDue, LatestIndex;
      if playerId != ownerId { return Denied(NotYours); }
      if facts.playerActive.None? { return Denied(NoSuch); }
      if facts.gameActive.None? { return Denied(NoSuch); }
      if facts.config.None? { return Denied(NoSuch); }
      var any := FinalizeDue(playerId, gameKey, now);
      var latest := FindLatest(playerId, gameKey);
      var nextPlayAt: Option<int> := None;
      if latest.Some? {
        var row := rows[latest.value];
        var availableAt := row.createdAt + CooldownUs(cat, row);
        if availableAt > now { nextPlayAt := Some(availableAt); }
      }
      reply := State(latest, nextPlayAt);
    }
  }

  // ---------- runs ----------

  /** `End` is any of the transitions that finish an active session; `Looks` is `retrieve_player_game_state`. */
  datatype Event =
    | Creates(request: Request, facts: Facts, now: int, id: Uuid)
    | End(index: nat, status: Status, now: int)
    | Looks(playerId: Uuid, ownerId: Uuid, gameKey: string, facts: Facts, now: int)

  /** The clock never runs backwards. */
  datatype World = World(rows: seq<SessionRow>, clock: int)

  /** The current configuration of a game is one of its own. */
  predicate Enabled(cat: Catalogue, w: World, ev: Event) {
    && w.clock <= ev.now
    && (ev.Creates? && ev.facts.config.Some? ==> cat.game(ev.facts.config.value) == ev.request.gameKey)
    && (ev.End? ==> ev.index < |w.rows| && w.rows[ev.index].status == Active && ev.status != Active)
  }

  function Apply(cat: Catalogue, w: World, ev: Event): World
    requires Enabled(cat, w, ev)
  {
    match ev
    case Creates(request, facts, now, id) => World(Create(cat, w.rows, request, facts, now, id).rows, now)
    case End(k, status, now) => World(w.rows[k := w.rows[k].(status := status, endedAt := Some(now))], now)
    case Looks(playerId, ownerId, gameKey, facts, now) => World(Look(cat, w.rows, playerId, ownerId, gameKey, facts, now).1, now)
  }

  predicate CanRun(cat: Catalogue, w: World, events: seq<Event>)
    decreases |events|
  {
    events == [] || (Enabled(cat, w, events[0]) && CanRun(cat, Apply(cat, w, events[0]), events[1..]))
  }

  function Run(cat: Catalogue, w: World, events: seq<Event>): World
    requires CanRun(cat, w, events)
    decreases |events|
  {
    if events == [] then w else Run(cat, Apply(cat, w, events[0]), events[1..])
  }
}
