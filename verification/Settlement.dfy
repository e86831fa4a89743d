/** Settling a leaderboard week: ranks over unique players, reward tiers, and one reward per recipient, resumable
    at any point. */
module Settlement {
  import opened Text
  import opened Sorting
  import opened Rng
  import opened Lifecycle
  import opened GameRules
  import Board

  // ---------- tiers ----------

  /** One item of the stored tier list; a missing or mistyped field is `None`. */
  datatype Tier = Tier(minRank: Option<int>, maxRank: Option<int>, key: Option<string>, value: Option<int>)

  /** `TooWide` is an award whose recipient the columns of the table cannot hold. */
  datatype Award = NoTier | Malformed | TooWide | Award(key: string, value: nat)

  predicate Covers(tier: Tier, rank: int) {
    tier.minRank.Some? && tier.maxRank.Some? && tier.minRank.value <= rank <= tier.maxRank.value
  }

  const KEY_WIDTH: nat := 40
  const MAX_RANK: int := 0x7FFF_FFFF

  /** What a `varchar(40)` column keeps of a text: a longer one is refused unless only blanks lie beyond the width,
      which are cut off (section 8.3 of the PostgreSQL documentation). */
  function StoredKey(key: string): Option<string> {
    if |key| <= KEY_WIDTH then Some(key)
    else if forall c | c in key[KEY_WIDTH..] :: c == ' ' then Some(key[..KEY_WIDTH])
    else None
  }

  /** The recipient row of a rank under a tier that covers it. */
  function AwardOf(tier: Tier, rank: int): Award {
    match (tier.key, tier.value)
    case (Some(key), Some(value)) =>
      if value < 0 then Malformed
      else if value > MAX_REWARD_VALUE || rank > MAX_RANK || StoredKey(key).None? then TooWide
      else Award(StoredKey(key).value, value)
    case _ => Malformed
  }

  /** What the first tier that covers a rank awards. */
  function AwardFor(tiers: seq<Tier>, rank: int): Award {
    if tiers == [] then NoTier
    else if Covers(tiers[0], rank) then AwardOf(tiers[0], rank)
    else AwardFor(tiers[1..], rank)
  }

  /** The first tier whose range contains the rank is the `t`-th. */
  predicate FirstCovering(tiers: seq<Tier>, rank: int, t: nat) {
    && t < |tiers| && tiers[t].minRank.Some? && tiers[t].maxRank.Some?
    && tiers[t].minRank.value <= rank <= tiers[t].maxRank.value
    && forall u | 0 <= u < t :: tiers[u].minRank.None? || tiers[u].maxRank.None?
                             || rank < tiers[u].minRank.value || rank > tiers[u].maxRank.value
  }

  ghost predicate Covered(tiers: seq<Tier>, rank: int) {
    exists t: nat :: FirstCovering(tiers, rank, t)
  }

  /** A key that is a text and a value that is a number, not negative. */
  predicate Typed(tier: Tier) {
    tier.key.Some? && tier.value.Some? && tier.value.value >= 0
  }

  /** The columns of the recipient hold what the tier gives. */
  predicate Pays(tier: Tier, rank: int) {
    && Typed(tier) && tier.value.value <= 0x7FFF_FFFF && rank <= 0x7FFF_FFFF
    && (|tier.key.value| <= 40 || forall c | c in tier.key.value[40..] :: c == ' ')
  }

  /** What the tier gives: its value, and its key without blanks that lie beyond the column's width. */
  predicate Gives(tier: Tier, key: string, value: int) {
    tier.value == Some(value) && tier.key.Some? && key == if |tier.key.value| <= 40 then tier.key.value else tier.key.value[..40]
  }

  /** What a rank is awarded follows from the first tier whose range contains it. */
  ghost predicate AwardedBy(tier: Tier, rank: int, award: Award) {
    if !Typed(tier) then award == Malformed
    else if !Pays(tier, rank) then award == TooWide
    else award.Award? && Gives(tier, award.key, award.value)
  }

  /** The award is that of the tier with the smallest index whose range contains the rank. */
  lemma {:induction false} AwardIsFirstMatch(tiers: seq<Tier>, rank: int)
    ensures AwardFor(tiers, rank) == NoTier <==> !Covered(tiers, rank)
    ensures forall t: nat | FirstCovering(tiers, rank, t) :: AwardedBy(tiers[t], rank, AwardFor(tiers, rank))
  {
    hide AwardedBy;
    if tiers != [] {
      OwnAward(tiers[0], rank);
      hide AwardOf;
      if Covers(tiers[0], rank) {
        assert FirstCovering(tiers, rank, 0);
      } else {
        var rest := tiers[1..];
        AwardIsFirstMatch(rest, rank);
        assert forall t | 1 <= t < |tiers| :: tiers[t] == rest[t - 1];
        forall t: nat ensures FirstCovering(tiers, rank, t) <==> t > 0 && FirstCovering(rest, rank, t - 1) {
        }
        if AwardFor(tiers, rank) != NoTier {
          var t: nat :| FirstCovering(rest, rank, t);
          assert FirstCovering(tiers, rank, t + 1);
        }
      }
    }
  }

  lemma OwnAward(tier: Tier, rank: int)
    ensures AwardOf(tier, rank) != NoTier && AwardedBy(tier, rank, AwardOf(tier, rank))
  {
  }

  /** The value of the first tier whose range contains the rank. */
  function TierValue(tiers: seq<Tier>, rank: int): int {
    if tiers == [] then 0
    else
      match tiers[0]
      case Tier(Some(low), Some(high), _, value) =>
        if low > rank || rank > high then TierValue(tiers[1..], rank) else if value.Some? then value.value else 0
      case _ => TierValue(tiers[1..], rank)
  }

  lemma {:induction false} AwardHasTierValue(tiers: seq<Tier>, rank: int)
    ensures AwardFor(tiers, rank) == NoTier ==> TierValue(tiers, rank) == 0
    ensures AwardFor(tiers, rank).Award? ==> AwardFor(tiers, rank).value == TierValue(tiers, rank)
  {
    if tiers != [] { AwardHasTierValue(tiers[1..], rank); }
  }

  method FindAward(tiers: seq<Tier>, rank: int) returns (award: Award)
    ensures award == AwardFor(tiers, rank)
  {
    for i := 0 to |tiers|
      invariant AwardFor(tiers, rank) == AwardFor(tiers[i..], rank)
    {
      assert tiers[i..][1..] == tiers[i + 1..];
      if Covers(tiers[i], rank) { return AwardOf(tiers[i], rank); }
    }
    award := NoTier;
  }

  // ---------- rows ----------

  /** A recipient of a run; a run has at most one per score. */
  datatype Recipient = Recipient(player: Uuid, rank: int, key: string, value: int)

  type Recipients = map<Uuid, Recipient>

  /** The value of the reward issued for a score's recipient. */
  type Rewards = map<Uuid, int>

  datatype RunRow = RunRow(tiers: Option<seq<Tier>>, completedAt: Option<int>)

  datatype Books = Books(run: Option<RunRow>, recipients: Recipients, rewards: Rewards)

  predicate IsSettled(books: Books) {
    books.run.Some? && books.run.value.completedAt.Some?
  }

  // ---------- what settling comes to ----------

  /** The award of the `i`-th entry of the list, which has rank i + 1. */
  function AwardAt(tiers: seq<Tier>, i: nat): Award {
    AwardFor(tiers, i + 1)
  }

  predicate Faulty(award: Award) {
    award == Malformed || award == TooWide
  }

  /** The tier that the `i`-th entry falls to, if any, can be paid. */
  ghost predicate Payable(tiers: seq<Tier>, i: nat) {
    forall t: nat | FirstCovering(tiers, i + 1, t) :: Pays(tiers[t], i + 1)
  }

  /** No rank among the first `n` falls to a tier that is malformed or too wide for its row. */
  ghost predicate WellFormedUpTo(tiers: seq<Tier>, n: nat) {
    forall i | 0 <= i < n :: Payable(tiers, i)
  }

  ghost predicate WellFormed(tiers: seq<Tier>, scores: seq<Board.Score>) {
    WellFormedUpTo(tiers, |scores|)
  }

  ghost predicate FirstFault(tiers: seq<Tier>, n: nat, i: nat) {
    i < n && !Payable(tiers, i) && WellFormedUpTo(tiers, i)
  }

  /** What the loop raises for the tier that the `i`-th entry falls to. */
  ghost predicate Raises(tiers: seq<Tier>, i: nat, error: SettleError) {
    forall t: nat | FirstCovering(tiers, i + 1, t) :: error == if Typed(tiers[t]) then Overflow else BadTiers
  }

  /** The first of the `n` ranks that falls to a tier that cannot be paid raises this error. */
  ghost predicate Fails(tiers: seq<Tier>, n: nat, error: SettleError) {
    exists i: nat :: FirstFault(tiers, n, i) && Raises(tiers, i, error)
  }

  lemma FaultInColumns(tiers: seq<Tier>, i: nat)
    ensures Faulty(AwardAt(tiers, i)) <==> !Payable(tiers, i)
    ensures Faulty(AwardAt(tiers, i)) ==> Raises(tiers, i, if AwardAt(tiers, i) == Malformed then BadTiers else Overflow)
  {
    AwardIsFirstMatch(tiers, i + 1);
    hide FirstCovering, AwardFor;
  }

  function RecipientAt(tiers: seq<Tier>, scores: seq<Board.Score>, i: nat): Recipient
    requires i < |scores| && AwardAt(tiers, i).Award?
  {
    Recipient(scores[i].player, i + 1, AwardAt(tiers, i).key, AwardAt(tiers, i).value)
  }

  /** The score `id` holds the covered place `i`. */
  predicate Paid(tiers: seq<Tier>, scores: seq<Board.Score>, id: Uuid, i: nat) {
    i < |scores| && scores[i].id == id && AwardAt(tiers, i).Award?
  }

  predicate DistinctIds(scores: seq<Board.Score>) {
    forall i, j | 0 <= i < j < |scores| :: scores[i].id != scores[j].id && scores[i].player != scores[j].player
  }

  /** The recipient of score `id` is the one that its place calls for. */
  ghost predicate Rightful(tiers: seq<Tier>, scores: seq<Board.Score>, id: Uuid, recipient: Recipient) {
    exists i: nat :: Paid(tiers, scores, id, i) && recipient == RecipientAt(tiers, scores, i)
  }

  ghost predicate Served(tiers: seq<Tier>, scores: seq<Board.Score>, recipients: Recipients, i: nat)
    requires i < |scores|
  {
    AwardAt(tiers, i).Award? ==> scores[i].id in recipients && recipients[scores[i].id] == RecipientAt(tiers, scores, i)
  }

  /** Recipients are exactly the covered ranks, each with the player, tier and value of its rank. */
  ghost predicate ExactRecipients(tiers: seq<Tier>, scores: seq<Board.Score>, recipients: Recipients) {
    && WellFormed(tiers, scores)
    && (forall i | 0 <= i < |scores| :: Served(tiers, scores, recipients, i))
    && (forall id | id in recipients :: Rightful(tiers, scores, id, recipients[id]))
  }

  /** Each recipient has one reward, of its value. */
  predicate ExactRewards(recipients: Recipients, rewards: Rewards) {
    rewards.Keys == recipients.Keys && forall id | id in recipients :: rewards[id] == recipients[id].value
  }

  /** Nothing but part of the right recipients and of their rewards is there. */
  ghost predicate Consistent(tiers: seq<Tier>, scores: seq<Board.Score>, recipients: Recipients, rewards: Rewards) {
    && (forall id | id in recipients :: Rightful(tiers, scores, id, recipients[id]))
    && rewards.Keys <= recipients.Keys
    && (forall id | id in rewards :: rewards[id] == recipients[id].value)
  }

  lemma ExactIsUnique(tiers: seq<Tier>, scores: seq<Board.Score>, a: Recipients, b: Recipients)
    requires ExactRecipients(tiers, scores, a) && ExactRecipients(tiers, scores, b)
    ensures a == b
  {
    hide AwardAt, RecipientAt;
    forall id | id in a ensures id in b && a[id] == b[id] {
      assert Rightful(tiers, scores, id, a[id]);
      var i: nat :| Paid(tiers, scores, id, i) && a[id] == RecipientAt(tiers, scores, i);
      assert Served(tiers, scores, b, i);
    }
    forall id | id in b ensures id in a {
      assert Rightful(tiers, scores, id, b[id]);
      var i: nat :| Paid(tiers, scores, id, i) && b[id] == RecipientAt(tiers, scores, i);
      assert Served(tiers, scores, a, i);
    }
  }

  /** The entry at place `i` has the recipient and the reward that the first tier whose range contains its rank calls for;
      without such a tier it has none. */
  ghost predicate Given(tiers: seq<Tier>, scores: seq<Board.Score>, recipients: Recipients, rewards: Rewards, i: nat)
    requires i < |scores|
  {
    var id := scores[i].id;
    && (forall t: nat | FirstCovering(tiers, i + 1, t) ::
          && id in recipients && id in rewards && recipients[id].player == scores[i].player && recipients[id].rank == i + 1
          && Gives(tiers[t], recipients[id].key, recipients[id].value) && rewards[id] == recipients[id].value)
    && (id in recipients || id in rewards ==> Covered(tiers, i + 1))
  }

  /** Recipients and rewards are those that the tiers call for on the list, and no others. */
  ghost predicate PaidByTiers(tiers: seq<Tier>, scores: seq<Board.Score>, recipients: Recipients, rewards: Rewards) {
    && (forall i | 0 <= i < |scores| :: Given(tiers, scores, recipients, rewards, i))
    && rewards.Keys == recipients.Keys && forall id | id in recipients :: OnList(scores, id)
  }

  predicate OnList(scores: seq<Board.Score>, id: Uuid) {
    exists i :: 0 <= i < |scores| && scores[i].id == id
  }

  lemma ExactIsGiven(tiers: seq<Tier>, scores: seq<Board.Score>, recipients: Recipients, rewards: Rewards, i: nat)
    requires DistinctIds(scores) && ExactRecipients(tiers, scores, recipients) && ExactRewards(recipients, rewards)
    requires i < |scores|
    ensures Given(tiers, scores, recipients, rewards, i)
  {
    AwardIsFirstMatch(tiers, i + 1);
    FaultInColumns(tiers, i);
    hide FirstCovering, AwardFor, Gives, Pays, Raises;
    assert Payable(tiers, i) && Served(tiers, scores, recipients, i);
    var id := scores[i].id;
    if id in recipients {
      assert Rightful(tiers, scores, id, recipients[id]);
      var k: nat :| Paid(tiers, scores, id, k) && recipients[id] == RecipientAt(tiers, scores, k);
      assert k == i;
    }
  }

  lemma ExactIsPaid(tiers: seq<Tier>, scores: seq<Board.Score>, recipients: Recipients, rewards: Rewards)
    requires DistinctIds(scores) && ExactRecipients(tiers, scores, recipients) && ExactRewards(recipients, rewards)
    ensures PaidByTiers(tiers, scores, recipients, rewards)
  {
    hide AwardAt, Given, RecipientAt;
    forall i | 0 <= i < |scores| ensures Given(tiers, scores, recipients, rewards, i) {
      ExactIsGiven(tiers, scores, recipients, rewards, i);
    }
    forall id | id in recipients ensures OnList(scores, id) {
      assert Rightful(tiers, scores, id, recipients[id]);
      var k: nat :| Paid(tiers, scores, id, k);
    }
  }

  // ---------- totals ----------

  /** Sum of a reward ledger. */
  ghost function Total(rewards: Rewards): int {
    if rewards == map[] then 0
    else
      var id :| id in rewards;
      rewards[id] + Total(rewards - {id})
  }

  lemma {:induction false} TotalWithout(rewards: Rewards, id: Uuid)
    requires id in rewards
    ensures Total(rewards) == rewards[id] + Total(rewards - {id})
    decreases |rewards|
  {
    var first :| id in rewards && first in rewards && Total(rewards) == rewards[first] + Total(rewards - {first});
    if first != id {
      TotalWithout(rewards - {first}, id);
      TotalWithout(rewards - {id}, first);
      assert rewards - {first} - {id} == rewards - {id} - {first};
    }
  }

  /** What the tiers promise for the first `n` ranks. */
  function Promised(tiers: seq<Tier>, n: nat): int {
    if n == 0 then 0
    else Promised(tiers, n - 1) + TierValue(tiers, n)
  }

  lemma RankHasTierValue(tiers: seq<Tier>, i: nat)
    requires Payable(tiers, i)
    ensures TierValue(tiers, i + 1) == if AwardAt(tiers, i).Award? then AwardAt(tiers, i).value else 0
  {
    AwardHasTierValue(tiers, i + 1);
    FaultInColumns(tiers, i);
    hide AwardFor, TierValue, Payable;
  }

  ghost predicate PaidBelow(tiers: seq<Tier>, scores: seq<Board.Score>, id: Uuid, n: nat) {
    exists i: nat :: i < n && Paid(tiers, scores, id, i)
  }

  ghost predicate PaidRank(tiers: seq<Tier>, scores: seq<Board.Score>, rewards: Rewards, i: nat)
    requires i < |scores|
  {
    AwardAt(tiers, i).Award? ==> scores[i].id in rewards && rewards[scores[i].id] == AwardAt(tiers, i).value
  }

  ghost predicate PaidUpTo(tiers: seq<Tier>, scores: seq<Board.Score>, rewards: Rewards, n: nat)
    requires n <= |scores|
  {
    && (forall i | 0 <= i < n :: PaidRank(tiers, scores, rewards, i))
    && (forall id | id in rewards :: PaidBelow(tiers, scores, id, n))
  }

  lemma NotThisOne(tiers: seq<Tier>, scores: seq<Board.Score>, id: Uuid, n: nat)
    requires 0 < n <= |scores| && PaidBelow(tiers, scores, id, n) && !Paid(tiers, scores, id, n - 1)
    ensures PaidBelow(tiers, scores, id, n - 1)
  {
    var i: nat :| i < n && Paid(tiers, scores, id, i);
    assert i < n - 1;
  }

  lemma {:induction false} PaidIsPromised(tiers: seq<Tier>, scores: seq<Board.Score>, rewards: Rewards, n: nat)
    requires DistinctIds(scores) && n <= |scores| && PaidUpTo(tiers, scores, rewards, n) && WellFormedUpTo(tiers, n)
    ensures Total(rewards) == Promised(tiers, n)
  {
    hide AwardAt, Payable, TierValue;
    if n == 0 {
      assert rewards.Keys == {};
    } else {
      var id := scores[n - 1].id;
      var rest := if AwardAt(tiers, n - 1).Award? then rewards - {id} else rewards;
      forall i | 0 <= i < n - 1 ensures PaidRank(tiers, scores, rest, i) {
        assert PaidRank(tiers, scores, rewards, i);
      }
      forall other | other in rest ensures PaidBelow(tiers, scores, other, n - 1) {
        NotThisOne(tiers, scores, other, n);
      }
      PaidIsPromised(tiers, scores, rest, n - 1);
      RankHasTierValue(tiers, n - 1);
      assert PaidRank(tiers, scores, rewards, n - 1);
      if AwardAt(tiers, n - 1).Award? { TotalWithout(rewards, id); }
    }
  }

  /** The total paid is the sum of what the tiers promise over the ranks on the list. */
  lemma TotalPaid(tiers: seq<Tier>, scores: seq<Board.Score>, recipients: Recipients, rewards: Rewards)
    requires DistinctIds(scores) && ExactRecipients(tiers, scores, recipients) && ExactRewards(recipients, rewards)
    ensures Total(rewards) == Promised(tiers, |scores|)
  {
    hide AwardAt, Total, Promised;
    forall id | id in rewards ensures PaidBelow(tiers, scores, id, |scores|) {
      assert Rightful(tiers, scores, id, recipients[id]);
      var i: nat :| Paid(tiers, scores, id, i);
    }
    forall i | 0 <= i < |scores| ensures PaidRank(tiers, scores, rewards, i) {
      assert Served(tiers, scores, recipients, i);
    }
    PaidIsPromised(tiers, scores, rewards, |scores|);
  }

  // ---------- settle_leaderboard ----------

  datatype SettleError =
    | NotAllowed | BadPeriod | NoGame | GameOff | Ineligible | PeriodOpen | NoTiers | BadTiers
    // errors of the database
    | Overflow | Conflict

  datatype SettleReply = SettledNow | AlreadySettled | Unsettled(error: SettleError)

  /** What the caller and the other tables bring: the tier payload in force is `None` if none is published and
      `Some(None)` if its list is not a list. */
  datatype SettleFacts = SettleFacts(authorized: bool, gameKey: string, gameActive: Option<bool>,
                                     tierPayload: Option<Option<seq<Tier>>>)

  /** The checks that come before any row of the run is looked at. */
  function Refusal(facts: SettleFacts, periodStart: int): Option<SettleError> {
    if !facts.authorized then Some(NotAllowed)
    else if !IsPeriodStart(periodStart) then Some(BadPeriod)
    else if facts.gameActive.None? then Some(NoGame)
    else if !facts.gameActive.value then Some(GameOff)
    else if !KnownGame(facts.gameKey) then Some(Ineligible)
    else if facts.gameKey != SKILL_CHECK then Some(Ineligible)
    else None
  }

  /** The rows after part of the loop, or the exception that ends it. */
  datatype Pay = Pay(recipients: Recipients, rewards: Rewards) | Stuck(error: SettleError)

  /** The unique constraints on a run's recipients. */
  predicate Fits(recipients: Recipients, player: Uuid, rank: int) {
    forall id | id in recipients :: recipients[id].player != player && recipients[id].rank != rank
  }

  /** A recipient without a reward gets one, of its own value. */
  function Rewarded(pay: Pay, id: Uuid): Pay
    requires pay.Pay? && id in pay.recipients
  {
    if id in pay.rewards then pay else pay.(rewards := pay.rewards[id := pay.recipients[id].value])
  }

  /** One round of the loop: the entry at place `i` keeps the recipient and the reward it has, or gets them. */
  function PayRank(tiers: seq<Tier>, scores: seq<Board.Score>, pay: Pay, i: nat): Pay
    requires i < |scores|
  {
    if pay.Stuck? then pay
    else
      match AwardAt(tiers, i)
      case Malformed => Stuck(BadTiers)
      case NoTier => pay
      case TooWide => if scores[i].id in pay.recipients then Rewarded(pay, scores[i].id) else Stuck(Overflow)
      case Award(_, _) =>
        var id := scores[i].id;
        if id in pay.recipients then Rewarded(pay, id)
        else if !Fits(pay.recipients, scores[i].player, i + 1) then Stuck(Conflict)
        else Rewarded(pay.(recipients := pay.recipients[id := RecipientAt(tiers, scores, i)]), id)
  }

  /** The loop over the first `n` ranks. */
  function PayFirst(tiers: seq<Tier>, scores: seq<Board.Score>, recipients: Recipients, rewards: Rewards, n: nat): Pay
    requires n <= |scores|
  {
    if n == 0 then Pay(recipients, rewards)
    else PayRank(tiers, scores, PayFirst(tiers, scores, recipients, rewards, n - 1), n - 1)
  }

  /** The reply of a call and the rows it leaves. */
  function Settling(books: Books, facts: SettleFacts, periodStart: int, now: int,
                    scores: seq<Board.Score>): (SettleReply, Books) {
    match Verdict(books.run, facts, periodStart, now)
    case Some(reply) => (reply, books)
    case None =>
      var tiers := TiersInForce(books.run, facts).value;
      match PayFirst(tiers, scores, books.recipients, books.rewards, |scores|)
      case Stuck(error) => (Unsettled(error), books)
      case Pay(recipients, rewards) => (SettledNow, Books(Some(RunRow(Some(tiers), Some(now))), recipients, rewards))
  }

  class SettlementRun {
    var run: Option<RunRow>
    var recipients: Recipients
    var rewards: Rewards

    function Contents(): Books
      reads this
    {
      Books(run, recipients, rewards)
    }

    constructor ()
      ensures Contents() == Books(None, map[], map[])
    {
      run, recipients, rewards := None, map[], map[];
    }

    /** The loop over ranks. `Some(error)` raises and the caller rolls back. */
    method PayRanks(tiers: seq<Tier>, scores: seq<Board.Score>) returns (error: Option<SettleError>)
      modifies `recipients, `rewards
      ensures PayFirst(tiers, scores, old(recipients), old(rewards), |scores|)
           == match error case Some(e) => Stuck(e) case None => Pay(recipients, rewards)
      ensures DistinctIds(scores) && Consistent(tiers, scores, old(recipients), old(rewards)) ==>
        if WellFormed(tiers, scores)
        then error.None? && PaidByTiers(tiers, scores, recipients, rewards)
             && ExactRecipients(tiers, scores, recipients) && ExactRewards(recipients, rewards)
        else error.Some? && Fails(tiers, |scores|, error.value)
    {
      hide AwardAt, PayFirst, Consistent, ExactRecipients, ExactRewards, DistinctIds, WellFormed, AwardFor,
           PaidByTiers;
      if DistinctIds(scores) && Consistent(tiers, scores, recipients, rewards) {
        LoopIsExact(tiers, scores, recipients, rewards);
      }
      PayNone(tiers, scores, recipients, rewards);
      for i := 0 to |scores|
        invariant PayFirst(tiers, scores, old(recipients), old(rewards), i) == Pay(recipients, rewards)
      {
        PayNext(tiers, scores, old(recipients), old(rewards), i);
        var award := FindAward(tiers, i + 1);
        assert award == AwardAt(tiers, i) by { AwardAtRank(tiers, i); }
        if award == Malformed {
          StaysStuck(tiers, scores, old(recipients), old(rewards), i + 1);
          return Some(BadTiers);
        }
        if award == NoTier { continue; }
        var id := scores[i].id;
        if id !in recipients {
          if award == TooWide {
            StaysStuck(tiers, scores, old(recipients), old(rewards), i + 1);
            return Some(Overflow);
          }
          if !Fits(recipients, scores[i].player, i + 1) {
            StaysStuck(tiers, scores, old(recipients), old(rewards), i + 1);
            return Some(Conflict);
          }
          recipients := recipients[id := Recipient(scores[i].player, i + 1, award.key, award.value)];
        }
        if id !in rewards {
          rewards := rewards[id := recipients[id].value];
        }
      }
      error := None;
    }

    /** `settle_leaderboard`. From a run that has not begun, or one that was interrupted anywhere in its loop,
        settling ends with exactly the recipients and rewards that the list and the tiers call for; a settled run
        is never touched again, and a refused or failed call leaves everything as it was. */
    method Settle(facts: SettleFacts, periodStart: int, now: int, scores: seq<Board.Score>)
      returns (reply: SettleReply)
      modifies this
      ensures (reply, Contents()) == Settling(old(Contents()), facts, periodStart, now, scores)
      ensures reply != SettledNow ==> Contents() == old(Contents())
      ensures Verdict(old(run), facts, periodStart, now).Some? ==> reply == Verdict(old(run), facts, periodStart, now).value
      ensures Verdict(old(run), facts, periodStart, now).None? ==>
        var tiers := TiersInForce(old(run), facts).value;
        DistinctIds(scores) && Consistent(tiers, scores, old(recipients), old(rewards)) ==>
          if WellFormed(tiers, scores)
          then reply == SettledNow && PaidByTiers(tiers, scores, recipients, rewards)
               && ExactRecipients(tiers, scores, recipients) && ExactRewards(recipients, rewards)
          else reply.Unsettled? && Fails(tiers, |scores|, reply.error)
    {
      hide PayFirst, Refusal, WellFormed, Consistent, ExactRecipients, ExactRewards, DistinctIds, PaidByTiers;
      var saved := Contents();
      var refusal := Refusal(facts, periodStart);
      if refusal.Some? { return Unsettled(refusal.value); }
      if run.Some? && run.value.completedAt.Some? { return AlreadySettled; }
      if now < periodStart + WEEK_US { return Unsettled(PeriodOpen); }
      var tiers: Option<seq<Tier>>;
      if run.None? {
        if facts.tierPayload.None? { return Unsettled(NoTiers); }
        tiers := facts.tierPayload.value;
        if tiers.None? { return Unsettled(BadTiers); }
        run := Some(RunRow(tiers, None));
      } else {
        tiers := run.value.tiers;
        if tiers.None? { return Unsettled(BadTiers); }
      }
      var error := PayRanks(tiers.value, scores);
      if error.Some? {
        run, recipients, rewards := saved.run, saved.recipients, saved.rewards;
        return Unsettled(error.value);
      }
      run := Some(run.value.(completedAt := Some(now)));
      reply := SettledNow;
    }
  }

  /** The reply if it does not come to paying. */
  function Verdict(run: Option<RunRow>, facts: SettleFacts, periodStart: int, now: int): Option<SettleReply> {
    if Refusal(facts, periodStart).Some? then Some(Unsettled(Refusal(facts, periodStart).value))
    else if run.Some? && run.value.completedAt.Some? then Some(AlreadySettled)
    else if now < periodStart + WEEK_US then Some(Unsettled(PeriodOpen))
    else if run.None? && facts.tierPayload.None? then Some(Unsettled(NoTiers))
    else if TiersInForce(run, facts).None? then Some(Unsettled(BadTiers))
    else None
  }

  /** A run keeps the tiers it started with; a new one takes the tiers in force. */
  function TiersInForce(run: Option<RunRow>, facts: SettleFacts): Option<seq<Tier>> {
    match run
    case Some(row) => row.tiers
    case None => if facts.tierPayload.Some? then facts.tierPayload.value else None
  }

  // ---------- the loop ----------

  ghost predicate Done(tiers: seq<Tier>, scores: seq<Board.Score>, recipients: Recipients, rewards: Rewards, i: nat)
    requires i < |scores|
  {
    AwardAt(tiers, i).Award? ==> scores[i].id in recipients && scores[i].id in rewards
  }

  /** The first `n` ranks have their recipients and rewards. */
  ghost predicate DoneUpTo(tiers: seq<Tier>, scores: seq<Board.Score>, recipients: Recipients, rewards: Rewards,
                           n: nat)
    requires n <= |scores|
  {
    forall i | 0 <= i < n :: Done(tiers, scores, recipients, rewards, i)
  }

  lemma NothingDone(tiers: seq<Tier>, scores: seq<Board.Score>, recipients: Recipients, rewards: Rewards)
    ensures DoneUpTo(tiers, scores, recipients, rewards, 0)
  {
  }

  lemma SkipRank(tiers: seq<Tier>, scores: seq<Board.Score>, recipients: Recipients, rewards: Rewards, i: nat)
    requires i < |scores| && AwardAt(tiers, i) == NoTier
    ensures DoneUpTo(tiers, scores, recipients, rewards, i) ==> DoneUpTo(tiers, scores, recipients, rewards, i + 1)
  {
    hide AwardAt;
  }

  /** In a consistent state nobody else holds a rank or a player's place. */
  lemma RankIsFree(tiers: seq<Tier>, scores: seq<Board.Score>, recipients: Recipients, rewards: Rewards, i: nat)
    requires DistinctIds(scores) && Consistent(tiers, scores, recipients, rewards) && i < |scores|
    requires scores[i].id !in recipients
    ensures forall id | id in recipients :: recipients[id].player != scores[i].player && recipients[id].rank != i + 1
  {
    hide AwardAt;
    forall id | id in recipients ensures recipients[id].player != scores[i].player && recipients[id].rank != i + 1 {
      assert Rightful(tiers, scores, id, recipients[id]);
      var k: nat :| Paid(tiers, scores, id, k) && recipients[id] == RecipientAt(tiers, scores, k);
      assert k != i;
    }
  }

  lemma RankIsPaid(tiers: seq<Tier>, scores: seq<Board.Score>, recipients: Recipients, rewards: Rewards,
                   recipients': Recipients, rewards': Rewards, i: nat)
    requires i < |scores| && AwardAt(tiers, i).Award?
    requires Consistent(tiers, scores, recipients, rewards) && DoneUpTo(tiers, scores, recipients, rewards, i)
    requires var id := scores[i].id;
      && recipients' == (if id in recipients then recipients else recipients[id := RecipientAt(tiers, scores, i)])
      && rewards' == (if id in rewards then rewards else rewards[id := recipients'[id].value])
    ensures Consistent(tiers, scores, recipients', rewards') && DoneUpTo(tiers, scores, recipients', rewards', i + 1)
  {
    hide AwardAt, RecipientAt, Rightful;
    IsRightful(tiers, scores, i);
    forall k | 0 <= k < i ensures Done(tiers, scores, recipients', rewards', k) {
      assert Done(tiers, scores, recipients, rewards, k);
    }
  }

  lemma IsRightful(tiers: seq<Tier>, scores: seq<Board.Score>, i: nat)
    requires i < |scores| && AwardAt(tiers, i).Award?
    ensures Rightful(tiers, scores, scores[i].id, RecipientAt(tiers, scores, i))
  {
    hide AwardAt, RecipientAt;
    assert Paid(tiers, scores, scores[i].id, i);
  }

  lemma AllDone(tiers: seq<Tier>, scores: seq<Board.Score>, recipients: Recipients, rewards: Rewards)
    requires DistinctIds(scores) && Consistent(tiers, scores, recipients, rewards)
    requires DoneUpTo(tiers, scores, recipients, rewards, |scores|) && WellFormed(tiers, scores)
    ensures ExactRecipients(tiers, scores, recipients) && ExactRewards(recipients, rewards)
  {
    hide AwardAt, RecipientAt, WellFormed;
    forall i | 0 <= i < |scores| ensures Served(tiers, scores, recipients, i) {
      assert Done(tiers, scores, recipients, rewards, i);
      if AwardAt(tiers, i).Award? {
        assert Rightful(tiers, scores, scores[i].id, recipients[scores[i].id]);
        var k: nat :| Paid(tiers, scores, scores[i].id, k) && recipients[scores[i].id] == RecipientAt(tiers, scores, k);
        assert k == i;
      }
    }
    forall id | id in recipients ensures id in rewards {
      assert Rightful(tiers, scores, id, recipients[id]);
      var k: nat :| Paid(tiers, scores, id, k);
      assert Done(tiers, scores, recipients, rewards, k);
    }
  }

  lemma PayNone(tiers: seq<Tier>, scores: seq<Board.Score>, recipients: Recipients, rewards: Rewards)
    ensures PayFirst(tiers, scores, recipients, rewards, 0) == Pay(recipients, rewards)
  {
  }

  lemma PayNext(tiers: seq<Tier>, scores: seq<Board.Score>, recipients: Recipients, rewards: Rewards, i: nat)
    requires i < |scores|
    ensures PayFirst(tiers, scores, recipients, rewards, i + 1)
         == PayRank(tiers, scores, PayFirst(tiers, scores, recipients, rewards, i), i)
  {
  }

  lemma AwardAtRank(tiers: seq<Tier>, i: nat)
    ensures AwardAt(tiers, i) == AwardFor(tiers, i + 1)
  {
  }

  lemma {:induction false} StaysStuck(tiers: seq<Tier>, scores: seq<Board.Score>, recipients: Recipients,
                                      rewards: Rewards, n: nat)
    requires n <= |scores| && PayFirst(tiers, scores, recipients, rewards, n).Stuck?
    ensures PayFirst(tiers, scores, recipients, rewards, |scores|) == PayFirst(tiers, scores, recipients, rewards, n)
    decreases |scores| - n
  {
    if n < |scores| {
      PayNext(tiers, scores, recipients, rewards, n);
      hide PayFirst;
      StaysStuck(tiers, scores, recipients, rewards, n + 1);
    }
  }

  /** Whoever has a recipient has it at a rank whose tier fits. */
  lemma FaultyHasNone(tiers: seq<Tier>, scores: seq<Board.Score>, recipients: Recipients, rewards: Rewards, i: nat)
    requires DistinctIds(scores) && Consistent(tiers, scores, recipients, rewards) && i < |scores|
    requires Faulty(AwardAt(tiers, i))
    ensures scores[i].id !in recipients
  {
    hide AwardAt;
  }

  /** Stopped anywhere, the loop leaves nothing but part of the right recipients and rewards, and all of those of the
      ranks it has passed. */
  lemma {:induction false} LoopStaysConsistent(tiers: seq<Tier>, scores: seq<Board.Score>, recipients: Recipients,
                                               rewards: Rewards, n: nat)
    requires DistinctIds(scores) && n <= |scores| && Consistent(tiers, scores, recipients, rewards)
    ensures var pay := PayFirst(tiers, scores, recipients, rewards, n);
      if WellFormedUpTo(tiers, n)
      then pay.Pay? && Consistent(tiers, scores, pay.recipients, pay.rewards)
           && DoneUpTo(tiers, scores, pay.recipients, pay.rewards, n)
      else pay.Stuck? && Fails(tiers, n, pay.error)
  {
    hide AwardAt, Consistent, DoneUpTo, PayFirst, DistinctIds, Payable, Raises;
    if n == 0 {
      PayNone(tiers, scores, recipients, rewards);
      NothingDone(tiers, scores, recipients, rewards);
    } else {
      LoopStaysConsistent(tiers, scores, recipients, rewards, n - 1);
      PayNext(tiers, scores, recipients, rewards, n - 1);
      var pay := PayFirst(tiers, scores, recipients, rewards, n - 1);
      if pay.Stuck? {
        var i: nat :| FirstFault(tiers, n - 1, i) && Raises(tiers, i, pay.error);
        assert FirstFault(tiers, n, i);
      } else {
        FaultInColumns(tiers, n - 1);
        if Faulty(AwardAt(tiers, n - 1)) {
          FaultyHasNone(tiers, scores, pay.recipients, pay.rewards, n - 1);
          assert FirstFault(tiers, n, n - 1);
        }
        if AwardAt(tiers, n - 1) == NoTier { SkipRank(tiers, scores, pay.recipients, pay.rewards, n - 1); }
        if AwardAt(tiers, n - 1).Award? { NextRankIsPaid(tiers, scores, pay, n - 1); }
      }
    }
  }

  lemma NextRankIsPaid(tiers: seq<Tier>, scores: seq<Board.Score>, pay: Pay, i: nat)
    requires DistinctIds(scores) && i < |scores| && AwardAt(tiers, i).Award? && pay.Pay?
    requires Consistent(tiers, scores, pay.recipients, pay.rewards) && DoneUpTo(tiers, scores, pay.recipients, pay.rewards, i)
    ensures var pay' := PayRank(tiers, scores, pay, i);
      && pay'.Pay? && Consistent(tiers, scores, pay'.recipients, pay'.rewards)
      && DoneUpTo(tiers, scores, pay'.recipients, pay'.rewards, i + 1)
  {
    hide AwardAt, Consistent, DoneUpTo, RecipientAt;
    if scores[i].id !in pay.recipients { RankIsFree(tiers, scores, pay.recipients, pay.rewards, i); }
    var pay' := PayRank(tiers, scores, pay, i);
    RankIsPaid(tiers, scores, pay.recipients, pay.rewards, pay'.recipients, pay'.rewards, i);
  }

  lemma LoopIsExact(tiers: seq<Tier>, scores: seq<Board.Score>, recipients: Recipients, rewards: Rewards)
    requires DistinctIds(scores) && Consistent(tiers, scores, recipients, rewards)
    ensures var pay := PayFirst(tiers, scores, recipients, rewards, |scores|);
      if WellFormed(tiers, scores)
      then pay.Pay? && ExactRecipients(tiers, scores, pay.recipients) && ExactRewards(pay.recipients, pay.rewards)
           && PaidByTiers(tiers, scores, pay.recipients, pay.rewards)
      else pay.Stuck? && Fails(tiers, |scores|, pay.error)
  {
    hide Consistent, ExactRecipients, ExactRewards, AwardAt, PayFirst, DoneUpTo, Fails, WellFormedUpTo, PaidByTiers;
    LoopStaysConsistent(tiers, scores, recipients, rewards, |scores|);
    var pay := PayFirst(tiers, scores, recipients, rewards, |scores|);
    if pay.Pay? {
      AllDone(tiers, scores, pay.recipients, pay.rewards);
      ExactIsPaid(tiers, scores, pay.recipients, pay.rewards);
    }
  }

  /** From a run that has not begun, or one that was cut off anywhere in its loop, a settlement that comes to paying
      settles exactly if no rank on the list meets a faulty tier, and ends with exactly the recipients and rewards that
      the list and the tiers call for. */
  lemma SettlingIsExact(books: Books, facts: SettleFacts, periodStart: int, now: int, scores: seq<Board.Score>)
    requires DistinctIds(scores) && Verdict(books.run, facts, periodStart, now).None?
    requires Consistent(TiersInForce(books.run, facts).value, scores, books.recipients, books.rewards)
    ensures var tiers := TiersInForce(books.run, facts).value;
      var (reply, books') := Settling(books, facts, periodStart, now, scores);
      if WellFormed(tiers, scores)
      then reply == SettledNow && books'.run == Some(RunRow(Some(tiers), Some(now)))
           && ExactRecipients(tiers, scores, books'.recipients) && ExactRewards(books'.recipients, books'.rewards)
           && PaidByTiers(tiers, scores, books'.recipients, books'.rewards)
      else reply.Unsettled? && Fails(tiers, |scores|, reply.error) && books' == books
  {
    var tiers := TiersInForce(books.run, facts).value;
    hide Consistent, ExactRecipients, ExactRewards, WellFormed, PayFirst, Refusal, PaidByTiers;
    LoopIsExact(tiers, scores, books.recipients, books.rewards);
  }

  /** Monday, midnight: 1970-01-05 was one. */
  predicate StartsWeek(periodStart: int) {
    (periodStart - 345_600_000_000) % 604_800_000_000 == 0
  }

  /** The checks that turn a call away, in their order: each leaves the rows as they are and names its reason. */
  lemma SettlingIsRefused(books: Books, facts: SettleFacts, periodStart: int, now: int, scores: seq<Board.Score>)
    ensures var (reply, books') := Settling(books, facts, periodStart, now, scores);
      if !facts.authorized then reply == Unsettled(NotAllowed) && books' == books
      else if !StartsWeek(periodStart) then reply == Unsettled(BadPeriod) && books' == books
      else if facts.gameActive == None then reply == Unsettled(NoGame) && books' == books
      else if facts.gameActive == Some(false) then reply == Unsettled(GameOff) && books' == books
      else if facts.gameKey != "skill_check" then reply == Unsettled(Ineligible) && books' == books
      else if books.run.Some? && books.run.value.completedAt.Some? then reply == AlreadySettled && books' == books
      else if now < periodStart + 604_800_000_000 then reply == Unsettled(PeriodOpen) && books' == books
      else if books.run.None? && facts.tierPayload.None? then reply == Unsettled(NoTiers) && books' == books
      else
        var tiers := if books.run.Some? then books.run.value.tiers else facts.tierPayload.value;
        if tiers.None? then reply == Unsettled(BadTiers) && books' == books
        else
          && (reply == SettledNow ==> books'.run == Some(RunRow(tiers, Some(now))))
          && (reply != SettledNow ==> reply.Unsettled? && books' == books)
          && Verdict(books.run, facts, periodStart, now).None? && TiersInForce(books.run, facts) == tiers
  {
    hide PayFirst;
  }

  /** The unique constraints of the table: a rank or a player that another recipient holds stops the loop. */
  lemma TakenPlaceConflicts(tiers: seq<Tier>, scores: seq<Board.Score>, pay: Pay, i: nat, other: Uuid)
    requires i < |scores| && AwardAt(tiers, i).Award? && pay.Pay? && scores[i].id !in pay.recipients
    requires other in pay.recipients
    requires pay.recipients[other].player == scores[i].player || pay.recipients[other].rank == i + 1
    ensures PayRank(tiers, scores, pay, i) == Stuck(Conflict)
  {
    hide AwardAt;
  }

  /** A run that has not begun is consistent. */
  lemma NothingIsConsistent(tiers: seq<Tier>, scores: seq<Board.Score>)
    ensures Consistent(tiers, scores, map[], map[])
  {
  }

  lemma OneFirstFault(tiers: seq<Tier>, n: nat, a: SettleError, b: SettleError)
    requires Fails(tiers, n, a) && Fails(tiers, n, b)
    ensures a == b
  {
    hide AwardAt;
    var i: nat :| FirstFault(tiers, n, i) && Raises(tiers, i, a);
    var j: nat :| FirstFault(tiers, n, j) && Raises(tiers, j, b);
    assert i == j;
  }

  /** Resumed from any consistent partial state, the loop ends exactly where a fresh one does: with the same rows or
      with the same error. */
  lemma ResumedIsFresh(tiers: seq<Tier>, scores: seq<Board.Score>, recipients: Recipients, rewards: Rewards)
    requires DistinctIds(scores) && Consistent(tiers, scores, recipients, rewards)
    ensures PayFirst(tiers, scores, recipients, rewards, |scores|) == PayFirst(tiers, scores, map[], map[], |scores|)
    ensures WellFormed(tiers, scores) ==>
      var resumed := PayFirst(tiers, scores, recipients, rewards, |scores|);
      resumed.Pay? && Total(resumed.rewards) == Promised(tiers, |scores|)
  {
    NothingIsConsistent(tiers, scores);
    LoopIsExact(tiers, scores, recipients, rewards);
    LoopIsExact(tiers, scores, map[], map[]);
    var resumed := PayFirst(tiers, scores, recipients, rewards, |scores|);
    var anew := PayFirst(tiers, scores, map[], map[], |scores|);
    if WellFormed(tiers, scores) {
      TotalPaid(tiers, scores, resumed.recipients, resumed.rewards);
    }
    hide Consistent, ExactRecipients, WellFormed, PayFirst, Fails, Total, Promised;
    if WellFormed(tiers, scores) {
      ExactIsUnique(tiers, scores, resumed.recipients, anew.recipients);
      assert resumed.rewards == anew.rewards;
    } else {
      OneFirstFault(tiers, |scores|, resumed.error, anew.error);
    }
  }

  // ---------- a tier that no row can hold ----------

  const OVERSIZED: seq<Tier> := [Tier(Some(1), Some(1), Some("champion"), Some(0x1_0000_0000))]

  /** The tier list is free JSON: a value beyond 32 bits passes every check of the loop and fails at the insert, so a
      week with an entry cannot be settled under it, at any time. */
  lemma OversizedTierNeverSettles(facts: SettleFacts, periodStart: int, now: int, scores: seq<Board.Score>)
    requires Refusal(facts, periodStart).None? && facts.tierPayload == Some(Some(OVERSIZED)) && scores != []
    requires now >= periodStart + WEEK_US
    ensures Settling(Books(None, map[], map[]), facts, periodStart, now, scores)
         == (Unsettled(Overflow), Books(None, map[], map[]))
  {
    hide Refusal;
    assert AwardAt(OVERSIZED, 0) == TooWide;
    PayNone(OVERSIZED, scores, map[], map[]);
    PayNext(OVERSIZED, scores, map[], map[], 0);
    StaysStuck(OVERSIZED, scores, map[], map[], 1);
    hide PayFirst;
  }

  /** The list that is settled names every player of the board once, in rank order. */
  lemma SettlementListIsDistinct(board: set<Board.Score>)
    requires Board.ValidBoard(board)
    ensures DistinctIds(Board.SettlementScores(board))
  {
    var scores := Board.SettlementScores(board);
    Board.SettlementPlayersUnique(board);
    var best := set s | s in board && Board.PlayerRowNumber(board, s) == 1;
    forall i, j | 0 <= i < j < |scores| ensures scores[i].id != scores[j].id {
      Board.EntryOnBoard(best, i);
      Board.EntryOnBoard(best, j);
      Board.PlacesHaveOwnSessions(best, i, j);
    }
  }
}
