/** One Redis generation of the leaderboard: how a rebuild encodes a board into a sorted set, the order
    in which Redis returns it, and how a reader accepts a page of it. */
module Projection {
  import opened Text
  import opened Sorting
  import opened Integrity
  import Board

  // ---------- sorted sets ----------

  type SortedSet = map<string, Float>

  datatype Item = Item(member: string, score: Float)

  predicate FloatLess(a: Float, b: Float) {
    match (a, b)
    case (Finite(x), Finite(y)) => x < y
    case (NegativeInfinity, _) => !b.NegativeInfinity?
    case (_, PositiveInfinity) => !a.PositiveInfinity?
    case _ => false
  }

  /** Redis lists a sorted set by score, then by member text. */
  predicate ItemBefore(a: Item, b: Item) {
    FloatLess(a.score, b.score) || (a.score == b.score && LexLess(a.member, b.member))
  }

  function Items(z: SortedSet): set<Item> {
    set m | m in z :: Item(m, z[m])
  }

  lemma ItemOrder(z: SortedSet)
    ensures StrictOrder(ItemBefore) && TotalOn(Items(z), ItemBefore)
  {
    forall a ensures !ItemBefore(a, a) { LexIrreflexive(a.member); }
    forall a, b, c | ItemBefore(a, b) && ItemBefore(b, c) ensures ItemBefore(a, c) {
      if a.score == b.score == c.score { LexTransitive(a.member, b.member, c.member); }
    }
    forall a, b | a in Items(z) && b in Items(z) ensures a == b || ItemBefore(a, b) || ItemBefore(b, a) {
      LexTotal(a.member, b.member);
    }
  }

  /** `ZRANGE key 0 -1 WITHSCORES`. */
  function Listing(z: SortedSet): (items: seq<Item>)
    ensures |items| == |Items(z)|
  {
    ItemOrder(z);
    SortSet(Items(z), ItemBefore)
  }

  /** `ZRANGE key start stop`, where a negative bound counts from the end. */
  function Range<T>(items: seq<T>, start: int, stop: int): seq<T> {
    var n := |items|;
    var from := Board.Min(if start < 0 then if start + n < 0 then 0 else start + n else start, n);
    var to := if stop < 0 then stop + n else stop;
    if from > to then [] else items[from..Board.Min(to + 1, n)]
  }

  // ---------- encoding a board ----------

  function RowOf(s: Board.Score, rank: int): Row {
    Row(s.completedUs, UuidText(s.session), UuidText(s.id), UuidText(s.player), s.points, rank)
  }

  /** `_member`: the member text and its sorted-set score. */
  function EncodeScore(rt: Runtime, signer: string, contract: Contract, s: Board.Score, rank: int): Item {
    Item(Member(rt, signer, contract, RowOf(s, rank)), Finite((-s.points) as real))
  }

  function Encode(rt: Runtime, signer: string, contract: Contract, scores: seq<Board.Score>): (items: seq<Item>)
    ensures |items| == |scores|
  {
    seq(|scores|, i requires 0 <= i < |scores| => EncodeScore(rt, signer, contract, scores[i], i + 1))
  }

  /** `{member: score for ...}`. */
  function ToSortedSet(items: seq<Item>): SortedSet {
    if items == [] then map[]
    else
      var last := items[|items| - 1];
      ToSortedSet(items[..|items| - 1])[last.member := last.score]
  }

  predicate InPaddedRange(s: Board.Score) {
    0 <= s.completedUs < PAD_LIMIT
  }

  lemma RowIsCanonical(s: Board.Score, rank: int)
    ensures CanonicalIds(RowOf(s, rank))
  {
  }

  lemma MemberText(rt: Runtime, signer: string, contract: Contract, row: Row) returns (rest: string)
    ensures Member(rt, signer, contract, row) == Padded(row.completedAtUs) + (":" + (row.sessionId + rest))
  {
    hide Padded, Member;
    var p := MemberIsText(rt, signer, contract, row);
    rest := ":" + row.scoreId + ":" + row.playerId + ":" + Padded(row.rank) + ":" + rt.mac(signer, p);
    assert Member(rt, signer, contract, row) == Padded(row.completedAtUs) + (":" + (row.sessionId + rest));
  }

  /** Redis order over encoded members is the ranking order, whatever ranks and signatures they carry. */
  lemma MemberOrder(rt: Runtime, signer: string, contract: Contract, a: Board.Score, i: int, b: Board.Score, j: int)
    requires InPaddedRange(a) && InPaddedRange(b) && a.session != b.session
    ensures ItemBefore(EncodeScore(rt, signer, contract, a, i), EncodeScore(rt, signer, contract, b, j))
       <==> Board.RanksBefore(a, b)
  {
    var x, y := EncodeScore(rt, signer, contract, a, i), EncodeScore(rt, signer, contract, b, j);
    if a.points == b.points {
      var p := MemberText(rt, signer, contract, RowOf(a, i));
      var q := MemberText(rt, signer, contract, RowOf(b, j));
      var s, t := UuidText(a.session), UuidText(b.session);
      PaddedOrder(a.completedUs, b.completedUs);
      LexFields(Padded(a.completedUs), Padded(b.completedUs), ":" + (s + p), ":" + (t + q));
      if a.completedUs != b.completedUs {
        if Padded(a.completedUs) == Padded(b.completedUs) { PaddedInjective(a.completedUs, b.completedUs); }
      } else {
        LexIrreflexive(Padded(a.completedUs));
        LexIrreflexive(":");
        LexFields(":", ":", s + p, t + q);
        UuidTextLength(a.session);
        UuidTextLength(b.session);
        LexFields(s, t, p, q);
        UuidTextOrder(a.session, b.session);
      }
    } else {
      assert x.score != y.score;
    }
  }

  /** An encoded canonical board is already in Redis order. */
  lemma EncodedIsSorted(rt: Runtime, signer: string, contract: Contract, board: set<Board.Score>)
    requires Board.ValidBoard(board) && forall s | s in board :: InPaddedRange(s)
    ensures Sorted(Encode(rt, signer, contract, Board.Canonical(board)), ItemBefore)
  {
    hide Board.RanksBefore, ItemBefore, EncodeScore, Board.Canonical;
    var scores := Board.Canonical(board);
    var items := Encode(rt, signer, contract, scores);
    forall i, j | 0 <= i < j < |items| ensures ItemBefore(items[i], items[j]) {
      Board.EntryOnBoard(board, i);
      Board.EntryOnBoard(board, j);
      Board.PlaceOrder(board, i, j);
      Board.PlacesHaveOwnSessions(board, i, j);
      MemberOrder(rt, signer, contract, scores[i], i + 1, scores[j], j + 1);
    }
  }

  ghost predicate DistinctMembers(items: seq<Item>) {
    forall i, j | 0 <= i < j < |items| :: items[i].member != items[j].member
  }

  lemma EncodedIsDistinct(rt: Runtime, signer: string, contract: Contract, board: set<Board.Score>)
    requires Board.ValidBoard(board)
    ensures DistinctMembers(Encode(rt, signer, contract, Board.Canonical(board)))
  {
    hide EncodeScore, Board.Canonical;
    var scores := Board.Canonical(board);
    var items := Encode(rt, signer, contract, scores);
    forall i, j | 0 <= i < j < |items| ensures items[i].member != items[j].member {
      Board.PlacesHaveOwnSessions(board, i, j);
      MemberNamesSession(rt, signer, contract, scores[i], i + 1, scores[j], j + 1);
    }
  }

  lemma MemberNamesSession(rt: Runtime, signer: string, contract: Contract, a: Board.Score, i: int, b: Board.Score,
                           j: int)
    requires a.session != b.session
    ensures EncodeScore(rt, signer, contract, a, i).member != EncodeScore(rt, signer, contract, b, j).member
  {
    MemberFields(rt, signer, contract, RowOf(a, i));
    MemberFields(rt, signer, contract, RowOf(b, j));
    UuidTextOrder(a.session, b.session);
  }

  ghost predicate HasMember(items: seq<Item>, m: string) {
    exists i :: 0 <= i < |items| && items[i].member == m
  }

  ghost predicate Holds(z: SortedSet, items: seq<Item>) {
    && (forall i | 0 <= i < |items| :: items[i].member in z && z[items[i].member] == items[i].score)
    && (forall m | m in z :: HasMember(items, m))
  }

  lemma HoldsSnoc(z: SortedSet, items: seq<Item>, last: Item)
    requires Holds(z, items) && !HasMember(items, last.member)
    ensures Holds(z[last.member := last.score], items + [last])
  {
    var longer := items + [last];
    forall m | m in z[last.member := last.score] ensures HasMember(longer, m) {
      if m == last.member {
        assert longer[|items|].member == m;
      } else {
        assert HasMember(items, m);
        var i :| 0 <= i < |items| && items[i].member == m;
        assert longer[i].member == m;
      }
    }
  }

  lemma {:induction false} ToSortedSetHolds(items: seq<Item>)
    requires DistinctMembers(items)
    ensures Holds(ToSortedSet(items), items)
    ensures |ToSortedSet(items)| == |items|
  {
    if items != [] {
      var n := |items| - 1;
      ToSortedSetHolds(items[..n]);
      HoldsSnoc(ToSortedSet(items[..n]), items[..n], items[n]);
      assert items[..n] + [items[n]] == items;
    }
  }

  lemma ItemsOf(z: SortedSet, items: seq<Item>)
    requires Holds(z, items)
    ensures Items(z) == Elements(items)
  {
    forall x ensures x in Items(z) <==> x in Elements(items) {
      if x in Items(z) {
        assert HasMember(items, x.member);
        var i :| 0 <= i < |items| && items[i].member == x.member;
        assert items[i] == x;
      }
    }
  }

  /** A rebuild's read-back check passes on a generation nobody has touched. */
  lemma ReadBackPasses(rt: Runtime, signer: string, contract: Contract, board: set<Board.Score>)
    requires Board.ValidBoard(board) && forall s | s in board :: InPaddedRange(s)
    ensures var items := Encode(rt, signer, contract, Board.Canonical(board));
            && Listing(ToSortedSet(items)) == items
            && |ToSortedSet(items)| == |board|
  {
    EncodedIsSorted(rt, signer, contract, board);
    EncodedIsDistinct(rt, signer, contract, board);
    ListingIsWhatWasWritten(Encode(rt, signer, contract, Board.Canonical(board)));
  }

  /** Reading back the whole of what was written gives the encoded list, in the order it was written. */
  lemma ListingIsWhatWasWritten(items: seq<Item>)
    requires Sorted(items, ItemBefore) && DistinctMembers(items)
    ensures Listing(ToSortedSet(items)) == items
    ensures |ToSortedSet(items)| == |items|
  {
    var z := ToSortedSet(items);
    ToSortedSetHolds(items);
    ItemsOf(z, items);
    ItemOrder(z);
    SortSetIs(Items(z), ItemBefore, items);
  }

  // ---------- accepting a page ----------

  /** The row at place `i` of a page, if its member is genuine and carries the expected rank. */
  function AcceptRow(rt: Runtime, ring: Keyring, contract: Contract, item: Item, rank: int): Option<Row> {
    match ParseMember(rt, ring, contract, item.member, item.score)
    case Some(row) => if row.rank == rank then Some(row) else None
    case None => None
  }

  ghost predicate AllAccepted(rt: Runtime, ring: Keyring, contract: Contract, items: seq<Item>, offset: nat) {
    forall i | 0 <= i < |items| :: AcceptRow(rt, ring, contract, items[i], offset + i + 1).Some?
  }

  ghost function AcceptedRows(rt: Runtime, ring: Keyring, contract: Contract, items: seq<Item>, offset: nat): seq<Row>
    requires AllAccepted(rt, ring, contract, items, offset)
  {
    seq(|items|, i requires 0 <= i < |items| => AcceptRow(rt, ring, contract, items[i], offset + i + 1).value)
  }

  function ExpectedRows(count: int, offset: int, limit: int): int {
    Board.Min(limit, if count - offset < 0 then 0 else count - offset)
  }

  /** What `projected_page` makes of the items Redis returned. */
  ghost function AcceptPage(rt: Runtime, ring: Keyring, contract: Contract, items: seq<Item>, count: int, offset: nat,
                            limit: nat): Option<seq<Row>>
  {
    if |items| == ExpectedRows(count, offset, limit) && AllAccepted(rt, ring, contract, items, offset)
    then Some(AcceptedRows(rt, ring, contract, items, offset))
    else None
  }

  /** The checked loop of `projected_page`: the first row that fails rejects the whole page. */
  method CheckPage(rt: Runtime, ring: Keyring, contract: Contract, items: seq<Item>, count: int, offset: nat,
                   limit: nat) returns (result: Option<seq<Row>>)
    ensures result == AcceptPage(rt, ring, contract, items, count, offset, limit)
  {
    hide ParseMember, ExpectedRows;
    if |items| != ExpectedRows(count, offset, limit) {
      return None;
    }
    var rows := [];
    for index := 0 to |items|
      invariant |rows| == index
      invariant forall i | 0 <= i < index ::
          AcceptRow(rt, ring, contract, items[i], offset + i + 1) == Some(rows[i])
    {
      var parsed := ParseMember(rt, ring, contract, items[index].member, items[index].score);
      if parsed.None? || parsed.value.rank != offset + index + 1 {
        assert AcceptRow(rt, ring, contract, items[index], offset + index + 1).None?;
        return None;
      }
      rows := rows + [parsed.value];
    }
    assert AllAccepted(rt, ring, contract, items, offset);
    assert rows == AcceptedRows(rt, ring, contract, items, offset);
    result := Some(rows);
  }
}
