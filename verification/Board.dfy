/** The canonical leaderboard in PostgreSQL: the ranking order, the window queries that define ranks,
    settlement's unique-player list, and offset and keyset pages. */
module Board {
  import opened Text
  import opened Sorting

  /** One row of `final_scores` for a fixed game and period. */
  datatype Score = Score(id: Uuid, player: Uuid, session: Uuid, completedUs: int, points: int)

  const MAX_FINAL_SCORE: int := 1000000

  /** The CHECK constraint on `final_score`. */
  predicate Storable(points: int) {
    0 <= points <= MAX_FINAL_SCORE
  }

  /** `ORDER BY final_score DESC, completed_at ASC, session_id ASC`. */
  predicate RanksBefore(a: Score, b: Score) {
    Precedes(a.points, a.completedUs, a.session, b)
  }

  predicate Precedes(points: int, completedUs: int, session: Uuid, b: Score) {
    || b.points < points
    || (b.points == points && b.completedUs > completedUs)
    || (b.points == points && b.completedUs == completedUs && b.session > session)
  }

  /** The table's unique constraints: one row per session and per id. */
  ghost predicate ValidBoard(board: set<Score>) {
    forall a, b | a in board && b in board && (a.session == b.session || a.id == b.id) :: a == b
  }

  lemma RankingOrder(board: set<Score>)
    requires ValidBoard(board)
    ensures StrictOrder(RanksBefore) && TotalOn(board, RanksBefore)
  {
  }

  /** Every score is one that the CHECK of the table lets through. */
  predicate WithinBounds(board: set<Score>) {
    forall s | s in board :: 0 <= s.points <= 1_000_000
  }

  /** Every score entry, best first. */
  function Canonical(board: set<Score>): (scores: seq<Score>)
    requires ValidBoard(board)
    ensures |scores| == |board|
  {
    RankingOrder(board);
    SortSet(board, RanksBefore)
  }

  lemma CanonicalSorts(board: set<Score>)
    requires ValidBoard(board)
    ensures Elements(Canonical(board)) == board && Sorted(Canonical(board), RanksBefore)
  {
    RankingOrder(board);
    SortSetSorts(board, RanksBefore);
  }

  lemma CanonicalIs(board: set<Score>, scores: seq<Score>)
    requires ValidBoard(board)
    requires Elements(scores) == board && Sorted(scores, RanksBefore)
    ensures Canonical(board) == scores
  {
    RankingOrder(board);
    SortSetIs(board, RanksBefore, scores);
  }

  /** Places in the canonical list are ordered as the entries in them. */
  lemma PlaceOrder(board: set<Score>, k: nat, i: nat)
    requires ValidBoard(board) && k < |board| && i < |board|
    ensures RanksBefore(Canonical(board)[k], Canonical(board)[i]) <==> k < i
  {
    var scores := Canonical(board);
    CanonicalSorts(board);
    if k > i { assert RanksBefore(scores[i], scores[k]); }
  }

  lemma PlacesHaveOwnSessions(board: set<Score>, i: nat, j: nat)
    requires ValidBoard(board) && i < j < |board|
    ensures Canonical(board)[i].session != Canonical(board)[j].session
  {
    EntryOnBoard(board, i);
    EntryOnBoard(board, j);
    PlaceOrder(board, i, j);
  }

  lemma PlaceOf(board: set<Score>, s: Score) returns (k: nat)
    requires ValidBoard(board) && s in board
    ensures k < |board| && Canonical(board)[k] == s
  {
    CanonicalSorts(board);
    assert s in Elements(Canonical(board));
    k :| k < |Canonical(board)| && Canonical(board)[k] == s;
  }

  lemma EntryOnBoard(board: set<Score>, k: nat)
    requires ValidBoard(board) && k < |board|
    ensures Canonical(board)[k] in board
  {
    CanonicalSorts(board);
    assert Canonical(board)[k] in Elements(Canonical(board));
  }

  // ---------- list_canonical_scores ----------

  function Min(a: int, b: int): int {
    if a < b then a else b
  }

  function Drop<T>(xs: seq<T>, n: nat): seq<T> {
    xs[Min(n, |xs|)..]
  }

  function Take<T>(xs: seq<T>, n: nat): seq<T> {
    xs[..Min(n, |xs|)]
  }

  function Slice<T>(xs: seq<T>, offset: nat, limit: nat): seq<T> {
    Take(Drop(xs, offset), limit)
  }

  datatype Cursor = Cursor(points: int, completedUs: int, session: Uuid)

  ghost function After(board: set<Score>, after: Option<Cursor>): set<Score> {
    match after
    case None => board
    case Some(c) => set s | s in board && Precedes(c.points, c.completedUs, c.session, s)
  }

  ghost function ListCanonical(board: set<Score>, limit: Option<nat>, offset: nat, after: Option<Cursor>)
    : seq<Score>
    requires ValidBoard(board)
  {
    var rows := Drop(Canonical(After(board, after)), offset);
    if limit.Some? then Take(rows, limit.value) else rows
  }

  function CursorOf(s: Score): Cursor {
    Cursor(s.points, s.completedUs, s.session)
  }

  /** The keyset condition after the entry at position `i` leaves exactly the entries below it. */
  lemma KeysetContinues(board: set<Score>, i: nat)
    requires ValidBoard(board) && i < |board|
    ensures Canonical(After(board, Some(CursorOf(Canonical(board)[i])))) == Canonical(board)[i + 1..]
  {
    var below := Canonical(board)[i + 1..];
    var rest := After(board, Some(CursorOf(Canonical(board)[i])));
    CanonicalSorts(board);
    assert Sorted(below, RanksBefore);
    forall s ensures s in Elements(below) <==> s in rest {
      BelowIsAfter(board, i, s);
    }
    assert Elements(below) == rest;
    CanonicalIs(rest, below);
  }

  lemma BelowIsAfter(board: set<Score>, i: nat, s: Score)
    requires ValidBoard(board) && i < |board|
    ensures s in Canonical(board)[i + 1..] <==> s in After(board, Some(CursorOf(Canonical(board)[i])))
  {
    var scores := Canonical(board);
    var below := scores[i + 1..];
    if s in board {
      var k := PlaceOf(board, s);
      PlaceOrder(board, i, k);
      if k > i { assert below[k - (i + 1)] == s; }
    }
    if s in below {
      var k :| 0 <= k < |below| && below[k] == s;
      PlaceOrder(board, i, k + i + 1);
      EntryOnBoard(board, k + i + 1);
    }
  }

  // ---------- walking the pages ----------

  /** A client that follows `next_cursor` from `cursor` until a page has none: every page asks for one
      row more than it shows, and has a successor exactly when that row exists. */
  ghost function WalkOffsets(board: set<Score>, cursor: nat, limit: nat): seq<Score>
    requires ValidBoard(board) && limit >= 1
    decreases |board| - cursor
  {
    var rows := ListCanonical(board, Some(limit + 1), cursor, None);
    var items := Take(rows, limit);
    if |rows| > limit then items + WalkOffsets(board, cursor + limit, limit) else items
  }

  /** A client that continues after the last entry it has seen. */
  ghost function WalkKeyset(board: set<Score>, after: Option<Cursor>, limit: nat): seq<Score>
    requires ValidBoard(board) && limit >= 1
    decreases |After(board, after)|
  {
    var rows := ListCanonical(board, Some(limit), 0, after);
    if rows == [] then
      []
    else
      KeysetShrinks(board, after, |rows| - 1);
      rows + WalkKeyset(board, Some(CursorOf(rows[|rows| - 1])), limit)
  }

  lemma KeysetShrinks(board: set<Score>, after: Option<Cursor>, k: nat)
    requires ValidBoard(board) && k < |After(board, after)|
    ensures var last := Canonical(After(board, after))[k];
            |After(board, Some(CursorOf(last)))| < |After(board, after)|
  {
    var all := After(board, after);
    var last := Canonical(all)[k];
    var rest := After(board, Some(CursorOf(last)));
    EntryOnBoard(all, k);
    assert last !in rest && rest <= all;
    ProperSubsetSmaller(rest, all, last);
  }

  lemma ProperSubsetSmaller<T>(a: set<T>, b: set<T>, x: T)
    requires a <= b && x in b && x !in a
    ensures |a| < |b|
  {
    assert b == a + (b - a) && a !! (b - a);
    assert x in b - a;
  }

  /** A page that asks for one row more than it shows. */
  lemma PageSplits<T>(xs: seq<T>, cursor: nat, limit: nat)
    ensures var rows := Slice(xs, cursor, limit + 1);
            && (|rows| > limit <==> cursor + limit < |xs|)
            && Take(rows, limit) == Slice(xs, cursor, limit)
            && Drop(xs, cursor) == Slice(xs, cursor, limit) + Drop(xs, cursor + limit)
  {
  }

  /** Following `next_cursor` over a fixed board lists every entry once, in order. */
  lemma {:induction false} OffsetWalkIsComplete(board: set<Score>, cursor: nat, limit: nat)
    requires ValidBoard(board) && limit >= 1
    ensures WalkOffsets(board, cursor, limit) == Drop(Canonical(board), cursor)
    decreases |board| - cursor
  {
    hide Canonical;
    PageSplits(Canonical(board), cursor, limit);
    if cursor + limit < |board| {
      OffsetWalkIsComplete(board, cursor + limit, limit);
    }
  }

  /** The whole walk, from the first page. */
  lemma OffsetWalkListsTheBoard(board: set<Score>, limit: nat)
    requires ValidBoard(board) && limit >= 1
    ensures WalkOffsets(board, 0, limit) == Canonical(board)
  {
    OffsetWalkIsComplete(board, 0, limit);
  }

  ghost function Seen(board: set<Score>, seen: nat): Option<Cursor>
    requires ValidBoard(board) && seen <= |board|
  {
    if seen == 0 then None else Some(CursorOf(Canonical(board)[seen - 1]))
  }

  lemma RowsAfterSeen(board: set<Score>, seen: nat, limit: nat)
    requires ValidBoard(board) && seen <= |board|
    ensures ListCanonical(board, Some(limit), 0, Seen(board, seen)) == Take(Canonical(board)[seen..], limit)
  {
    if seen > 0 { KeysetContinues(board, seen - 1); }
    assert Canonical(After(board, Seen(board, seen))) == Canonical(board)[seen..];
  }

  lemma KeysetPage<T>(xs: seq<T>, seen: nat, limit: nat)
    requires seen < |xs| && limit >= 1
    ensures var rows := Take(xs[seen..], limit);
            && rows != []
            && rows[|rows| - 1] == xs[seen + |rows| - 1]
            && xs[seen..] == rows + xs[seen + |rows|..]
  {
  }

  /** Continuing after the last entry seen lists the same entries. */
  lemma {:induction false} KeysetWalkIsComplete(board: set<Score>, seen: nat, limit: nat)
    requires ValidBoard(board) && limit >= 1 && seen <= |board|
    ensures WalkKeyset(board, Seen(board, seen), limit) == Canonical(board)[seen..]
    decreases |board| - seen
  {
    hide WalkKeyset, Canonical, ListCanonical;
    var rows := Take(Canonical(board)[seen..], limit);
    RowsAfterSeen(board, seen, limit);
    if seen < |board| {
      var next := seen + |rows|;
      KeysetPage(Canonical(board), seen, limit);
      KeysetWalkIsComplete(board, next, limit);
      KeysetStep(board, seen, limit, rows, next);
    } else {
      KeysetEnd(board, limit);
    }
  }

  lemma KeysetEnd(board: set<Score>, limit: nat)
    requires ValidBoard(board) && limit >= 1
    ensures WalkKeyset(board, Seen(board, |board|), limit) == []
  {
    RowsAfterSeen(board, |board|, limit);
  }

  lemma KeysetStep(board: set<Score>, seen: nat, limit: nat, rows: seq<Score>, next: nat)
    requires ValidBoard(board) && limit >= 1 && seen < next <= |board|
    requires rows == ListCanonical(board, Some(limit), 0, Seen(board, seen))
    requires rows != [] && rows[|rows| - 1] == Canonical(board)[next - 1]
    ensures WalkKeyset(board, Seen(board, seen), limit) == rows + WalkKeyset(board, Seen(board, next), limit)
  {
  }

  // ---------- window functions ----------

  /** `row_number() OVER (ORDER BY ranking)`. */
  ghost function RowNumber(board: set<Score>, s: Score): nat {
    |set t | t in board && RanksBefore(t, s)| + 1
  }

  /** `row_number() OVER (PARTITION BY player_id ORDER BY ranking)`. */
  ghost function PlayerRowNumber(board: set<Score>, s: Score): nat {
    |set t | t in board && t.player == s.player && RanksBefore(t, s)| + 1
  }

  /** The row number of an entry is its place in the canonical list, counted from one. */
  lemma RowNumberIsRank(board: set<Score>, i: nat)
    requires ValidBoard(board) && i < |board|
    ensures RowNumber(board, Canonical(board)[i]) == i + 1
  {
    var scores := Canonical(board);
    RankingOrder(board);
    CanonicalSorts(board);
    SortedRank(scores, RanksBefore, i);
    var above := set t | t in board && RanksBefore(t, scores[i]);
    var earlier := Earlier(scores, RanksBefore, scores[i]);
    forall t ensures t in above <==> t in earlier {
      assert t in board <==> t in Elements(scores);
    }
    assert above == earlier;
  }

  predicate FirstOfPlayer(scores: seq<Score>, i: nat)
    requires i < |scores|
  {
    forall j | 0 <= j < i :: scores[j].player != scores[i].player
  }

  lemma PlayerRowNumberOne(board: set<Score>, i: nat)
    requires ValidBoard(board) && i < |board|
    ensures PlayerRowNumber(board, Canonical(board)[i]) == 1 <==> FirstOfPlayer(Canonical(board), i)
  {
    var scores := Canonical(board);
    var better := set t | t in board && t.player == scores[i].player && RanksBefore(t, scores[i]);
    if FirstOfPlayer(scores, i) {
      forall t ensures t !in better {
        if t in better {
          var k := PlaceOf(board, t);
          PlaceOrder(board, k, i);
          assert false;
        }
      }
      assert better == {};
    } else {
      var j: nat :| j < i && scores[j].player == scores[i].player;
      PlaceOrder(board, j, i);
      EntryOnBoard(board, j);
      assert scores[j] in better;
    }
  }

  /** Keep the first entry of each player. */
  function FirstPerPlayer(scores: seq<Score>): seq<Score> {
    if scores == [] then
      []
    else
      var n := |scores| - 1;
      if FirstOfPlayer(scores, n) then FirstPerPlayer(scores[..n]) + [scores[n]]
      else FirstPerPlayer(scores[..n])
  }

  ghost predicate FirstEntry(scores: seq<Score>, s: Score, i: nat) {
    i < |scores| && scores[i] == s && FirstOfPlayer(scores, i)
  }

  lemma FirstEntryOfPrefix(scores: seq<Score>, s: Score, i: nat)
    requires scores != [] && i < |scores| - 1
    ensures FirstEntry(scores[..|scores| - 1], s, i) <==> FirstEntry(scores, s, i)
  {
    var shorter := scores[..|scores| - 1];
    assert forall j | 0 <= j <= i :: shorter[j] == scores[j];
  }

  lemma {:induction false} FirstPerPlayerElements(scores: seq<Score>, s: Score)
    ensures s in FirstPerPlayer(scores) <==> exists i: nat :: FirstEntry(scores, s, i)
  {
    if scores != [] {
      var n := |scores| - 1;
      FirstPerPlayerElements(scores[..n], s);
      if i: nat :| FirstEntry(scores, s, i) {
        if i < n { FirstEntryOfPrefix(scores, s, i); }
      }
      if i: nat :| FirstEntry(scores[..n], s, i) {
        FirstEntryOfPrefix(scores, s, i);
      }
      if s == scores[n] && FirstOfPlayer(scores, n) {
        assert FirstEntry(scores, s, n);
      }
    }
  }

  lemma {:induction false} FirstPerPlayerSorted(scores: seq<Score>)
    requires Sorted(scores, RanksBefore)
    ensures Sorted(FirstPerPlayer(scores), RanksBefore)
  {
    if scores != [] {
      var n := |scores| - 1;
      FirstPerPlayerSorted(scores[..n]);
      forall s | s in FirstPerPlayer(scores[..n]) ensures RanksBefore(s, scores[n]) {
        FirstPerPlayerElements(scores[..n], s);
      }
    }
  }

  /** `list_settlement_scores`: rows whose per-player row number is one, in ranking order. */
  ghost function SettlementScores(board: set<Score>): seq<Score>
    requires ValidBoard(board)
  {
    Canonical(set s | s in board && PlayerRowNumber(board, s) == 1)
  }

  /** Settlement ranks the canonical list with only each player's first entry kept. */
  lemma SettlementIsFirstPerPlayer(board: set<Score>)
    requires ValidBoard(board)
    ensures SettlementScores(board) == FirstPerPlayer(Canonical(board))
  {
    var scores := Canonical(board);
    var best := set s | s in board && PlayerRowNumber(board, s) == 1;
    CanonicalSorts(board);
    FirstPerPlayerSorted(scores);
    forall s ensures s in FirstPerPlayer(scores) <==> s in best {
      KeptIsRowOne(board, s);
    }
    assert Elements(FirstPerPlayer(scores)) == best;
    CanonicalIs(best, FirstPerPlayer(scores));
  }

  lemma KeptIsRowOne(board: set<Score>, s: Score)
    requires ValidBoard(board)
    ensures s in FirstPerPlayer(Canonical(board)) <==> s in board && PlayerRowNumber(board, s) == 1
  {
    var scores := Canonical(board);
    FirstPerPlayerElements(scores, s);
    if i: nat :| FirstEntry(scores, s, i) {
      EntryOnBoard(board, i);
      PlayerRowNumberOne(board, i);
    }
    if s in board {
      var k := PlaceOf(board, s);
      PlayerRowNumberOne(board, k);
      assert FirstOfPlayer(scores, k) ==> FirstEntry(scores, s, k);
    }
  }

  /** Settlement ranks are contiguous over unique players: no player is listed twice, and every
      player on the board is listed. */
  lemma SettlementPlayersUnique(board: set<Score>)
    requires ValidBoard(board)
    ensures var list := SettlementScores(board);
            && (forall i, j | 0 <= i < j < |list| :: list[i].player != list[j].player)
            && (forall s | s in board :: exists i | 0 <= i < |list| :: list[i].player == s.player)
  {
    var list := FirstPerPlayer(Canonical(board));
    SettlementIsFirstPerPlayer(board);
    FirstPerPlayerDistinct(Canonical(board));
    forall s | s in board ensures exists i | 0 <= i < |list| :: list[i].player == s.player {
      var k := PlaceOf(board, s);
      var f := FirstIndex(Canonical(board), k);
      var first := Canonical(board)[f];
      FirstPerPlayerElements(Canonical(board), first);
      assert FirstEntry(Canonical(board), first, f);
      var i :| 0 <= i < |list| && list[i] == first;
    }
  }

  ghost function FirstIndex(scores: seq<Score>, k: nat): (f: nat)
    requires k < |scores|
    ensures f <= k && scores[f].player == scores[k].player && FirstOfPlayer(scores, f)
  {
    if FirstOfPlayer(scores, k) then k
    else
      var j: nat :| j < k && scores[j].player == scores[k].player;
      FirstIndex(scores, j)
  }

  lemma {:induction false} FirstPerPlayerDistinct(scores: seq<Score>)
    ensures var list := FirstPerPlayer(scores);
            forall i, j | 0 <= i < j < |list| :: list[i].player != list[j].player
  {
    if scores != [] {
      var n := |scores| - 1;
      FirstPerPlayerDistinct(scores[..n]);
      if FirstOfPlayer(scores, n) {
        var shorter := FirstPerPlayer(scores[..n]);
        forall i | 0 <= i < |shorter| ensures shorter[i].player != scores[n].player {
          FirstPerPlayerElements(scores[..n], shorter[i]);
          var k: nat :| FirstEntry(scores[..n], shorter[i], k);
          assert scores[k].player != scores[n].player;
        }
        assert FirstPerPlayer(scores) == shorter + [scores[n]];
      }
    }
  }

  ghost function OwnScores(board: set<Score>, player: Uuid): (own: set<Score>)
    ensures own <= board
  {
    set s | s in board && s.player == player
  }

  /** `player_canonical_rank`: the player's row of least rank, with that rank. */
  ghost function PlayerRank(board: set<Score>, player: Uuid): Option<(Score, nat)>
    requires ValidBoard(board)
  {
    var own := Canonical(OwnScores(board, player));
    if own == [] then None else Some((own[0], RowNumber(board, own[0])))
  }

  /** A player has no rank exactly when they have no entry. */
  lemma UnrankedIsAbsent(board: set<Score>, player: Uuid)
    requires ValidBoard(board)
    ensures PlayerRank(board, player).None? <==> forall s | s in board :: s.player != player
  {
    var own := OwnScores(board, player);
    if PlayerRank(board, player).None? {
      assert own == {};
      forall s | s in board ensures s.player != player {
        assert s !in own;
      }
    } else {
      EntryOnBoard(own, 0);
    }
  }

  /** A player's rank is the position of their first canonical entry plus one. */
  lemma PlayerRankIsFirstEntry(board: set<Score>, i: nat)
    requires ValidBoard(board) && i < |board| && FirstOfPlayer(Canonical(board), i)
    ensures PlayerRank(board, Canonical(board)[i].player) == Some((Canonical(board)[i], i + 1))
  {
    BestOwnScore(board, i);
    RowNumberIsRank(board, i);
  }

  lemma BestOwnScore(board: set<Score>, i: nat)
    requires ValidBoard(board) && i < |board| && FirstOfPlayer(Canonical(board), i)
    ensures var s := Canonical(board)[i];
            && OwnScores(board, s.player) != {}
            && Canonical(OwnScores(board, s.player))[0] == s
  {
    var s := Canonical(board)[i];
    var mine := OwnScores(board, s.player);
    EntryOnBoard(board, i);
    assert s in mine;
    var m := PlaceOf(mine, s);
    EntryOnBoard(mine, 0);
    var best := Canonical(mine)[0];
    var k := PlaceOf(board, best);
    assert k >= i;
    PlaceOrder(board, k, i);
    PlaceOrder(mine, 0, m);
  }
}
