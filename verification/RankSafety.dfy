/** Ranks under an intruder: nothing signs which member of a player is the best, so a rank taken from Redis is that of
    some entry of the player. */
module RankSafety {
  import opened Text
  import opened Integrity
  import opened Projection
  import opened CacheProtocol
  import opened CacheSafety
  import opened RebuildSafety
  import Board

  /** The rank is that of the player's entry at place `i` of the list. */
  predicate EntryAt(scores: seq<Board.Score>, r: Reader, i: nat) {
    i < |scores| && scores[i].player == r.player && r.rank.Some? && Shows(r.rank.value, scores[i], i + 1)
  }

  ghost predicate OwnEntry(st: State, r: Reader) {
    && r.count <= |Rows(st, r.scope)|
    && Board.ValidBoard(BoardAt(Rows(st, r.scope), r.count))
    && exists i: nat :: EntryAt(Board.Canonical(BoardAt(Rows(st, r.scope), r.count)), r, i)
  }

  ghost predicate EntryInv(env: Env, st: State) {
    var r := st.reader;
    && (r.phase.HasScore? && r.score.Some? ==> GenuineMember(env, r.member, r.score.value, st.signed))
    && (r.phase.Ranked? && r.rank.Some? ==> OwnEntry(st, r))
  }

  lemma ScoreIsGenuine(env: Env, st: State)
    requires Safe(env, st) && ReaderReady(st, ReadScore)
    ensures EntryInv(env, st.(reader := NextReader(env, st, ReadScore)))
  {
    hide GenuineMember, GenuineFields, LogInv, RebuildInv, SignedInv, ReaderInv, OwnEntry;
  }

  /** A rank that passes the checks was signed for an entry of the player at exactly that place. */
  lemma RankIsGenuine(env: Env, st: State)
    requires Safe(env, st) && EntryInv(env, st) && ReaderReady(st, ReadRank)
    ensures EntryInv(env, st.(reader := NextReader(env, st, ReadRank)))
  {
    hide GenuineMember, NoForgery, LogInv, SignedInv, GoodRebuild, ParseMember, UuidText, Listing, PlaceIn, MembersAt,
         RowPayload, OwnEntry;
    var r := st.reader;
    var rank := NextReader(env, st, ReadRank).rank;
    if rank.Some? {
      AcceptedRankIsSigned(env, st, r.score.value, rank.value);
      EntryOnCountedBoard(env, st, NextReader(env, st, ReadRank), rank.value.rank - 1);
      SameLogEntry(st, st.(reader := NextReader(env, st, ReadRank)));
    }
  }

  lemma AcceptedRankIsSigned(env: Env, st: State, score: Float, row: Row)
    requires SignedInv(env, st) && Vouched(st, st.reader) && GenuineMember(env, st.reader.member, score, st.signed)
    requires ParseMember(env.rt, env.ring, st.reader.contract, st.reader.member, score) == Some(row)
    requires row.playerId == UuidText(st.reader.player)
    ensures var scores := st.rebuilds[st.reader.generation].scores;
      1 <= row.rank <= |scores| && row == RowOf(scores[row.rank - 1], row.rank)
      && scores[row.rank - 1].player == st.reader.player
  {
    hide ParseMember, SignedInv, RowPayload, UuidText;
    assert RowPayload(st.reader.contract, row) in st.signed;
    SignedRow(env, st, st.reader.contract, row);
    UuidTextOrder(st.rebuilds[st.reader.generation].scores[row.rank - 1].player, st.reader.player);
  }

  lemma EntryOnCountedBoard(env: Env, st: State, r: Reader, i: nat)
    requires RebuildInv(st) && Vouched(st, r) && EntryAt(st.rebuilds[r.generation].scores, r, i)
    ensures OwnEntry(st, r)
  {
    hide RowOf;
    assert GoodRebuild(st, r.generation);
  }

  lemma SameLogEntry(st: State, st': State)
    requires st'.log == st.log && OwnEntry(st, st'.reader)
    ensures OwnEntry(st', st'.reader)
  {
  }

  lemma ReadKeepsEntry(env: Env, st: State, read: ReaderStep)
    requires Safe(env, st) && EntryInv(env, st) && ReaderReady(st, read)
    ensures EntryInv(env, st.(reader := NextReader(env, st, read)))
  {
    match read
    case ReadScore => ScoreIsGenuine(env, st);
    case ReadRank => RankIsGenuine(env, st);
    case _ => OtherReadsKeepEntry(env, st, read);
  }

  lemma OtherReadsKeepEntry(env: Env, st: State, read: ReaderStep)
    requires ReaderReady(st, read) && !read.ReadScore? && !read.ReadRank?
    ensures EntryInv(env, st.(reader := NextReader(env, st, read)))
  {
    hide VerifyMetadata, AcceptPage, Listing, Range, CanonicalRows, Normalized, MembersAt, PageItems, Rows, Revision,
         UuidText, OwnEntry, GenuineMember;
    var r := NextReader(env, st, read);
    assert !r.phase.HasScore? && !(r.phase.Ranked? && r.rank.Some?);
  }

  lemma GrowingKeepsEntry(env: Env, st: State, st': State)
    requires EntryInv(env, st) && st'.reader == st.reader && st.signed <= st'.signed
    requires Rows(st, st.reader.scope) <= Rows(st', st.reader.scope)
    ensures EntryInv(env, st')
  {
    hide ParseMember, RowPayload, RowOf, Rows, BoardAt, Board.Canonical, EntryAt;
    var r := st.reader;
    if r.phase.Ranked? && r.rank.Some? { BoardAtKept(Rows(st, r.scope), Rows(st', r.scope), r.count); }
  }

  lemma StepKeepsEntry(env: Env, st: State, ev: Event)
    requires Safe(env, st) && EntryInv(env, st) && Enabled(env, st, ev)
    ensures EntryInv(env, Apply(env, st, ev))
  {
    hide Safe, EntryInv, ReaderReady, NextReader, RebuildReady, NoForgery, NextRebuild, NextRedis, Signatures, Rows,
         Moved, Insertable, WithoutPart, UuidText;
    if ev.Reads? {
      ReadKeepsEntry(env, st, ev.read);
    } else {
      StepKeepsRequest(env, st, ev, st.reader.scope);
      GrowingKeepsEntry(env, st, Apply(env, st, ev));
    }
  }

  lemma {:induction false} RunKeepsEntry(env: Env, run: seq<State>, n: nat)
    requires ReadsBack(env.rt) && CollisionFree(env.rt) && IsRun(env, run) && n < |run|
    ensures EntryInv(env, run[n])
  {
    hide Safe, EntryInv, Enabled, Apply, ReadsBack, CollisionFree, NoForgery, LogInv;
    if n == 0 {
      IdleHasNoEntry(env, run[0]);
    } else {
      RunKeepsEntry(env, run, n - 1);
      RunIsSafe(env, run, n - 1);
      assert Goes(env, run, n - 1);
      var ev :| Steps(env, run[n - 1], ev, run[n]);
      StepKeepsEntry(env, run[n - 1], ev);
    }
  }

  lemma IdleHasNoEntry(env: Env, st: State)
    requires st.reader.phase.Idle?
    ensures EntryInv(env, st)
  {
  }

  /** In every run, whatever the intruder does: a rank taken from Redis is the true place of an entry of that player on
      the counted board, and it is the player's rank exactly if no better entry of the player stands above it. */
  lemma RankIsAnOwnEntry(env: Env, run: seq<State>, n: nat)
    requires ReadsBack(env.rt) && CollisionFree(env.rt) && IsRun(env, run) && n < |run|
    ensures var st, r := run[n], run[n].reader;
      r.phase.Ranked? && r.rank.Some? ==>
        && OwnEntry(st, r)
        && forall i: nat | EntryAt(Board.Canonical(BoardAt(Rows(st, r.scope), r.count)), r, i) ::
             RanksCorrectly(st, r) <==> Board.FirstOfPlayer(Board.Canonical(BoardAt(Rows(st, r.scope), r.count)), i)
  {
    hide ReadsBack, CollisionFree, OwnEntry, IsRun, RanksCorrectly, RowOf, Board.FirstOfPlayer, Rows, BoardAt;
    RunKeepsEntry(env, run, n);
    var st, r := run[n], run[n].reader;
    if r.phase.Ranked? && r.rank.Some? {
      OwnEntryIsOnBoard(st, r);
      var board := BoardAt(Rows(st, r.scope), r.count);
      forall i: nat | EntryAt(Board.Canonical(board), r, i)
        ensures RanksCorrectly(st, r) <==> Board.FirstOfPlayer(Board.Canonical(board), i)
      {
        RankedIffFirst(st, r, i);
      }
    }
  }

  lemma OwnEntryIsOnBoard(st: State, r: Reader)
    requires OwnEntry(st, r)
    ensures r.count <= |Rows(st, r.scope)| && Board.ValidBoard(BoardAt(Rows(st, r.scope), r.count))
  {
  }

  lemma RankedIffFirst(st: State, r: Reader, i: nat)
    requires r.count <= |Rows(st, r.scope)| && Board.ValidBoard(BoardAt(Rows(st, r.scope), r.count))
    requires EntryAt(Board.Canonical(BoardAt(Rows(st, r.scope), r.count)), r, i)
    ensures RanksCorrectly(st, r) <==> Board.FirstOfPlayer(Board.Canonical(BoardAt(Rows(st, r.scope), r.count)), i)
  {
    hide UuidText, Rows, BoardAt, Board.Canonical, Board.ValidBoard, Board.FirstOfPlayer, Board.PlayerRank;
    var board := BoardAt(Rows(st, r.scope), r.count);
    var scores := Board.Canonical(board);
    var first := Board.FirstIndex(scores, i);
    Board.PlayerRankIsFirstEntry(board, first);
    if Board.FirstOfPlayer(scores, i) { Board.PlayerRankIsFirstEntry(board, i); }
  }
}
