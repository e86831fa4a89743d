/** Runs without an intruder: what rebuilds do to each other's generations, the generation a pointer names,
    and the rank a player reads. */
module RebuildSafety {
  import opened Text
  import opened Sorting
  import opened Integrity
  import opened Projection
  import opened CacheProtocol
  import opened CacheSafety
  import Board

  ghost function ItemsOfRebuild(env: Env, g: string, rb: Rebuild): seq<Item> {
    Encode(env.rt, rb.signer, ContractOf(env, g, rb), rb.scores)
  }

  ghost predicate Signer(st: State, key: Key) {
    && key.generation in st.rebuilds
    && st.rebuilds[key.generation].scope == key.scope
    && PastSigning(st.rebuilds[key.generation].phase)
  }

  /** Nothing is stored but what the rebuild of that generation wrote. */
  ghost predicate AsWritten(env: Env, st: State, key: Key) {
    && (key in st.redis.metadata || key in st.redis.members || key in st.redis.players ==> Signer(st, key))
    && (Signer(st, key) ==>
          var rb := st.rebuilds[key.generation];
          var items := ItemsOfRebuild(env, key.generation, rb);
          && (key in st.redis.metadata ==> st.redis.metadata[key] == Metadata(env.rt, rb.signer, ContractOf(env, key.generation, rb)))
          && (key in st.redis.members ==> st.redis.members[key] == ToSortedSet(items))
          && (key in st.redis.players ==> st.redis.players[key] == PlayerMembers(items, rb.scores)))
  }

  /** All three keys of a generation, the empty ones being absent in Redis, or none of them. */
  ghost predicate WholeOrAbsent(st: State, key: Key) {
    || (key in st.redis.metadata && key.generation in st.rebuilds
        && (st.rebuilds[key.generation].scores == [] || (key in st.redis.members && key in st.redis.players)))
    || (key !in st.redis.metadata && key !in st.redis.members && key !in st.redis.players)
  }

  ghost predicate StoreInv(env: Env, st: State) {
    forall key :: AsWritten(env, st, key) && (key !in st.redis.expiring ==> WholeOrAbsent(st, key))
  }

  ghost predicate Current(st: State, key: Key) {
    key.scope in st.redis.pointer && st.redis.pointer[key.scope] == key.generation
  }

  /** A pointer names a generation that was published, and never one it has left. */
  ghost predicate PointerInv(st: State) {
    && (forall key :: Current(st, key) ==> Signer(st, key) && key !in st.superseded)
    && (forall key | key in st.superseded :: Signer(st, key))
    && (forall key | key in st.redis.expiring :: key in st.superseded)
  }

  predicate AfterPublish(phase: Phase) {
    phase.Published? || phase.Checked?
  }

  /** What a rebuild found the pointer naming is still named, or has been left for good; once the rebuild
      has published, it has been left. */
  ghost predicate PreviousInv(st: State) {
    forall g | g in st.rebuilds && st.rebuilds[g].previous.Some? :: LeavesPrevious(st, g)
  }

  ghost predicate LeavesPrevious(st: State, g: string)
    requires g in st.rebuilds && st.rebuilds[g].previous.Some?
  {
    var rb := st.rebuilds[g];
    var key := Key(rb.scope, rb.previous.value);
    && IsUuidText(rb.previous.value)
    && (Current(st, key) || key in st.superseded)
    && (AfterPublish(rb.phase) ==> key in st.superseded)
  }

  /** The rebuild of that generation failed and its clean-up reached Redis. */
  ghost predicate Deleted(st: State, key: Key) {
    key.generation in st.rebuilds && st.rebuilds[key.generation].phase == Failed(true)
  }

  /** A named generation is there exactly if its own rebuild has not deleted it. */
  ghost predicate NamedInv(st: State) {
    forall key :: Current(st, key) ==> (key in st.redis.metadata <==> !Deleted(st, key))
  }

  ghost predicate Orderly(env: Env, st: State) {
    && RebuildInv(st) && PointerInv(st) && PreviousInv(st) && StoreInv(env, st) && NamedInv(st)
  }

  ghost predicate Honest(ev: Event) {
    !ev.Tamper?
  }

  lemma PublishMovesPointer(env: Env, st: State, g: string, step: RebuildStep)
    requires Orderly(env, st) && g in st.rebuilds && RebuildReady(env, st, g, st.rebuilds[g], step)
    requires step.Publish? && step.applied
    ensures PointerInv(ApplyRebuild(env, st, g, step))
  {
    hide Written, Signatures, RebuildInv, PreviousInv, StoreInv;
    var st' := ApplyRebuild(env, st, g, step);
    WrittenFrame(env, st.redis, g, st.rebuilds[g]);
    forall key ensures Current(st', key) ==> Signer(st', key) && key !in st'.superseded {
      assert Current(st, key) ==> Signer(st, key);
      if key.scope == st.rebuilds[g].scope && key in st'.superseded {
        if key in st.superseded { assert Signer(st, key); }
      }
    }
    forall key | key in st'.superseded ensures Signer(st', key) {
      assert key in st.superseded || Current(st, key);
    }
  }

  lemma WrittenFrame(env: Env, redis: Redis, g: string, rb: Rebuild)
    ensures Written(env, redis, g, rb).expiring == redis.expiring
    ensures Written(env, redis, g, rb).pointer == redis.pointer[rb.scope := g]
  {
  }

  lemma OtherStepsKeepPointer(env: Env, st: State, g: string, step: RebuildStep)
    requires ReadsBack(env.rt) && Orderly(env, st) && g in st.rebuilds
    requires RebuildReady(env, st, g, st.rebuilds[g], step)
    requires !(step.Publish? && step.applied)
    ensures PointerInv(ApplyRebuild(env, st, g, step))
  {
    hide Signatures, RebuildInv, StoreInv, PreviousInv, NamedInv, Encode, Listing, NextRebuild, UuidText, Written;
    var st' := ApplyRebuild(env, st, g, step);
    PhaseMovesOn(st, st.rebuilds[g], step);
    assert st'.superseded == st.superseded && st'.redis.pointer == st.redis.pointer;
    forall key ensures Signer(st, key) ==> Signer(st', key) {
    }
    forall key | key in st'.redis.expiring ensures key in st'.superseded {
      if key !in st.redis.expiring {
        StaleIsSuperseded(env, st, g);
      }
    }
    forall key ensures Current(st', key) ==> Signer(st', key) && key !in st'.superseded {
      assert Current(st', key) ==> Current(st, key);
    }
  }

  lemma PhaseMovesOn(st: State, rb: Rebuild, step: RebuildStep)
    requires step.ReadScores? ==> Board.ValidBoard(Elements(Rows(st, rb.scope)))
    ensures var rb' := NextRebuild(st, rb, step);
      && rb'.scope == rb.scope && rb'.previous == rb.previous && rb'.signer == rb.signer
      && (step.Publish? || step.ReadBack? || step.ExpirePrevious? || step.Fail? ==>
            rb'.scores == rb.scores && rb'.revision == rb.revision && PastSigning(rb'.phase))
      && (step.Publish? && AfterPublish(rb'.phase) ==> step.acknowledged)
      && (AfterPublish(rb'.phase) ==> step.Publish? || step.ReadBack?)
  {
  }

  /** The generation a rebuild is about to expire has been left by the pointer. */
  lemma StaleIsSuperseded(env: Env, st: State, g: string)
    requires ReadsBack(env.rt) && PreviousInv(st) && g in st.rebuilds && st.rebuilds[g].phase.Checked?
    ensures var stale := Stale(env, g, st.rebuilds[g]); stale.Some? ==> stale.value in st.superseded
  {
    var rb := st.rebuilds[g];
    if rb.previous.Some? {
      assert LeavesPrevious(st, g);
      var u: Uuid :| rb.previous.value == UuidText(u);
      assert env.rt.parseUuid(UuidText(u)) == Some(u);
    }
  }

  lemma PreviousStays(env: Env, st: State, g: string, step: RebuildStep)
    requires Orderly(env, st) && g in st.rebuilds && RebuildReady(env, st, g, st.rebuilds[g], step)
    ensures PreviousInv(ApplyRebuild(env, st, g, step))
  {
    hide Signatures, RebuildInv, StoreInv, Encode, Listing, NextRebuild, UuidText, Written, IsUuidText, Stale;
    var st' := ApplyRebuild(env, st, g, step);
    PhaseMovesOn(st, st.rebuilds[g], step);
    WrittenFrame(env, st.redis, g, st.rebuilds[g]);
    forall h | h in st'.rebuilds && st'.rebuilds[h].previous.Some? ensures LeavesPrevious(st', h) {
      assert LeavesPrevious(st, h);
    }
  }

  /** Only the clean-up of its own rebuild removes a named generation. */
  lemma NamedStays(env: Env, st: State, g: string, step: RebuildStep)
    requires Orderly(env, st) && g in st.rebuilds && RebuildReady(env, st, g, st.rebuilds[g], step)
    ensures NamedInv(ApplyRebuild(env, st, g, step))
  {
    hide RebuildInv, StoreInv, PreviousInv, RebuildReady, ApplyRebuild, Signer, Deleted, Current;
    var st' := ApplyRebuild(env, st, g, step);
    forall key ensures Current(st', key) ==> (key in st'.redis.metadata <==> !Deleted(st', key)) {
      assert Current(st, key) ==> Signer(st, key);
      NamedKeyStays(env, st, g, step, key);
    }
  }

  lemma NamedKeyStays(env: Env, st: State, g: string, step: RebuildStep, key: Key)
    requires g in st.rebuilds && RebuildReady(env, st, g, st.rebuilds[g], step)
    requires Current(st, key) ==> Signer(st, key) && (key in st.redis.metadata <==> !Deleted(st, key))
    ensures var st' := ApplyRebuild(env, st, g, step);
      Current(st', key) ==> (key in st'.redis.metadata <==> !Deleted(st', key))
  {
    hide Signatures, RebuildReady, NextRedis, NextRebuild, Written, Moved;
    var rb := st.rebuilds[g];
    DeletesItself(env, st, g, rb, step);
    PublishNames(env, st.redis, g, rb, step);
    MostStepsOnlyExpire(env, st.redis, g, rb, step);
    if key != KeyOf(g, rb) { ElsewhereUnwritten(env, st.redis, g, rb, step, key); }
  }

  lemma DeletesItself(env: Env, st: State, g: string, rb: Rebuild, step: RebuildStep)
    requires RebuildReady(env, st, g, rb, step)
    ensures !rb.phase.Failed? && (NextRebuild(st, rb, step).phase == Failed(true) <==> step == Fail(true))
    ensures NextRebuild(st, rb, step).scope == rb.scope
  {
    hide Listing, Encode;
  }

  lemma PublishNames(env: Env, redis: Redis, g: string, rb: Rebuild, step: RebuildStep)
    ensures var redis' := NextRedis(env, redis, g, rb, step);
      if step.Publish? && step.applied
      then redis'.pointer == redis.pointer[rb.scope := g] && KeyOf(g, rb) in redis'.metadata
      else redis'.pointer == redis.pointer
  {
    hide Encode, Metadata, ToSortedSet, PlayerMembers, Stale, ContractOf;
  }

  // ---------- what is stored ----------

  lemma ElsewhereStays(env: Env, st: State, g: string, step: RebuildStep, key: Key)
    requires g in st.rebuilds && RebuildReady(env, st, g, st.rebuilds[g], step)
    requires key != KeyOf(g, st.rebuilds[g]) && AsWritten(env, st, key)
    requires key !in st.redis.expiring ==> WholeOrAbsent(st, key)
    ensures var st' := ApplyRebuild(env, st, g, step);
      AsWritten(env, st', key) && (key !in st'.redis.expiring ==> WholeOrAbsent(st', key))
  {
    var st' := ApplyRebuild(env, st, g, step);
    PhaseMovesOn(st, st.rebuilds[g], step);
    hide Signatures, Encode, Listing, RebuildReady, Metadata, ToSortedSet, PlayerMembers, UuidText, Stale, Moved,
         ContractOf;
    ElsewhereUnwritten(env, st.redis, g, st.rebuilds[g], step, key);
    hide NextRedis, NextRebuild;
    if key.generation in st'.rebuilds && key.generation != g {
      assert st'.rebuilds[key.generation] == st.rebuilds[key.generation];
    }
  }

  lemma ElsewhereUnwritten(env: Env, redis: Redis, g: string, rb: Rebuild, step: RebuildStep, key: Key)
    requires key != KeyOf(g, rb)
    ensures var redis' := NextRedis(env, redis, g, rb, step);
      && (key in redis'.metadata <==> key in redis.metadata)
      && (key in redis'.members <==> key in redis.members)
      && (key in redis'.players <==> key in redis.players)
      && (key in redis.metadata ==> redis'.metadata[key] == redis.metadata[key])
      && (key in redis.members ==> redis'.members[key] == redis.members[key])
      && (key in redis.players ==> redis'.players[key] == redis.players[key])
      && (key in redis.expiring ==> key in redis'.expiring)
  {
    if step.Publish? { WrittenElsewhere(env, redis, g, rb, key); }
    hide Written, Stale;
  }

  lemma WrittenElsewhere(env: Env, redis: Redis, g: string, rb: Rebuild, key: Key)
    requires key != KeyOf(g, rb)
    ensures var redis' := Written(env, redis, g, rb);
      && (key in redis'.metadata <==> key in redis.metadata)
      && (key in redis'.members <==> key in redis.members)
      && (key in redis'.players <==> key in redis.players)
      && (key in redis.metadata ==> redis'.metadata[key] == redis.metadata[key])
      && (key in redis.members ==> redis'.members[key] == redis.members[key])
      && (key in redis.players ==> redis'.players[key] == redis.players[key])
      && redis'.expiring == redis.expiring
  {
    hide Encode, Metadata, ToSortedSet, PlayerMembers, ContractOf;
  }

  lemma WrittenHere(env: Env, redis: Redis, g: string, rb: Rebuild)
    requires KeyOf(g, rb) !in redis.metadata && KeyOf(g, rb) !in redis.members && KeyOf(g, rb) !in redis.players
    ensures var redis', key := Written(env, redis, g, rb), KeyOf(g, rb);
      && key in redis'.metadata && redis'.metadata[key] == Metadata(env.rt, rb.signer, ContractOf(env, g, rb))
      && (rb.scores == [] ==> key !in redis'.members && key !in redis'.players)
      && (rb.scores != [] ==>
            && key in redis'.members && redis'.members[key] == ToSortedSet(ItemsOfRebuild(env, g, rb))
            && key in redis'.players && redis'.players[key] == PlayerMembers(ItemsOfRebuild(env, g, rb), rb.scores))
  {
    hide Metadata, ToSortedSet, PlayerMembers, EncodeScore;
    var key := KeyOf(g, rb);
    assert Found(redis.metadata, key, map[]) == map[] && Found(redis.members, key, map[]) == map[];
    assert Found(redis.players, key, map[]) == map[];
    NothingMerged(Metadata(env.rt, rb.signer, ContractOf(env, g, rb)));
    NothingMerged(ToSortedSet(ItemsOfRebuild(env, g, rb)));
    NothingMerged(PlayerMembers(ItemsOfRebuild(env, g, rb), rb.scores));
  }

  lemma NothingMerged<K, V>(m: map<K, V>)
    ensures map[] + m == m
  {
  }

  /** A rebuild that has not signed has nothing stored under its generation. */
  lemma HereStays(env: Env, st: State, g: string, step: RebuildStep)
    requires g in st.rebuilds && RebuildReady(env, st, g, st.rebuilds[g], step)
    requires var key := KeyOf(g, st.rebuilds[g]);
      AsWritten(env, st, key) && (key !in st.redis.expiring ==> WholeOrAbsent(st, key))
    ensures var st' := ApplyRebuild(env, st, g, step);
      var key := KeyOf(g, st.rebuilds[g]);
      AsWritten(env, st', key) && (key !in st'.redis.expiring ==> WholeOrAbsent(st', key))
  {
    var rb := st.rebuilds[g];
    var key := KeyOf(g, rb);
    var st' := ApplyRebuild(env, st, g, step);
    MostStepsOnlyExpire(env, st.redis, g, rb, step);
    RebuildHere(st, rb, step);
    hide AsWritten, WholeOrAbsent, Encode, Listing, UuidText, Signatures, Moved, ContractOf, Written, NextRedis,
         Without, NextRebuild;
    match step
    case Publish(true, _) => PublishedHere(env, st, st', g);
    case Fail(true) => RemovedHere(env, st', key);
    case _ =>
      SameItems(env, g, rb, st'.rebuilds[g]);
      hide ItemsOfRebuild, RebuildReady, ApplyRebuild;
      SameKeysStay(env, st, st', key);
  }

  /** Signing ends what a rebuild may change in its scores and revision. */
  lemma RebuildHere(st: State, rb: Rebuild, step: RebuildStep)
    requires step.ReadScores? ==> rb.phase.Begun? && Board.ValidBoard(Elements(Rows(st, rb.scope)))
    requires step.ReadRevision? ==> rb.phase.HasScores?
    ensures var rb' := NextRebuild(st, rb, step);
      && rb'.scope == rb.scope && rb'.previous == rb.previous && rb'.signer == rb.signer
      && (PastSigning(rb.phase) ==> PastSigning(rb'.phase))
      && (PastSigning(rb'.phase) ==> rb' == rb.(phase := rb'.phase))
      && (step.Publish? ==> PastSigning(rb'.phase))
      && (step.Fail? ==> PastSigning(rb'.phase))
  {
  }

  lemma MostStepsOnlyExpire(env: Env, redis: Redis, g: string, rb: Rebuild, step: RebuildStep)
    ensures var redis', key := NextRedis(env, redis, g, rb, step), KeyOf(g, rb);
      match step
      case Publish(true, _) => redis' == Written(env, redis, g, rb)
      case Fail(true) => key !in redis'.metadata && key !in redis'.members && key !in redis'.players
      case _ => redis' == redis.(expiring := redis'.expiring) && redis.expiring <= redis'.expiring
  {
    hide Written, Stale;
  }

  lemma RemovedHere(env: Env, st: State, key: Key)
    requires key !in st.redis.metadata && key !in st.redis.members && key !in st.redis.players
    requires Signer(st, key)
    ensures AsWritten(env, st, key) && WholeOrAbsent(st, key)
  {
    hide Metadata, ToSortedSet, PlayerMembers, ContractOf, ItemsOfRebuild;
  }

  lemma PublishedHere(env: Env, st: State, st': State, g: string)
    requires g in st.rebuilds && g in st'.rebuilds && !PastSigning(st.rebuilds[g].phase)
    requires AsWritten(env, st, KeyOf(g, st.rebuilds[g]))
    requires st'.redis == Written(env, st.redis, g, st.rebuilds[g])
    requires st'.rebuilds[g] == st.rebuilds[g].(phase := st'.rebuilds[g].phase) && PastSigning(st'.rebuilds[g].phase)
    ensures var key := KeyOf(g, st.rebuilds[g]); AsWritten(env, st', key) && WholeOrAbsent(st', key)
  {
    SameItems(env, g, st.rebuilds[g], st'.rebuilds[g]);
    hide ContractOf, ItemsOfRebuild, Metadata, ToSortedSet, PlayerMembers, Encode;
    WrittenHere(env, st.redis, g, st.rebuilds[g]);
    hide Written;
  }

  lemma SameKeysStay(env: Env, st: State, st': State, key: Key)
    requires AsWritten(env, st, key) && (key !in st.redis.expiring ==> WholeOrAbsent(st, key))
    requires st'.redis == st.redis.(expiring := st'.redis.expiring) && st.redis.expiring <= st'.redis.expiring
    requires key.generation in st.rebuilds && key.generation in st'.rebuilds
    requires st'.rebuilds[key.generation].scope == st.rebuilds[key.generation].scope
    requires Signer(st, key) ==> Signer(st', key)
    requires PastSigning(st'.rebuilds[key.generation].phase) ==>
      ItemsOfRebuild(env, key.generation, st'.rebuilds[key.generation]) == ItemsOfRebuild(env, key.generation, st.rebuilds[key.generation])
      && ContractOf(env, key.generation, st'.rebuilds[key.generation]) == ContractOf(env, key.generation, st.rebuilds[key.generation])
      && st'.rebuilds[key.generation].signer == st.rebuilds[key.generation].signer
      && st'.rebuilds[key.generation].scores == st.rebuilds[key.generation].scores
    ensures AsWritten(env, st', key) && (key !in st'.redis.expiring ==> WholeOrAbsent(st', key))
  {
    hide ContractOf, ItemsOfRebuild, Metadata, ToSortedSet, PlayerMembers;
  }

  lemma SameItems(env: Env, g: string, rb: Rebuild, rb': Rebuild)
    ensures rb'.scope == rb.scope && rb'.signer == rb.signer && rb'.scores == rb.scores && rb'.revision == rb.revision ==>
      ItemsOfRebuild(env, g, rb') == ItemsOfRebuild(env, g, rb) && ContractOf(env, g, rb') == ContractOf(env, g, rb)
  {
  }

  lemma RebuildStepIsOrderly(env: Env, st: State, g: string, step: RebuildStep)
    requires ReadsBack(env.rt) && LogInv(st) && Orderly(env, st)
    requires g in st.rebuilds && RebuildReady(env, st, g, st.rebuilds[g], step)
    ensures Orderly(env, ApplyRebuild(env, st, g, step))
  {
    hide RebuildReady, AsWritten, WholeOrAbsent, ReadsBack;
    var st' := ApplyRebuild(env, st, g, step);
    RebuildStaysGood(env, st, g, step);
    if step.Publish? && step.applied { PublishMovesPointer(env, st, g, step); }
    else { OtherStepsKeepPointer(env, st, g, step); }
    PreviousStays(env, st, g, step);
    NamedStays(env, st, g, step);
    hide NamedInv, ApplyRebuild, PointerInv, PreviousInv, RebuildInv;
    forall key ensures AsWritten(env, st', key) && (key !in st'.redis.expiring ==> WholeOrAbsent(st', key)) {
      assert AsWritten(env, st, key);
      if key == KeyOf(g, st.rebuilds[g]) { HereStays(env, st, g, step); } else { ElsewhereStays(env, st, g, step, key); }
    }
  }

  lemma BeginIsOrderly(env: Env, st: State, id: Uuid, scope: Scope, signer: string)
    requires LogInv(st) && Orderly(env, st) && Enabled(env, st, Begin(id, scope, signer))
    ensures Orderly(env, Apply(env, st, Begin(id, scope, signer)))
  {
    var st' := Apply(env, st, Begin(id, scope, signer));
    EmptyBoard(Rows(st, scope));
    assert IsUuidText(UuidText(id));
    hide UuidText, IsUuidText, Signatures, LogInv, WholeOrAbsent;
    forall h | h in st'.rebuilds ensures GoodRebuild(st', h) {
      if h != UuidText(id) { assert GoodRebuild(st, h); SameBoard(st, st', h); }
    }
    hide GoodRebuild;
    BeginKeepsPointer(st, st', UuidText(id));
    BeginKeepsStore(env, st, st', UuidText(id));
    BeginKeepsNamed(st, st', UuidText(id));
    hide PointerInv, StoreInv, NamedInv;
    BeginKeepsPrevious(env, st, id, scope, signer);
  }

  lemma BeginKeepsNamed(st: State, st': State, g: string)
    requires PointerInv(st) && NamedInv(st) && g !in st.rebuilds && g in st'.rebuilds
    requires st' == st.(rebuilds := st.rebuilds[g := st'.rebuilds[g]])
    ensures NamedInv(st')
  {
    forall key ensures Current(st', key) ==> (key in st'.redis.metadata <==> !Deleted(st', key)) {
      assert Current(st, key) ==> Signer(st, key);
    }
  }

  lemma BeginKeepsPointer(st: State, st': State, g: string)
    requires PointerInv(st) && g !in st.rebuilds && g in st'.rebuilds
    requires st' == st.(rebuilds := st.rebuilds[g := st'.rebuilds[g]])
    ensures PointerInv(st')
  {
    forall key ensures Signer(st, key) ==> Signer(st', key) {
    }
    forall key ensures Current(st', key) ==> Signer(st', key) && key !in st'.superseded {
      assert Current(st', key) ==> Current(st, key);
    }
  }

  lemma BeginKeepsStore(env: Env, st: State, st': State, g: string)
    requires StoreInv(env, st) && g !in st.rebuilds && g in st'.rebuilds && !PastSigning(st'.rebuilds[g].phase)
    requires st' == st.(rebuilds := st.rebuilds[g := st'.rebuilds[g]])
    ensures StoreInv(env, st')
  {
    hide Metadata, ToSortedSet, PlayerMembers, ContractOf, ItemsOfRebuild;
    forall key ensures AsWritten(env, st', key) && (key !in st'.redis.expiring ==> WholeOrAbsent(st', key)) {
      assert AsWritten(env, st, key);
      assert key !in st.redis.expiring ==> WholeOrAbsent(st, key);
    }
  }

  lemma BeginKeepsPrevious(env: Env, st: State, id: Uuid, scope: Scope, signer: string)
    requires RebuildInv(st) && PointerInv(st) && PreviousInv(st) && Enabled(env, st, Begin(id, scope, signer))
    ensures PreviousInv(Apply(env, st, Begin(id, scope, signer)))
  {
    hide UuidText, IsUuidText;
    var st' := Apply(env, st, Begin(id, scope, signer));
    forall h | h in st'.rebuilds && st'.rebuilds[h].previous.Some? ensures LeavesPrevious(st', h) {
      if h == UuidText(id) {
        var key := Key(scope, st'.rebuilds[h].previous.value);
        assert Current(st, key);
        assert GoodRebuild(st, key.generation);
      } else {
        assert LeavesPrevious(st, h);
      }
    }
  }

  /** Steps that leave the rebuilds, the pointer and the keys alone. */
  lemma QuietStepIsOrderly(env: Env, st: State, st': State)
    requires Orderly(env, st) && RebuildInv(st')
    requires st'.rebuilds == st.rebuilds && st'.redis == st.redis && st'.superseded == st.superseded
    ensures Orderly(env, st')
  {
    hide AsWritten, WholeOrAbsent, RebuildInv;
    forall key ensures AsWritten(env, st', key) && (key !in st'.redis.expiring ==> WholeOrAbsent(st', key)) {
      assert AsWritten(env, st, key);
      SameStore(env, st, st', key);
    }
    forall key ensures Current(st', key) ==> Signer(st', key) && key !in st'.superseded {
      assert Current(st', key) ==> Current(st, key);
    }
    forall key | key in st'.superseded ensures Signer(st', key) {
      assert Signer(st, key);
    }
    forall h | h in st'.rebuilds && st'.rebuilds[h].previous.Some? ensures LeavesPrevious(st', h) {
      assert LeavesPrevious(st, h);
    }
  }

  lemma SameStore(env: Env, st: State, st': State, key: Key)
    requires st'.rebuilds == st.rebuilds && st'.redis == st.redis
    ensures AsWritten(env, st', key) == AsWritten(env, st, key) && WholeOrAbsent(st', key) == WholeOrAbsent(st, key)
  {
  }

  lemma ExpiryIsOrderly(env: Env, st: State, key: Key, part: Part)
    requires Orderly(env, st) && key in st.redis.expiring
    ensures Orderly(env, st.(redis := WithoutPart(st.redis, key, part)))
  {
    hide Metadata, ToSortedSet, PlayerMembers, ContractOf, ItemsOfRebuild, IsUuidText, GoodRebuild;
    var st' := st.(redis := WithoutPart(st.redis, key, part));
    forall g | g in st.rebuilds ensures GoodRebuild(st', g) {
      SameBoard(st, st', g);
    }
    forall k ensures AsWritten(env, st', k) && (k !in st'.redis.expiring ==> WholeOrAbsent(st', k)) {
      assert AsWritten(env, st, k);
      assert k !in st.redis.expiring ==> WholeOrAbsent(st, k);
    }
    forall k ensures Current(st', k) ==> Signer(st', k) && k !in st'.superseded {
      assert Current(st', k) ==> Current(st, k);
    }
    forall k | k in st'.superseded ensures Signer(st', k) {
      assert Signer(st, k);
    }
    forall h | h in st'.rebuilds && st'.rebuilds[h].previous.Some? ensures LeavesPrevious(st', h) {
      assert LeavesPrevious(st, h);
    }
  }

  // ---------- every run without an intruder ----------

  ghost predicate EmptyRedis(redis: Redis) {
    && redis.pointer == map[] && redis.metadata == map[] && redis.members == map[] && redis.players == map[]
    && redis.expiring == {}
  }

  lemma EmptyIsOrderly(env: Env, st: State)
    requires Initial(env, st) && EmptyRedis(st.redis)
    ensures Orderly(env, st)
  {
    forall key ensures AsWritten(env, st, key) && WholeOrAbsent(st, key) {
    }
  }

  lemma StepIsOrderly(env: Env, st: State, ev: Event)
    requires ReadsBack(env.rt) && CollisionFree(env.rt) && Safe(env, st) && Orderly(env, st)
    requires Enabled(env, st, ev) && Honest(ev)
    ensures Orderly(env, Apply(env, st, ev))
  {
    StepIsSafe(env, st, ev);
    hide Orderly, ReadsBack, CollisionFree, NoForgery, RebuildReady, ReaderReady, ApplyRebuild, NextReader,
         Insertable, LogInv, SignedInv, ReaderInv, RebuildInv, AsWritten;
    match ev
    case InsertScore(scope, score) => QuietStepIsOrderly(env, st, Inserted(st, scope, score));
    case Begin(id, scope, signer) => BeginIsOrderly(env, st, id, scope, signer);
    case Rebuilds(g, step) => RebuildStepIsOrderly(env, st, g, step);
    case Reads(read) => QuietStepIsOrderly(env, st, st.(reader := NextReader(env, st, read)));
    case KeyExpires(key, part) => ExpiryIsOrderly(env, st, key, part);
  }

  /** A run in which no step is the intruder's, from an empty Redis. */
  ghost predicate HonestRun(env: Env, run: seq<State>) {
    && IsRun(env, run) && EmptyRedis(run[0].redis)
    && forall i | 0 <= i < |run| - 1 :: GoesHonestly(env, run, i)
  }

  ghost predicate GoesHonestly(env: Env, run: seq<State>, i: nat)
    requires i + 1 < |run|
  {
    exists ev :: Honest(ev) && Steps(env, run[i], ev, run[i + 1])
  }

  lemma {:induction false} RunIsOrderly(env: Env, run: seq<State>, n: nat)
    requires ReadsBack(env.rt) && CollisionFree(env.rt) && HonestRun(env, run) && n < |run|
    ensures Orderly(env, run[n])
  {
    hide Safe, Orderly, Enabled, Apply, ReadsBack, CollisionFree, Honest, Initial, EmptyRedis;
    if n == 0 {
      EmptyIsOrderly(env, run[0]);
    } else {
      RunIsOrderly(env, run, n - 1);
      RunIsSafe(env, run, n - 1);
      assert GoesHonestly(env, run, n - 1);
      var ev :| Honest(ev) && Steps(env, run[n - 1], ev, run[n]);
      StepIsOrderly(env, run[n - 1], ev);
    }
  }

  /** However many rebuilds run, fail or lose their answers: the generation a scope's Redis pointer names is never
      set to expire, its keys are there exactly as its rebuild wrote them or not at all, and they are gone exactly
      if that rebuild failed and deleted them. */
  lemma NamedGenerationIsIntactOrGone(env: Env, run: seq<State>, n: nat, key: Key)
    requires ReadsBack(env.rt) && CollisionFree(env.rt) && HonestRun(env, run) && n < |run|
    ensures Current(run[n], key) ==>
      && key !in run[n].redis.expiring
      && AsWritten(env, run[n], key) && WholeOrAbsent(run[n], key)
      && (key in run[n].redis.metadata <==> !Deleted(run[n], key))
  {
    RunIsOrderly(env, run, n);
    hide AsWritten, WholeOrAbsent, RebuildInv, PreviousInv, Signer, IsRun, ReadsBack, CollisionFree;
    assert AsWritten(env, run[n], key);
  }

  lemma RunGoesOn(env: Env, run: seq<State>, ev: Event, st: State)
    requires HonestRun(env, run) && Honest(ev) && Steps(env, run[|run| - 1], ev, st)
    ensures HonestRun(env, run + [st])
  {
    hide Steps, Honest, EmptyRedis, Initial;
    var longer := run + [st];
    forall i | 0 <= i < |longer| - 1 ensures Goes(env, longer, i) && GoesHonestly(env, longer, i) {
      if i < |run| - 1 { assert Goes(env, run, i) && GoesHonestly(env, run, i); }
    }
  }

  lemma RunGoesOnTwice(env: Env, run: seq<State>, one: Event, st: State, two: Event, st': State)
    requires HonestRun(env, run) && Honest(one) && Honest(two)
    requires Steps(env, run[|run| - 1], one, st) && Steps(env, st, two, st')
    ensures HonestRun(env, run + [st, st'])
  {
    hide HonestRun, Steps, Honest;
    RunGoesOn(env, run, one, st);
    RunGoesOn(env, run + [st], two, st');
    assert run + [st] + [st'] == run + [st, st'];
  }

  lemma GoneAfterFailing(env: Env, st: State, g: string) returns (published: State, end: State)
    requires g in st.rebuilds && st.rebuilds[g].phase.HasRevision?
    ensures Steps(env, st, Rebuilds(g, Publish(true, false)), published) && Steps(env, published, Rebuilds(g, Fail(true)), end)
    ensures var key := KeyOf(g, st.rebuilds[g]);
      Current(end, key) && key !in end.redis.metadata && key !in end.redis.members && key !in end.redis.players
  {
    hide Signatures, Encode, Metadata, ToSortedSet, PlayerMembers, ContractOf, Moved;
    published := ApplyRebuild(env, st, g, Publish(true, false));
    end := ApplyRebuild(env, published, g, Fail(true));
  }

  /** Any run in which a rebuild is about to publish can go on so that its EXEC takes effect, its answer is lost and the
      clean-up goes through: the Redis pointer then names a generation that is gone. */
  lemma LostAnswerDangles(env: Env, run: seq<State>, g: string) returns (published: State, end: State)
    requires HonestRun(env, run)
    requires g in run[|run| - 1].rebuilds && run[|run| - 1].rebuilds[g].phase.HasRevision?
    ensures HonestRun(env, run + [published, end])
    ensures var key := KeyOf(g, run[|run| - 1].rebuilds[g]);
      Current(end, key) && key !in end.redis.metadata && key !in end.redis.members && key !in end.redis.players
  {
    published, end := GoneAfterFailing(env, run[|run| - 1], g);
    RunGoesOnTwice(env, run, Rebuilds(g, Publish(true, false)), published, Rebuilds(g, Fail(true)), end);
    hide HonestRun, Steps, Current;
  }

  // ---------- a player's rank ----------

  lemma {:induction false} PlayerMembersFirst(items: seq<Item>, scores: seq<Board.Score>, player: Uuid)
    returns (i: nat)
    requires |items| == |scores| && UuidText(player) in PlayerMembers(items, scores)
    ensures i < |scores| && scores[i].player == player && Board.FirstOfPlayer(scores, i)
    ensures PlayerMembers(items, scores)[UuidText(player)] == items[i].member
  {
    var n := |items| - 1;
    var earlier := PlayerMembers(items[..n], scores[..n]);
    if UuidText(player) in earlier {
      i := PlayerMembersFirst(items[..n], scores[..n], player);
      assert forall j | 0 <= j <= i :: scores[..n][j] == scores[j];
    } else {
      i := n;
      UuidTextOrder(player, scores[n].player);
      forall j | 0 <= j < n ensures scores[j].player != player {
        if scores[j].player == player {
          PlayerMembersCover(items[..n], scores[..n], j);
        }
      }
    }
  }

  lemma {:induction false} PlayerMembersCover(items: seq<Item>, scores: seq<Board.Score>, j: nat)
    requires |items| == |scores| && j < |scores|
    ensures UuidText(scores[j].player) in PlayerMembers(items, scores)
  {
    hide UuidText;
    var n := |items| - 1;
    if j < n { PlayerMembersCover(items[..n], scores[..n], j); }
  }

  /** The member the reader holds is that of the player's first entry in the generation. */
  ghost predicate HoldsFirstMember(env: Env, st: State, r: Reader, i: nat) {
    && r.generation in st.rebuilds
    && var rb := st.rebuilds[r.generation];
    && i < |rb.scores| && rb.scores[i].player == r.player && Board.FirstOfPlayer(rb.scores, i)
    && r.member == EncodeScore(env.rt, rb.signer, ContractOf(env, r.generation, rb), rb.scores[i], i + 1).member
  }

  ghost predicate RanksCorrectly(st: State, r: Reader) {
    && r.count <= |Rows(st, r.scope)|
    && var board := BoardAt(Rows(st, r.scope), r.count);
    && Board.ValidBoard(board)
    && var best := Board.PlayerRank(board, r.player);
       best.Some? && r.rank.Some? && Shows(r.rank.value, best.value.0, best.value.1)
  }

  ghost predicate RankInv(env: Env, st: State) {
    var r := st.reader;
    && (r.phase.HasMember? || r.phase.HasScore? ==> exists i: nat :: HoldsFirstMember(env, st, r, i))
    && (r.phase.Ranked? && r.rank.Some? ==> RanksCorrectly(st, r))
  }

  lemma FirstMemberFound(env: Env, st: State, player: Uuid)
    requires Safe(env, st) && Orderly(env, st) && ReaderReady(st, ReadMember(player))
    ensures RankInv(env, st.(reader := NextReader(env, st, ReadMember(player))))
  {
    hide RebuildInv, PointerInv, PreviousInv, NoForgery, LogInv, SignedInv, UuidText, PlayerMembers, EncodeScore,
         ContractOf, WholeOrAbsent, RanksCorrectly, Metadata, ToSortedSet;
    var st' := st.(reader := NextReader(env, st, ReadMember(player)));
    var r := st.reader;
    var key := Key(r.scope, r.generation);
    assert AsWritten(env, st, key);
    if st'.reader.phase.HasMember? {
      var rb := st.rebuilds[r.generation];
      var i := PlayerMembersFirst(ItemsOfRebuild(env, r.generation, rb), rb.scores, player);
      assert HoldsFirstMember(env, st', st'.reader, i);
    }
  }

  lemma RankFound(env: Env, st: State)
    requires CollisionFree(env.rt) && Safe(env, st) && RankInv(env, st) && ReaderReady(st, ReadRank)
    ensures RankInv(env, st.(reader := NextReader(env, st, ReadRank)))
  {
    hide NoForgery, LogInv, SignedInv, RebuildInv, ReaderInv, UuidText, ContractOf, ParseMember, Listing,
         HoldsFirstMember, RanksCorrectly, RankRow, CollisionFree;
    var r := st.reader;
    var i: nat :| HoldsFirstMember(env, st, r, i);
    var rank := RankRow(env, r, Listing(MembersAt(st.redis, r)));
    var r' := NextReader(env, st, ReadRank);
    assert r' == r.(phase := Ranked, rank := rank);
    if rank.Some? {
      RankIsSigned(env, st, r, Listing(MembersAt(st.redis, r)), i);
      FirstMemberRanks(env, st, r, i);
      SameRankClaim(st, st.(reader := r'), r.(rank := rank), r');
    }
  }

  lemma SameRankClaim(st: State, st': State, r: Reader, r': Reader)
    requires st'.log == st.log && r' == r.(phase := r'.phase)
    ensures RanksCorrectly(st', r') == RanksCorrectly(st, r)
  {
  }

  /** The rank a reader accepts is the one its rebuild signed for that entry. */
  lemma RankIsSigned(env: Env, st: State, r: Reader, items: seq<Item>, i: nat)
    requires CollisionFree(env.rt) && HoldsFirstMember(env, st, r, i) && RankRow(env, r, items).Some?
    ensures RankRow(env, r, items) == Some(RowOf(st.rebuilds[r.generation].scores[i], i + 1))
  {
    hide CollisionFree, UuidText, ContractOf, ParseMember, RowOf, Board.FirstOfPlayer, PlaceIn, Member;
    var rb := st.rebuilds[r.generation];
    RowIsCanonical(rb.scores[i], i + 1);
    MemberSaysWhatWasSigned(env.rt, env.ring, rb.signer, ContractOf(env, r.generation, rb), RowOf(rb.scores[i], i + 1),
                            r.contract, r.score.value);
  }

  /** A player's first entry in the trusted generation is the player's best on the counted board. */
  lemma FirstMemberRanks(env: Env, st: State, r: Reader, i: nat)
    requires Safe(env, st) && r == st.reader && r.phase.HasScore? && HoldsFirstMember(env, st, r, i)
    ensures RanksCorrectly(st, r.(rank := Some(RowOf(st.rebuilds[r.generation].scores[i], i + 1))))
  {
    hide NoForgery, LogInv, SignedInv, UuidText, ContractOf, BoardAt, EncodeScore;
    assert GoodRebuild(st, r.generation);
    Board.PlayerRankIsFirstEntry(BoardAt(Rows(st, r.scope), r.count), i);
  }

  lemma RankKept(env: Env, st: State, st': State)
    requires RankInv(env, st) && RebuildInv(st) && ReaderInv(env, st) && SignersKept(st, st')
    requires st'.reader == st.reader
    requires Rows(st, st.reader.scope) <= Rows(st', st.reader.scope)
    ensures RankInv(env, st')
  {
    hide GoodRebuild, EncodeScore, BoardAt, Board.PlayerRank;
    var r := st.reader;
    if r.phase.HasMember? || r.phase.HasScore? {
      var i: nat :| HoldsFirstMember(env, st, r, i);
      assert HoldsFirstMember(env, st', r, i);
    }
    if r.phase.Ranked? && r.rank.Some? {
      BoardAtKept(Rows(st, r.scope), Rows(st', r.scope), r.count);
    }
  }

  lemma StepKeepsRank(env: Env, st: State, ev: Event)
    requires ReadsBack(env.rt) && CollisionFree(env.rt) && Safe(env, st) && Orderly(env, st) && RankInv(env, st)
    requires Enabled(env, st, ev) && Honest(ev)
    ensures RankInv(env, Apply(env, st, ev))
  {
    hide ReadsBack, CollisionFree, Orderly, RankInv, RebuildInv, ReaderInv, SignedInv, LogInv, NoForgery,
         RebuildReady, ReaderReady, NextRebuild, NextRedis, NextReader, Signatures, Rows, UuidText, Insertable,
         WithoutPart, Moved;
    if ev.Reads? {
      ReadKeepsRank(env, st, ev.read);
    } else {
      StepKeepsRequest(env, st, ev, st.reader.scope);
      if ev.Rebuilds? { SignersStay(env, st, ev.generation, ev.step); }
      RankKept(env, st, Apply(env, st, ev));
    }
  }

  lemma ReadKeepsRank(env: Env, st: State, read: ReaderStep)
    requires ReadsBack(env.rt) && CollisionFree(env.rt) && Safe(env, st) && Orderly(env, st) && RankInv(env, st)
    requires ReaderReady(st, read)
    ensures RankInv(env, st.(reader := NextReader(env, st, read)))
  {
    hide Safe, Orderly, ReadsBack, CollisionFree, VerifyMetadata, AcceptPage, Listing, Range, CanonicalRows, RankRow,
         UuidText, Normalized, RanksCorrectly;
    match read
    case ReadMember(player) => FirstMemberFound(env, st, player);
    case ReadRank => RankFound(env, st);
    case ReadScore =>
      var i: nat :| HoldsFirstMember(env, st, st.reader, i);
      var r' := NextReader(env, st, read);
      assert HoldsFirstMember(env, st.(reader := r'), r', i);
    case _ => OtherReadsKeepRank(env, st, read);
  }

  lemma OtherReadsKeepRank(env: Env, st: State, read: ReaderStep)
    requires ReaderReady(st, read) && !read.ReadMember? && !read.ReadScore? && !read.ReadRank?
    ensures RankInv(env, st.(reader := NextReader(env, st, read)))
  {
    hide VerifyMetadata, AcceptPage, Listing, Range, CanonicalRows, RanksCorrectly, HoldsFirstMember, Normalized;
    hide Rows, Revision, MembersAt, PageItems;
    var phase := NextReader(env, st, read).phase;
    assert !phase.HasMember? && !phase.HasScore? && !phase.Ranked?;
  }

  lemma {:induction false} RunKeepsRank(env: Env, run: seq<State>, n: nat)
    requires ReadsBack(env.rt) && CollisionFree(env.rt) && HonestRun(env, run) && n < |run|
    ensures RankInv(env, run[n])
  {
    hide Safe, Orderly, RankInv, Enabled, Apply, ReadsBack, CollisionFree, Honest, EmptyRedis, LogInv, NoForgery;
    if n == 0 {
      IdleHasNoRank(env, run[0]);
    } else {
      RunKeepsRank(env, run, n - 1);
      RunIsSafe(env, run, n - 1);
      RunIsOrderly(env, run, n - 1);
      assert GoesHonestly(env, run, n - 1);
      var ev :| Honest(ev) && Steps(env, run[n - 1], ev, run[n]);
      StepKeepsRank(env, run[n - 1], ev);
    }
  }

  lemma IdleHasNoRank(env: Env, st: State)
    requires st.reader.phase.Idle?
    ensures RankInv(env, st)
  {
  }

  /** In every run without an intruder, a rank taken from Redis is the player's canonical rank at the instant
      the reader counted the rows. */
  lemma RedisRankIsCanonical(env: Env, run: seq<State>, n: nat)
    requires ReadsBack(env.rt) && CollisionFree(env.rt) && HonestRun(env, run) && n < |run|
    ensures run[n].reader.phase.Ranked? && run[n].reader.rank.Some? ==> RanksCorrectly(run[n], run[n].reader)
  {
    hide RanksCorrectly, HonestRun, ReadsBack, CollisionFree;
    RunKeepsRank(env, run, n);
  }
}
