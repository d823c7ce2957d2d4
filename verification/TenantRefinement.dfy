/** The shared tables under the two policies behave as one private store per tenant. */
module TenantRefinement {
  import opened Wrappers
  import opened TenantTables
  import opened TenantMachine
  import opened TenantInvariant

  /** A tenant's own database: no policies, no pool, and nobody else's rows or transactions. Outside a block's
      body there is no tenant, and statements fail. */
  datatype Private = Private(tenantId: string, phase: Phase, txn: Option<Txn>)

  datatype Store = Store(rows: Tables, blocks: map<BlockId, Private>)

  datatype StoreStep = Held | StoreStep(store: Store, reply: Reply)

  function PrivateRivals(c: Store, b: BlockId): set<Writes> {
    set b' | b' in c.blocks && b' != b :: Pending(c.blocks[b'].txn)
  }

  function PrivateAdvanced(c: Store, b: BlockId, action: Action): Advance
    requires b in c.blocks
  {
    var k := c.blocks[b];
    AdvanceBlock(k.tenantId, k.phase, k.txn, c.rows, View(c.rows, Pending(k.txn)), PrivateRivals(c, b),
                 if k.phase == Scoped then ParseUuid(k.tenantId) else None, action)
  }

  /** A step of a block on its tenant's own database. Statements read and match every row there is. */
  function PrivateNext(c: Store, l: Label): StoreStep {
    if l.action.Acquire? then
      if l.block in c.blocks then Held
      else StoreStep(c.(blocks := c.blocks[l.block := Private(l.tenantId, Leased, None)]), Done)
    else if l.action.Outside? then
      StoreStep(c, Failed(NoTenant))
    else if l.block !in c.blocks || c.blocks[l.block].tenantId != l.tenantId then
      Held
    else if l.action.Release? then
      if c.blocks[l.block].phase == Leased || c.blocks[l.block].phase == Closed then
        StoreStep(c.(blocks := c.blocks - {l.block}), Done)
      else Held
    else
      var a := PrivateAdvanced(c, l.block, l.action);
      if a.Stuck? then Held
      else StoreStep(Store(a.rows, c.blocks[l.block := Private(l.tenantId, a.phase, a.txn)]), a.reply)
  }

  // ---- The abstraction -----------------------------------------------------------

  function RowsOf(rows: Tables, u: Option<Uuid>): Tables {
    if u.Some? then Visible(rows, u.value) else map[]
  }

  function PrivateOf(s: State, b: BlockId): Private
    requires b in s.blocks
  {
    Private(s.blocks[b].tenantId, s.blocks[b].phase, TxnOf(s, b))
  }

  /** The part of the shared state that is tenant `u`'s. None collects the blocks whose
      `tenant_id` is no uuid. */
  function StoreOf(s: State, u: Option<Uuid>): Store {
    Store(RowsOf(s.rows, u),
          map b | b in s.blocks && ParseUuid(s.blocks[b].tenantId) == u :: PrivateOf(s, b))
  }

  /** What a step needs from outside its tenant's store: an idle connection and a new block,
      or a row id nobody has used. */
  predicate Supplied(s: State, l: Label) {
    if l.action.Acquire? then l.block !in s.blocks && l.action.conn in s.idle
    else (l.action.Outside? ==> l.action.conn in s.idle) && NewIds(l.action) !! s.issued
  }

  // ---- One statement -------------------------------------------------------------

  lemma ConflictsStayHome(rows: Tables, changes: Writes, t: Uuid, r: Writes)
    requires OwnedBy(rows, r, t)
    ensures Conflicts(rows, changes, r) == Conflicts(Visible(rows, t), changes, r)
  {
    forall i, k | i in r
      ensures HoldsKey(rows, r, i, k) == HoldsKey(Visible(rows, t), r, i, k)
    {
    }
  }

  lemma ClashesStayHome(rows: Tables, w: Writes, changes: Writes, t: Uuid)
    requires OwnedBy(rows, w + changes, t)
    ensures Clashes(View(rows, w + changes), changes) == Clashes(View(Visible(rows, t), w + changes), changes)
  {
    var whole, own := View(rows, w + changes), View(Visible(rows, t), w + changes);
    VisibleView(rows, w + changes, t);
    if Clashes(whole, changes) {
      var i, j :| i in changes && i in whole && j in whole && i != j && KeyOf(whole[i]) == KeyOf(whole[j]);
      assert whole[i] == (w + changes)[i].value;
      KeyDeterminesTenant(whole[i], whole[j]);
      assert i in own && j in own && own[i] == whole[i] && own[j] == whole[j];
    }
  }

  predicate Homely(s: State, b: BlockId, t: Uuid, changes: Writes) {
    OwnedBy(s.rows, changes, t) &&
    forall i :: i in changes ==> i in s.rows || i in WritesOf(s, b) || i !in s.issued
  }

  lemma RivalAgrees(s: State, b: BlockId, t: Uuid, changes: Writes, b': BlockId)
    requires WorkInv(s) && b in s.blocks && b' in s.blocks && b' != b
    requires Homely(s, b, t, changes)
    ensures if ParseUuid(s.blocks[b'].tenantId) == Some(t)
            then Conflicts(s.rows, changes, WritesOf(s, b')) == Conflicts(Visible(s.rows, t), changes, WritesOf(s, b'))
            else !Conflicts(s.rows, changes, WritesOf(s, b'))
  {
    var w := WritesOf(s, b');
    var u := ParseUuid(s.blocks[b'].tenantId);
    assert Sound(s.rows, s.blocks[b'].tenantId, w) && Apart(s.rows, WritesOf(s, b), w);
    if u == Some(t) {
      ConflictsStayHome(s.rows, changes, t, w);
    } else if u.Some? {
      assert w.Keys <= s.issued;
      StrangersDoNotConflict(s.rows, changes, t, w, u.value);
    }
  }

  predicate SharedWait(s: State, b: BlockId, changes: Writes) {
    exists r :: r in Rivals(s, b) && Conflicts(s.rows, changes, r)
  }

  predicate PrivateWait(c: Store, b: BlockId, changes: Writes) {
    exists r :: r in PrivateRivals(c, b) && Conflicts(c.rows, changes, r)
  }

  lemma OnlyOwnRivalsMatter(s: State, b: BlockId, t: Uuid, changes: Writes)
    requires WorkInv(s) && b in s.blocks && Homely(s, b, t, changes)
    ensures SharedWait(s, b, changes) == PrivateWait(StoreOf(s, Some(t)), b, changes)
  {
    hide ParseUuid, Conflicts, WorkInv, Homely, Visible;
    var c := StoreOf(s, Some(t));
    if SharedWait(s, b, changes) {
      var r :| r in Rivals(s, b) && Conflicts(s.rows, changes, r);
      var b' :| b' in s.blocks && b' != b && r == WritesOf(s, b');
      RivalAgrees(s, b, t, changes, b');
      assert b' in c.blocks && Pending(c.blocks[b'].txn) == r;
      assert r in PrivateRivals(c, b);
    }
    if PrivateWait(c, b, changes) {
      var r :| r in PrivateRivals(c, b) && Conflicts(c.rows, changes, r);
      var b' :| b' in c.blocks && b' != b && r == Pending(c.blocks[b'].txn);
      RivalAgrees(s, b, t, changes, b');
      assert WritesOf(s, b') == r && r in Rivals(s, b);
    }
  }

  lemma BlockFacts(s: State, b: BlockId)
    requires Inv(s) && b in s.blocks
    ensures s.blocks[b].conn in s.conns
    ensures PhaseInv(s.blocks[b], TxnOf(s, b))
    ensures Sound(s.rows, s.blocks[b].tenantId, WritesOf(s, b))
  {
  }

  /** A statement under the policies does exactly what it would do on the tenant's own tables. */
  lemma PerformAgrees(s: State, b: BlockId, t: Uuid, statement: Statement)
    requires Inv(s) && b in s.blocks && ParseUuid(s.blocks[b].tenantId) == Some(t)
    requires NewIds(Execute(statement)) !! s.issued
    ensures var w, c := WritesOf(s, b), StoreOf(s, Some(t));
            Visible(View(s.rows, w), t) == View(c.rows, w) &&
            Perform(s.rows, w, Visible(View(s.rows, w), t), Rivals(s, b), t, statement)
            == Perform(c.rows, w, View(c.rows, w), PrivateRivals(c, b), t, statement)
  {
    hide Conflicts, Clashes, ParseUuid, PoolInv;
    var w, c := WritesOf(s, b), StoreOf(s, Some(t));
    BlockFacts(s, b);
    VisibleView(s.rows, w, t);
    var changes := Changes(View(c.rows, w), statement);
    if !statement.Select? && Permitted(changes, t) {
      assert statement.Insert? ==> statement.id in NewIds(Execute(statement));
      ChangesOwned(s.rows, w, t, statement);
      forall i | i in changes
        ensures i in s.rows || i in w || i !in s.issued
      {
        assert statement.Insert? || i in View(c.rows, w);
      }
      OnlyOwnRivalsMatter(s, b, t, changes);
      assert SharedWait(s, b, changes) == PrivateWait(c, b, changes);
      ClashesStayHome(s.rows, w, changes, t);
    }
  }

  // ---- One step ------------------------------------------------------------------

  /** A block's own progress is the same in both worlds. */
  lemma AdvanceAgrees(s: State, b: BlockId, action: Action)
    requires Inv(s) && b in s.blocks && NewIds(action) !! s.issued
    requires !action.Acquire? && !action.Release? && !action.Outside?
    ensures var u := ParseUuid(s.blocks[b].tenantId);
            var a, p := Advanced(s, b, action), PrivateAdvanced(StoreOf(s, u), b, action);
            && a.Stuck? == p.Stuck?
            && (a.Advance? ==> p == Advance(a.phase, a.txn, RowsOf(a.rows, u), a.reply))
  {
    hide Perform, PoolInv, WorkInv, ParseUuid, View, Visible, Rivals, PrivateRivals;
    var u := ParseUuid(s.blocks[b].tenantId);
    var w := WritesOf(s, b);
    BlockFacts(s, b);
    if s.blocks[b].phase == Scoped {
      ScopedTenant(s, b);
      if u.Some? {
        VisibleView(s.rows, w, u.value);
        if action.Execute? { PerformAgrees(s, b, u.value, action.statement); }
      } else if action.Commit? {
        EmptyOverlay(s.rows);
        EmptyOverlay(map[]);
      }
    } else {
      TenantOnlyInBody(s, b);
    }
  }

  /** Steps of a block leave the committed rows of all other tenants as they were. */
  lemma AdvanceSparesOthers(s: State, b: BlockId, action: Action, u: Option<Uuid>)
    requires Inv(s) && b in s.blocks && u != ParseUuid(s.blocks[b].tenantId)
    requires Advanced(s, b, action).Advance?
    ensures RowsOf(Advanced(s, b, action).rows, u) == RowsOf(s.rows, u)
  {
    hide AdvanceBlock, ParseUuid;
    var k, w := s.blocks[b], WritesOf(s, b);
    var c := s.conns[k.conn];
    TenantOnlyInBody(s, b);
    AdvanceCases(k.tenantId, k.phase, c.txn, s.rows, Filtered(s, b, c), Rivals(s, b), PolicyTenant(c), action);
    assert Sound(s.rows, k.tenantId, w);
    if ParseUuid(k.tenantId).None? {
      assert View(s.rows, w) == s.rows;
    } else if u.Some? {
      VisibleOther(s.rows, w, ParseUuid(k.tenantId).value, u.value);
    }
  }

  function BlocksOf(s: State, u: Option<Uuid>): map<BlockId, Private> {
    StoreOf(s, u).blocks
  }

  /** Two states whose blocks differ at `b` only. */
  ghost predicate SameElsewhere(s: State, s': State, b: BlockId) {
    forall b' :: b' != b ==> (b' in s'.blocks <==> b' in s.blocks) && (b' in s.blocks ==> PrivateOf(s', b') == PrivateOf(s, b'))
  }

  lemma BlocksElsewhere(s: State, s': State, b: BlockId, u: Option<Uuid>)
    requires SameElsewhere(s, s', b)
    ensures BlocksOf(s', u) - {b} == BlocksOf(s, u) - {b}
  {
    hide ParseUuid, Visible;
    var m, m' := BlocksOf(s, u) - {b}, BlocksOf(s', u) - {b};
    forall b'
      ensures b' in m <==> b' in m'
      ensures b' in m ==> m'[b'] == m[b']
    {
      if b' != b && b' in s.blocks {
        assert PrivateOf(s', b') == PrivateOf(s, b');
      }
    }
  }

  lemma BlocksAfterPut(s: State, b: BlockId, phase: Phase, txn: Option<Txn>, rows: Tables, ids: set<RowId>, u: Option<Uuid>)
    requires PoolInv(s) && b in s.blocks
    ensures var s', k := Put(s, b, phase, txn, rows, ids), s.blocks[b];
            BlocksOf(s', u) ==
            if u == ParseUuid(k.tenantId) then BlocksOf(s, u)[b := Private(k.tenantId, phase, txn)] else BlocksOf(s, u)
  {
    hide ParseUuid, View;
    var s', m := Put(s, b, phase, txn, rows, ids), BlocksOf(s, u);
    PutWork(s, b, phase, txn, rows, ids);
    BlocksElsewhere(s, s', b, u);
    BlocksSplit(s, b, u);
    BlocksSplit(s', b, u);
  }

  lemma BlocksSplit(s: State, b: BlockId, u: Option<Uuid>)
    ensures BlocksOf(s, u) ==
            if b in s.blocks && ParseUuid(s.blocks[b].tenantId) == u then (BlocksOf(s, u) - {b})[b := PrivateOf(s, b)]
            else BlocksOf(s, u) - {b}
  {
  }

  lemma BlocksAfterAcquire(s: State, l: Label, u: Option<Uuid>)
    requires PoolInv(s) && Next(s, l).Step? && l.action.Acquire?
    ensures BlocksOf(Next(s, l).state, u) ==
            if u == ParseUuid(l.tenantId) then BlocksOf(s, u)[l.block := Private(l.tenantId, Leased, None)] else BlocksOf(s, u)
  {
    var s', b := Next(s, l).state, l.block;
    assert PrivateOf(s', b) == Private(l.tenantId, Leased, None);
    BlocksElsewhere(s, s', b, u);
    BlocksSplit(s, b, u);
    BlocksSplit(s', b, u);
  }

  lemma BlocksAfterRelease(s: State, l: Label, u: Option<Uuid>)
    requires PoolInv(s) && Next(s, l).Step? && l.action.Release?
    ensures BlocksOf(Next(s, l).state, u) == BlocksOf(s, u) - {l.block}
    ensures u != ParseUuid(l.tenantId) ==> l.block !in BlocksOf(s, u)
  {
    var s', b := Next(s, l).state, l.block;
    BlocksElsewhere(s, s', b, u);
    BlocksSplit(s', b, u);
  }

  lemma AcquireRefines(s: State, l: Label, u: Option<Uuid>)
    requires PoolInv(s) && Next(s, l).Step? && l.action.Acquire?
    ensures u == ParseUuid(l.tenantId) ==> PrivateNext(StoreOf(s, u), l) == StoreStep(StoreOf(Next(s, l).state, u), Next(s, l).reply)
    ensures u != ParseUuid(l.tenantId) ==> StoreOf(Next(s, l).state, u) == StoreOf(s, u)
  {
    var m := BlocksOf(s, u);
    BlocksAfterAcquire(s, l, u);
    assert l.block !in m;
    assert StoreOf(s, u) == Store(RowsOf(s.rows, u), m);
    assert StoreOf(Next(s, l).state, u) == Store(RowsOf(s.rows, u), BlocksOf(Next(s, l).state, u));
  }

  lemma ReleaseRefines(s: State, l: Label, u: Option<Uuid>)
    requires PoolInv(s) && Next(s, l).Step? && l.action.Release?
    ensures u == ParseUuid(l.tenantId) ==> PrivateNext(StoreOf(s, u), l) == StoreStep(StoreOf(Next(s, l).state, u), Next(s, l).reply)
    ensures u != ParseUuid(l.tenantId) ==> StoreOf(Next(s, l).state, u) == StoreOf(s, u)
  {
    hide ParseUuid, View, Visible;
    var m, k := BlocksOf(s, u), s.blocks[l.block];
    BlocksAfterRelease(s, l, u);
    assert u == ParseUuid(l.tenantId) ==> l.block in m && m[l.block].tenantId == k.tenantId && m[l.block].phase == k.phase;
    assert StoreOf(s, u) == Store(RowsOf(s.rows, u), m);
    assert StoreOf(Next(s, l).state, u) == Store(RowsOf(s.rows, u), BlocksOf(Next(s, l).state, u));
    if u != ParseUuid(l.tenantId) {
      assert m - {l.block} == m;
    }
  }

  lemma IssuedIsShared(s: State, s': State, u: Option<Uuid>)
    requires s' == s.(issued := s'.issued)
    ensures StoreOf(s', u) == StoreOf(s, u)
  {
    hide ParseUuid, Visible;
    forall b | b in s.blocks
      ensures PrivateOf(s', b) == PrivateOf(s, b)
    {
    }
    assert StoreOf(s', u).blocks == StoreOf(s, u).blocks;
  }

  /** A step of a block is a step of its tenant's own database, with the same reply, and is
      invisible in every other tenant's database. */
  lemma StepRefines(s: State, l: Label)
    requires Inv(s) && Next(s, l).Step?
    ensures Supplied(s, l)
    ensures PrivateNext(StoreOf(s, ParseUuid(l.tenantId)), l)
            == StoreStep(StoreOf(Next(s, l).state, ParseUuid(l.tenantId)), Next(s, l).reply)
    ensures forall u: Option<Uuid> :: u != ParseUuid(l.tenantId) ==> StoreOf(Next(s, l).state, u) == StoreOf(s, u)
  {
    if l.action.Acquire? {
      forall u: Option<Uuid> { AcquireRefines(s, l, u); }
    } else if l.action.Release? {
      forall u: Option<Uuid> { ReleaseRefines(s, l, u); }
    } else if l.action.Outside? {
      OutsideFails(s, l);
      forall u: Option<Uuid> { IssuedIsShared(s, Next(s, l).state, u); }
    } else {
      var b, o := l.block, ParseUuid(l.tenantId);
      var a := Advanced(s, b, l.action);
      AdvanceAgrees(s, b, l.action);
      BlocksAfterPut(s, b, a.phase, a.txn, a.rows, NewIds(l.action), o);
      forall u: Option<Uuid> | u != o
        ensures StoreOf(Next(s, l).state, u) == StoreOf(s, u)
      {
        BlocksAfterPut(s, b, a.phase, a.txn, a.rows, NewIds(l.action), u);
        AdvanceSparesOthers(s, b, l.action, u);
      }
    }
  }

  /** A step waits exactly when it would wait on the tenant's own database, or the pool and the
      id generator cannot serve it. No other tenant's transaction makes it wait. */
  lemma StepEnabled(s: State, l: Label)
    requires Inv(s)
    ensures Next(s, l).Step? <==> Supplied(s, l) && PrivateNext(StoreOf(s, ParseUuid(l.tenantId)), l).StoreStep?
  {
    if Next(s, l).Step? {
      StepRefines(s, l);
    } else if Supplied(s, l) && PrivateNext(StoreOf(s, ParseUuid(l.tenantId)), l).StoreStep? {
      if l.action.Outside? {
        OutsideFails(s, l);
      } else if !l.action.Acquire? && !l.action.Release? {
        AdvanceAgrees(s, l.block, l.action);
      }
    }
  }

  // ---- Whole runs ----------------------------------------------------------------

  datatype StoreTrace = Unreached | StoreTrace(store: Store, replies: seq<Reply>)

  function PrivateRun(c: Store, labels: seq<Label>): StoreTrace {
    if labels == [] then StoreTrace(c, [])
    else
      var before := PrivateRun(c, labels[..|labels| - 1]);
      if before.Unreached? then Unreached
      else
        var last := PrivateNext(before.store, labels[|labels| - 1]);
        if last.Held? then Unreached else StoreTrace(last.store, before.replies + [last.reply])
  }

  /** The steps of one tenant's blocks, in order. */
  function StepsOf(labels: seq<Label>, u: Option<Uuid>): seq<Label> {
    if labels == [] then []
    else
      var l := labels[|labels| - 1];
      StepsOf(labels[..|labels| - 1], u) + if ParseUuid(l.tenantId) == u then [l] else []
  }

  /** The replies that one tenant's blocks received, in order. */
  function RepliesTo(labels: seq<Label>, replies: seq<Reply>, u: Option<Uuid>): seq<Reply>
    requires |labels| == |replies|
  {
    if labels == [] then []
    else
      var n := |labels| - 1;
      RepliesTo(labels[..n], replies[..n], u) + if ParseUuid(labels[n].tenantId) == u then [replies[n]] else []
  }

  lemma PrivateRunOneMore(c: Store, labels: seq<Label>, l: Label)
    requires PrivateRun(c, labels).StoreTrace? && PrivateNext(PrivateRun(c, labels).store, l).StoreStep?
    ensures PrivateRun(c, labels + [l]) ==
            StoreTrace(PrivateNext(PrivateRun(c, labels).store, l).store,
                       PrivateRun(c, labels).replies + [PrivateNext(PrivateRun(c, labels).store, l).reply])
  {
    assert (labels + [l])[..|labels + [l]| - 1] == labels;
  }

  /** Every interleaving, seen by one tenant, is that tenant's own steps run alone on its own database. */
  lemma {:induction false} RunRefines(s: State, labels: seq<Label>, u: Option<Uuid>)
    requires Inv(s) && Run(s, labels).Trace?
    ensures |Run(s, labels).replies| == |labels|
    ensures PrivateRun(StoreOf(s, u), StepsOf(labels, u))
            == StoreTrace(StoreOf(Run(s, labels).state, u), RepliesTo(labels, Run(s, labels).replies, u))
  {
    RunLength(s, labels);
    if labels != [] {
      var n := |labels| - 1;
      var before, l := Run(s, labels[..n]), labels[n];
      RunRefines(s, labels[..n], u);
      RunInv(s, labels[..n]);
      StepRefines(before.state, l);
      assert Run(s, labels).replies[..n] == before.replies;
      if ParseUuid(l.tenantId) == u {
        PrivateRunOneMore(StoreOf(s, u), StepsOf(labels[..n], u), l);
      } else {
        assert StepsOf(labels, u) == StepsOf(labels[..n], u);
        assert RepliesTo(labels, Run(s, labels).replies, u) == RepliesTo(labels[..n], before.replies, u);
      }
    }
  }
}
