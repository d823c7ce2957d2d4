/** The isolation theorems, over every run of any number of interleaved blocks. */
module TenantIsolation {
  import opened Wrappers
  import opened TenantTables
  import opened TenantMachine
  import opened TenantInvariant
  import opened TenantRefinement
  import Uuids

  // ---- Pool hygiene --------------------------------------------------------------

  /** An idle connection carries no tenant, a connection inside a body carries exactly its block's,
      and no two blocks share a connection. */
  lemma PoolHygiene(pool: set<ConnId>, rows: Tables, labels: seq<Label>)
    requires Unique(rows) && Run(Initial(pool, rows), labels).Trace?
    ensures var s := Run(Initial(pool, rows), labels).state;
            && (forall c :: c in s.idle ==> c in s.conns && s.conns[c].txn == None && PolicyTenant(s.conns[c]) == None)
            && (forall b :: b in s.blocks ==> s.blocks[b].conn in s.conns && s.blocks[b].conn !in s.idle)
            && (forall b :: b in s.blocks && s.blocks[b].phase == Scoped ==>
                  Setting(s.conns[s.blocks[b].conn]) == Some(s.blocks[b].tenantId))
            && (forall b :: b in s.blocks && s.blocks[b].phase != Scoped ==>
                  PolicyTenant(s.conns[s.blocks[b].conn]) == None)
            && (forall b, b' :: b in s.blocks && b' in s.blocks && b != b' ==> s.blocks[b].conn != s.blocks[b'].conn)
  {
    hide Run, WorkInv;
    var s := Run(Initial(pool, rows), labels).state;
    InitialInv(pool, rows);
    RunInv(Initial(pool, rows), labels);
    EmptySettingIsNoTenant();
    forall b | b in s.blocks
      ensures PhaseInv(s.blocks[b], s.conns[s.blocks[b].conn].txn)
    {
    }
  }

  /** `app.tenant_id` outside transactions after one that set it with `set_config(.., t, false)`: a commit keeps the
      value for the session, a rollback brings back the one before. */
  function AfterSessionWide(before: Option<string>, t: string, committed: bool): Option<string> {
    if committed then Some(t) else before
  }

  /** The third argument of `set_config` is what hygiene rests on: a setting made for the session would still name
      the tenant on a connection back in the pool, exactly when the transaction committed. */
  lemma SessionSettingWouldLeak(c: Conn, t: string, committed: bool)
    requires c.txn.Some? && ParseUuid(t).Some? && PolicyTenant(Conn(c.session, None)) == None
    ensures PolicyTenant(Conn(SessionAfter(c.(txn := Some(c.txn.value.(local := Some(t)))), None), None)) == None
    ensures PolicyTenant(Conn(AfterSessionWide(c.session, t, committed), None)) == if committed then ParseUuid(t) else None
  {
    EmptySettingIsNoTenant();
  }

  // ---- Fail closed ---------------------------------------------------------------

  /** The connection a statement is sent on. */
  function ConnOf(s: State, l: Label): Conn
    requires l.action.Execute? || l.action.Outside?
    requires l.action.Execute? ==> l.block in s.blocks && s.blocks[l.block].conn in s.conns
    requires l.action.Outside? ==> l.action.conn in s.conns
  {
    if l.action.Outside? then s.conns[l.action.conn] else s.conns[s.blocks[l.block].conn]
  }

  lemma StatementConn(s: State, l: Label)
    requires PoolInv(s) && Next(s, l).Step? && (l.action.Execute? || l.action.Outside?)
    ensures l.action.Execute? ==> l.block in s.blocks && s.blocks[l.block].conn in s.conns
                                  && s.blocks[l.block].tenantId == l.tenantId
    ensures l.action.Outside? ==> l.action.conn in s.idle && l.action.conn in s.conns && NewIds(l.action) !! s.issued
  {
  }

  lemma VerdictHasTenant(rows: Tables, mine: Writes, visible: Tables, rivals: set<Writes>, t: Uuid, s: Statement)
    requires Perform(rows, mine, visible, rivals, t, s).Verdict?
    ensures Perform(rows, mine, visible, rivals, t, s).reply != Failed(NoTenant)
  {
  }

  /** A live statement of a block: what decides whether it has a tenant, and what happens if not. */
  lemma NoTenantStep(s: State, l: Label)
    requires PoolInv(s) && Next(s, l).Step? && l.action.Execute? && !(TxnOf(s, l.block).Some? && TxnOf(s, l.block).value.failed)
    ensures l.block in s.blocks && s.blocks[l.block].conn in s.conns
    ensures Next(s, l).reply == Failed(NoTenant) <==> PolicyTenant(ConnOf(s, l)) == None
    ensures Next(s, l).reply == Failed(NoTenant) ==>
              && Next(s, l).state.rows == s.rows && Pending(TxnOf(Next(s, l).state, l.block)) == map[]
              && forall b :: b in s.blocks && b != l.block ==> TxnOf(Next(s, l).state, b) == TxnOf(s, b)
  {
    hide Perform, ParseUuid, View, Visible;
    var k, a := s.blocks[l.block], Advanced(s, l.block, l.action);
    var c := s.conns[k.conn];
    StepIsAdvance(s, l);
    PutWork(s, l.block, a.phase, a.txn, a.rows, NewIds(l.action));
    if PolicyTenant(c).Some? {
      VerdictHasTenant(s.rows, Pending(c.txn), Filtered(s, l.block, c), Rivals(s, l.block), PolicyTenant(c).value, l.action.statement);
    }
  }

  /** In every reachable state a statement fails for want of a tenant exactly when the setting of its connection is
      missing or no uuid, and that is: on a connection of the pool that no block holds, before a block's `set_config`
      or after its transaction, or in a body entered with no uuid. It then reads nothing and writes nothing. */
  lemma FailsClosedExactlyWhen(pool: set<ConnId>, rows: Tables, labels: seq<Label>, l: Label)
    requires Unique(rows) && Run(Initial(pool, rows), labels).Trace?
    requires Next(Run(Initial(pool, rows), labels).state, l).Step? && (l.action.Execute? || l.action.Outside?)
    requires var txn := TxnOf(Run(Initial(pool, rows), labels).state, l.block);
             l.action.Execute? && txn.Some? ==> !txn.value.failed
    ensures var s := Run(Initial(pool, rows), labels).state;
            && (l.action.Execute? ==> l.block in s.blocks && s.blocks[l.block].conn in s.conns)
            && (l.action.Outside? ==> l.action.conn in s.conns)
            && (Next(s, l).reply == Failed(NoTenant) <==>
                  Setting(ConnOf(s, l)).None? || ParseUuid(Setting(ConnOf(s, l)).value).None?)
            && (Next(s, l).reply == Failed(NoTenant) <==>
                  l.action.Outside? || s.blocks[l.block].phase != Scoped
                  || !exists g :: Uuids.WellGrouped(g) && l.tenantId == Uuids.Written(g))
    ensures var s, step := Run(Initial(pool, rows), labels).state, Next(Run(Initial(pool, rows), labels).state, l);
            step.reply == Failed(NoTenant) ==>
              && step.state.rows == s.rows
              && (l.action.Execute? ==> WritesOf(step.state, l.block) == map[])
              && forall b :: b in s.blocks && (b != l.block || l.action.Outside?) ==> TxnOf(step.state, b) == TxnOf(s, b)
  {
    var s := Run(Initial(pool, rows), labels).state;
    InitialInv(pool, rows);
    RunInv(Initial(pool, rows), labels);
    StatementConn(s, l);
    Uuids.TenantTextsExactly(l.tenantId);
    hide Uuids.WellGrouped, Uuids.Written;
    hide Next, Run, ParseUuid, PoolInv, WorkInv;
    if l.action.Outside? {
      OutsideFails(s, l);
      IdleHasNoTenant(s, l.action.conn);
    } else {
      NoTenantStep(s, l);
      TenantOnlyInBody(s, l.block);
      if s.blocks[l.block].phase == Scoped { ScopedTenant(s, l.block); }
    }
  }

  /** And it never waits: outside a body a statement is refused at once. */
  lemma OutsideBodyIsRefused(pool: set<ConnId>, rows: Tables, labels: seq<Label>, l: Label)
    requires Unique(rows) && Run(Initial(pool, rows), labels).Trace?
    requires var s := Run(Initial(pool, rows), labels).state;
             NewIds(l.action) !! s.issued &&
             (if l.action.Outside? then l.action.conn in s.idle
              else l.action.Execute? && l.block in s.blocks && s.blocks[l.block].tenantId == l.tenantId && s.blocks[l.block].phase != Scoped)
    ensures var step := Next(Run(Initial(pool, rows), labels).state, l);
            step.Step? && (step.reply == Failed(NoTenant) || step.reply == Failed(Aborted))
            && step.state.rows == Run(Initial(pool, rows), labels).state.rows
  {
    var s := Run(Initial(pool, rows), labels).state;
    InitialInv(pool, rows);
    RunInv(Initial(pool, rows), labels);
    hide Run, ParseUuid, WorkInv;
    if l.action.Outside? {
      OutsideFails(s, l);
    } else {
      StepIsAdvance(s, l);
      TenantOnlyInBody(s, l.block);
    }
  }

  // ---- Noninterference -----------------------------------------------------------

  /** The run without the steps of the tenants in `gone`. */
  ghost function Purge(labels: seq<Label>, gone: iset<Option<Uuid>>): seq<Label> {
    if labels == [] then []
    else
      var l := labels[|labels| - 1];
      Purge(labels[..|labels| - 1], gone) + if ParseUuid(l.tenantId) in gone then [] else [l]
  }

  ghost predicate BlocksMatch(full: State, purged: State, gone: iset<Option<Uuid>>) {
    && purged.conns.Keys == full.conns.Keys && purged.issued <= full.issued
    && (forall b :: b in purged.blocks ==>
          b in full.blocks && full.blocks[b] == purged.blocks[b] && ParseUuid(purged.blocks[b].tenantId) !in gone)
  }

  ghost predicate StoresMatch(full: State, purged: State, gone: iset<Option<Uuid>>) {
    forall u: Option<Uuid> :: u !in gone ==> StoreOf(purged, u) == StoreOf(full, u)
  }

  /** `purged` is `full` as if the tenants in `gone` had never come. */
  ghost predicate Matches(full: State, purged: State, gone: iset<Option<Uuid>>) {
    Inv(full) && Inv(purged) && StoresMatch(full, purged, gone) && BlocksMatch(full, purged, gone)
  }

  lemma SuppliesMatch(full: State, purged: State, gone: iset<Option<Uuid>>, l: Label)
    requires Matches(full, purged, gone) && Supplied(full, l)
    requires l.action.Acquire? || l.action.Outside? ==> l.action.conn in full.conns
    ensures Supplied(purged, l)
  {
  }

  lemma StepFacts(s: State, l: Label)
    requires PoolInv(s) && Next(s, l).Step?
    ensures var s' := Next(s, l).state;
            && s'.conns.Keys == s.conns.Keys && s'.issued == s.issued + NewIds(l.action)
            && (l.action.Outside? ==> s'.blocks == s.blocks)
            && (forall b :: b != l.block ==> (b in s'.blocks <==> b in s.blocks) && (b in s.blocks ==> s'.blocks[b] == s.blocks[b]))
            && (l.action.Outside? || (l.block in s.blocks <==> !l.action.Acquire?))
            && (!l.action.Outside? && l.block in s.blocks ==> s.blocks[l.block].tenantId == l.tenantId)
            && (l.action.Outside? || (l.block in s'.blocks <==> !l.action.Release?))
            && (!l.action.Outside? && l.block in s'.blocks ==>
                  (s'.blocks[l.block].tenantId == l.tenantId &&
                   s'.blocks[l.block].conn == if l.action.Acquire? then l.action.conn else s.blocks[l.block].conn))
  {
  }

  lemma GoneStepMatches(full: State, purged: State, gone: iset<Option<Uuid>>, l: Label)
    requires Matches(full, purged, gone) && Next(full, l).Step? && ParseUuid(l.tenantId) in gone
    ensures Matches(Next(full, l).state, purged, gone)
  {
    InvKept(full, l);
    StepRefines(full, l);
    StepFacts(full, l);
  }

  lemma SameProgress(s: State, s': State, b: BlockId)
    requires b in s.blocks && b in s'.blocks && s.blocks[b].tenantId == s'.blocks[b].tenantId
    requires StoreOf(s, ParseUuid(s.blocks[b].tenantId)) == StoreOf(s', ParseUuid(s.blocks[b].tenantId))
    ensures s.blocks[b].phase == s'.blocks[b].phase
  {
    var o := ParseUuid(s.blocks[b].tenantId);
    assert b in BlocksOf(s, o) && b in BlocksOf(s', o);
    assert BlocksOf(s, o)[b] == PrivateOf(s, b) && BlocksOf(s', o)[b] == PrivateOf(s', b);
  }

  lemma KeptStepStores(full: State, purged: State, gone: iset<Option<Uuid>>, l: Label)
    requires Inv(full) && Inv(purged) && StoresMatch(full, purged, gone) && ParseUuid(l.tenantId) !in gone
    requires Next(full, l).Step? && Supplied(purged, l)
    ensures Next(purged, l).Step? && StoresMatch(Next(full, l).state, Next(purged, l).state, gone)
  {
    assert StoreOf(purged, ParseUuid(l.tenantId)) == StoreOf(full, ParseUuid(l.tenantId));
    StepRefines(full, l);
    StepEnabled(purged, l);
    StepRefines(purged, l);
  }

  lemma KeptStepBlocks(full: State, purged: State, gone: iset<Option<Uuid>>, l: Label)
    requires PoolInv(full) && PoolInv(purged) && BlocksMatch(full, purged, gone) && ParseUuid(l.tenantId) !in gone
    requires Next(full, l).Step? && Next(purged, l).Step?
    requires StoreOf(Next(purged, l).state, ParseUuid(l.tenantId)) == StoreOf(Next(full, l).state, ParseUuid(l.tenantId))
    ensures BlocksMatch(Next(full, l).state, Next(purged, l).state, gone)
  {
    hide PoolInv, Next, ParseUuid, StoreOf;
    StepFacts(full, l);
    StepFacts(purged, l);
    if !l.action.Release? && !l.action.Outside? {
      SameProgress(Next(purged, l).state, Next(full, l).state, l.block);
    }
  }

  lemma KeptStepMatches(full: State, purged: State, gone: iset<Option<Uuid>>, l: Label)
    requires Matches(full, purged, gone) && Next(full, l).Step? && ParseUuid(l.tenantId) !in gone
    ensures Next(purged, l).Step? && Matches(Next(full, l).state, Next(purged, l).state, gone)
  {
    StepRefines(full, l);
    SuppliesMatch(full, purged, gone, l);
    KeptStepStores(full, purged, gone, l);
    KeptStepBlocks(full, purged, gone, l);
    InvKept(full, l);
    InvKept(purged, l);
  }

  lemma InitialMatches(pool: set<ConnId>, rows: Tables, gone: iset<Option<Uuid>>)
    requires Unique(rows)
    ensures Matches(Initial(pool, rows), Initial(pool, rows), gone)
  {
    InitialInv(pool, rows);
  }

  lemma {:induction false} PurgedRunMatches(pool: set<ConnId>, rows: Tables, labels: seq<Label>, gone: iset<Option<Uuid>>)
    requires Unique(rows) && Run(Initial(pool, rows), labels).Trace?
    ensures Run(Initial(pool, rows), Purge(labels, gone)).Trace?
    ensures Matches(Run(Initial(pool, rows), labels).state, Run(Initial(pool, rows), Purge(labels, gone)).state, gone)
  {
    if labels == [] {
      InitialMatches(pool, rows, gone);
    } else {
      var n := |labels| - 1;
      var start, l := Initial(pool, rows), labels[n];
      PurgedRunMatches(pool, rows, labels[..n], gone);
      var full, purged := Run(start, labels[..n]).state, Run(start, Purge(labels[..n], gone)).state;
      if ParseUuid(l.tenantId) in gone {
        GoneStepMatches(full, purged, gone, l);
        assert Purge(labels, gone) == Purge(labels[..n], gone);
      } else {
        KeptStepMatches(full, purged, gone, l);
        RunOneMore(start, Purge(labels[..n], gone), l);
      }
    }
  }

  lemma {:induction false} PurgeKeepsSteps(labels: seq<Label>, gone: iset<Option<Uuid>>, u: Option<Uuid>)
    requires u !in gone
    ensures StepsOf(Purge(labels, gone), u) == StepsOf(labels, u)
  {
    if labels != [] {
      var n := |labels| - 1;
      PurgeKeepsSteps(labels[..n], gone, u);
      var before, l := Purge(labels[..n], gone), labels[n];
      assert (before + [l])[..|before + [l]| - 1] == before;
      assert before + [] == before;
    }
  }

  /** Deleting every step of any set of tenants from any run leaves a run in which all the other
      tenants get the same replies (row sets, counts, errors, duplicates) and end with the same data. */
  lemma Noninterference(pool: set<ConnId>, rows: Tables, labels: seq<Label>, gone: iset<Option<Uuid>>, u: Option<Uuid>)
    requires Unique(rows) && Run(Initial(pool, rows), labels).Trace? && u !in gone
    ensures var full, purged := Run(Initial(pool, rows), labels), Run(Initial(pool, rows), Purge(labels, gone));
            && purged.Trace?
            && |full.replies| == |labels| && |purged.replies| == |Purge(labels, gone)|
            && RepliesTo(Purge(labels, gone), purged.replies, u) == RepliesTo(labels, full.replies, u)
            && StoreOf(purged.state, u) == StoreOf(full.state, u)
  {
    InitialInv(pool, rows);
    PurgedRunMatches(pool, rows, labels, gone);
    PurgeKeepsSteps(labels, gone, u);
    RunRefines(Initial(pool, rows), labels, u);
    RunRefines(Initial(pool, rows), Purge(labels, gone), u);
  }

  /** Two runs in which one tenant takes the same steps look the same to that tenant, whatever the
      others do, over which connections, and whatever rows of theirs the tables held before. */
  lemma OthersAreInvisible(pool: set<ConnId>, rows: Tables, labels: seq<Label>,
                           pool': set<ConnId>, rows': Tables, labels': seq<Label>, t: Uuid)
    requires Unique(rows) && Unique(rows') && Visible(rows, t) == Visible(rows', t)
    requires Run(Initial(pool, rows), labels).Trace? && Run(Initial(pool', rows'), labels').Trace?
    requires StepsOf(labels, Some(t)) == StepsOf(labels', Some(t))
    ensures var r, r' := Run(Initial(pool, rows), labels), Run(Initial(pool', rows'), labels');
            && |r.replies| == |labels| && |r'.replies| == |labels'|
            && RepliesTo(labels, r.replies, Some(t)) == RepliesTo(labels', r'.replies, Some(t))
            && Visible(r.state.rows, t) == Visible(r'.state.rows, t)
  {
    var s, s' := Initial(pool, rows), Initial(pool', rows');
    InitialInv(pool, rows);
    InitialInv(pool', rows');
    assert StoreOf(s, Some(t)) == StoreOf(s', Some(t));
    RunRefines(s, labels, Some(t));
    RunRefines(s', labels', Some(t));
    assert StoreOf(Run(s, labels).state, Some(t)).rows == StoreOf(Run(s', labels').state, Some(t)).rows;
  }

  // ---- Where rows come from ------------------------------------------------------

  /** Some block of tenant `t` inserted row `i`. */
  ghost predicate InsertedBy(labels: seq<Label>, i: RowId, t: Uuid) {
    exists k :: 0 <= k < |labels| && labels[k].action.Execute? && labels[k].action.statement.Insert?
                && labels[k].action.statement.id == i && ParseUuid(labels[k].tenantId) == Some(t)
  }

  /** Row `i` was `t`'s from the start, or was inserted by `t`. */
  ghost predicate Originates(rows: Tables, labels: seq<Label>, i: RowId, t: Uuid) {
    if i in rows then rows[i].tenant == t else InsertedBy(labels, i, t)
  }

  ghost predicate AllOriginate(rows: Tables, labels: seq<Label>, found: Tables) {
    forall i :: i in found ==> Originates(rows, labels, i, found[i].tenant)
  }

  lemma OriginatesLater(rows: Tables, labels: seq<Label>, l: Label, i: RowId, t: Uuid)
    requires Originates(rows, labels, i, t)
    ensures Originates(rows, labels + [l], i, t)
  {
    if i !in rows {
      var k :| 0 <= k < |labels| && labels[k].action.Execute? && labels[k].action.statement.Insert?
               && labels[k].action.statement.id == i && ParseUuid(labels[k].tenantId) == Some(t);
      assert (labels + [l])[k] == labels[k];
    }
  }

  lemma AllOriginateLater(rows: Tables, labels: seq<Label>, l: Label, found: Tables)
    requires AllOriginate(rows, labels, found)
    ensures AllOriginate(rows, labels + [l], found)
  {
    forall i | i in found
      ensures Originates(rows, labels + [l], i, found[i].tenant)
    {
      OriginatesLater(rows, labels, l, i, found[i].tenant);
    }
  }

  /** One statement: every row it leaves behind was already the tenant's, or is its own insert. */
  lemma StatementOriginates(rows0: Tables, labels: seq<Label>, l: Label, rows: Tables, w: Writes, t: Uuid)
    requires l.action.Execute? && ParseUuid(l.tenantId) == Some(t) && OwnedBy(rows, w, t)
    requires AllOriginate(rows0, labels, View(rows, w))
    requires var s := l.action.statement; Permitted(Changes(Visible(View(rows, w), t), s), t)
    requires l.action.statement.Insert? ==> l.action.statement.id !in rows0
    ensures var changes := Changes(Visible(View(rows, w), t), l.action.statement);
            AllOriginate(rows0, labels + [l], View(rows, w + changes))
  {
    var s, later := l.action.statement, labels + [l];
    var view := View(rows, w);
    var changes := Changes(Visible(view, t), s);
    var after := View(rows, w + changes);
    AllOriginateLater(rows0, labels, l, view);
    assert later[|labels|] == l;
    forall i | i in after
      ensures Originates(rows0, later, i, after[i].tenant)
    {
      if i !in changes {
        assert i in view && after[i] == view[i];
      } else if !s.Insert? {
        assert i in view && view[i].tenant == t && after[i] == changes[i].value;
      } else {
        assert after[i] == changes[i].value && InsertedBy(later, i, t);
      }
    }
  }

  ghost predicate OriginInv(rows: Tables, labels: seq<Label>, s: State) {
    && rows.Keys <= s.issued
    && AllOriginate(rows, labels, s.rows)
    && (forall b :: b in s.blocks ==> AllOriginate(rows, labels, View(s.rows, WritesOf(s, b))))
  }

  lemma OriginInvKept(rows: Tables, labels: seq<Label>, s: State, l: Label)
    requires Inv(s) && OriginInv(rows, labels, s) && Next(s, l).Step?
    ensures OriginInv(rows, labels + [l], Next(s, l).state)
  {
    var s', later := Next(s, l).state, labels + [l];
    StepFacts(s, l);
    AllOriginateLater(rows, labels, l, s.rows);
    forall b | b in s.blocks
      ensures AllOriginate(rows, later, View(s.rows, WritesOf(s, b)))
    {
      AllOriginateLater(rows, labels, l, View(s.rows, WritesOf(s, b)));
    }
    OwnViewOriginates(rows, labels, s, l);
    forall b | b in s'.blocks && b != l.block
      ensures AllOriginate(rows, later, View(s'.rows, WritesOf(s', b)))
    {
      OthersKeepTheirWork(s, l, b);
      var view, w := View(s'.rows, WritesOf(s, b)), WritesOf(s, b);
      forall i | i in view
        ensures Originates(rows, later, i, view[i].tenant)
      {
        if i in w {
          assert i in View(s.rows, w) && View(s.rows, w)[i] == view[i];
        } else {
          assert i in s'.rows && s'.rows[i] == view[i];
        }
      }
    }
  }

  lemma OthersKeepTheirWork(s: State, l: Label, b: BlockId)
    requires PoolInv(s) && Next(s, l).Step? && b in s.blocks && b != l.block
    ensures WritesOf(Next(s, l).state, b) == WritesOf(s, b)
  {
    hide ParseUuid;
    if l.action.Outside? {
      OutsideFails(s, l);
    } else if !l.action.Acquire? && !l.action.Release? {
      var a := Advanced(s, l.block, l.action);
      PutWork(s, l.block, a.phase, a.txn, a.rows, NewIds(l.action));
    }
  }

  lemma PoolStepRows(s: State, l: Label)
    requires Next(s, l).Step? && (l.action.Acquire? || l.action.Release?)
    requires PoolInv(s)
    ensures Next(s, l).state.rows == s.rows && WritesOf(Next(s, l).state, l.block) == map[]
  {
    hide ParseUuid;
  }

  lemma OwnViewOriginates(rows: Tables, labels: seq<Label>, s: State, l: Label)
    requires Inv(s) && OriginInv(rows, labels, s) && Next(s, l).Step?
    ensures var s' := Next(s, l).state;
            && AllOriginate(rows, labels + [l], s'.rows)
            && (l.block in s'.blocks ==> AllOriginate(rows, labels + [l], View(s'.rows, WritesOf(s', l.block))))
  {
    AllOriginateLater(rows, labels, l, s.rows);
    EmptyOverlay(s.rows);
    hide View, Next, AllOriginate, ParseUuid;
    if l.action.Acquire? || l.action.Release? {
      PoolStepRows(s, l);
    } else if l.action.Outside? {
      OutsideFails(s, l);
      if l.block in s.blocks {
        AllOriginateLater(rows, labels, l, View(s.rows, WritesOf(s, l.block)));
      }
    } else {
      AdvanceOriginates(rows, labels, s, l);
    }
  }

  lemma AdvanceOriginates(rows: Tables, labels: seq<Label>, s: State, l: Label)
    requires Inv(s) && OriginInv(rows, labels, s) && Next(s, l).Step?
    requires !l.action.Acquire? && !l.action.Release? && !l.action.Outside?
    ensures var s' := Next(s, l).state;
            && AllOriginate(rows, labels + [l], s'.rows)
            && AllOriginate(rows, labels + [l], View(s'.rows, WritesOf(s', l.block)))
  {
    BlockOfStep(s, l);
    StepIsAdvance(s, l);
    hide View, Visible, AllOriginate, ParseUuid, AdvanceBlock, Next, WorkInv, PoolInv;
    var b := l.block;
    var w, a, k := WritesOf(s, b), Advanced(s, b, l.action), s.blocks[b];
    var c := s.conns[k.conn];
    PutWork(s, b, a.phase, a.txn, a.rows, NewIds(l.action));
    AllOriginateLater(rows, labels, l, s.rows);
    AllOriginateLater(rows, labels, l, View(s.rows, w));
    TenantOnlyInBody(s, b);
    AdvanceCases(k.tenantId, k.phase, c.txn, s.rows, Filtered(s, b, c), Rivals(s, b), PolicyTenant(c), l.action);
    EmptyOverlay(a.rows);
    if a.reply.Changed? {
      ScopedTenant(s, b);
      BlockFacts(s, b);
      assert l.action.statement.Insert? ==> l.action.statement.id in NewIds(l.action);
      StatementOriginates(rows, labels, l, s.rows, w, ParseUuid(k.tenantId).value);
    }
  }

  lemma BlockOfStep(s: State, l: Label)
    requires PoolInv(s) && Next(s, l).Step? && !l.action.Acquire? && !l.action.Outside?
    ensures l.block in s.blocks && s.blocks[l.block].tenantId == l.tenantId && s.blocks[l.block].conn in s.conns
    ensures NewIds(l.action) !! s.issued
  {
  }

  lemma StartOriginates(pool: set<ConnId>, rows: Tables)
    ensures OriginInv(rows, [], Initial(pool, rows))
  {
  }

  lemma {:induction false} RunOriginates(pool: set<ConnId>, rows: Tables, labels: seq<Label>)
    requires Unique(rows) && Run(Initial(pool, rows), labels).Trace?
    ensures OriginInv(rows, labels, Run(Initial(pool, rows), labels).state)
  {
    hide Next, ParseUuid, Inv, OriginInv;
    InitialInv(pool, rows);
    StartOriginates(pool, rows);
    if labels != [] {
      var n := |labels| - 1;
      RunOriginates(pool, rows, labels[..n]);
      RunInv(Initial(pool, rows), labels[..n]);
      OriginInvKept(rows, labels[..n], Run(Initial(pool, rows), labels[..n]).state, labels[n]);
      assert labels[..n] + [labels[n]] == labels;
    }
  }

  /** In every reachable state both unique keys hold, and every committed row belongs to the tenant
      whose block inserted it, or to the tenant it had at the start. No UPDATE moves a row. */
  lemma RowOwnership(pool: set<ConnId>, rows: Tables, labels: seq<Label>)
    requires Unique(rows) && Run(Initial(pool, rows), labels).Trace?
    ensures var s := Run(Initial(pool, rows), labels).state;
            && Unique(s.rows)
            && (forall i :: i in s.rows && i in rows ==> s.rows[i].tenant == rows[i].tenant)
            && (forall i :: i in s.rows && i !in rows ==> InsertedBy(labels, i, s.rows[i].tenant))
  {
    var s := Run(Initial(pool, rows), labels).state;
    InitialInv(pool, rows);
    RunInv(Initial(pool, rows), labels);
    RunOriginates(pool, rows, labels);
    forall i | i in s.rows
      ensures Originates(rows, labels, i, s.rows[i].tenant)
    {
    }
  }
}
