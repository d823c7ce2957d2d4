/** What a statement under the policies means: an in-place change of the tenant's own tables. */
module TenantStatements {
  import opened Wrappers
  import opened TenantTables
  import opened TenantMachine
  import opened TenantInvariant
  import opened TenantRefinement

  /** A statement on plain tables, with no policies, no transactions and no pending work. */
  function InPlace(own: Tables, s: Statement): Tables {
    match s
    case Select => own
    case Insert(id, row) => own[id := row]
    case Update(table, where, assign) =>
      map i | i in own :: if TableOf(own[i]) == table && where(own, i) then assign(own, own[i]) else own[i]
    case Delete(table, where) =>
      map i | i in own && !(TableOf(own[i]) == table && where(own, i)) :: own[i]
  }

  /** The rows it reports as changed: their number is the row count the client gets. */
  function Touched(own: Tables, s: Statement): set<RowId> {
    match s
    case Select => {}
    case Insert(id, _) => {id}
    case Update(table, where, _) => set i | i in own && TableOf(own[i]) == table && where(own, i)
    case Delete(table, where) => set i | i in own && TableOf(own[i]) == table && where(own, i)
  }

  predicate AllOf(rows: Tables, t: Uuid) {
    forall i :: i in rows ==> rows[i].tenant == t
  }

  datatype Judgement = Reads | Applies | Refuses(error: DbError)

  /** A write is refused when it would leave a row that is not the tenant's, or two rows with one key. */
  function Judge(own: Tables, t: Uuid, s: Statement): Judgement {
    if s.Select? then Reads
    else if !AllOf(InPlace(own, s), t) then Refuses(Denied)
    else if !Unique(InPlace(own, s)) then Refuses(Duplicate)
    else Applies
  }

  /** What the tenant sees from inside block `b`. */
  function OwnView(s: State, b: BlockId, t: Uuid): Tables {
    Visible(View(s.rows, WritesOf(s, b)), t)
  }

  lemma ChangesAreInPlace(own: Tables, s: Statement)
    ensures View(own, Changes(own, s)) == InPlace(own, s)
    ensures Changes(own, s).Keys == Touched(own, s)
  {
  }

  lemma PermittedExactlyWhen(own: Tables, t: Uuid, s: Statement)
    requires AllOf(own, t)
    ensures Permitted(Changes(own, s), t) <==> AllOf(InPlace(own, s), t)
  {
    var changes, after := Changes(own, s), InPlace(own, s);
    ChangesAreInPlace(own, s);
    assert forall i :: i in changes && changes[i].Some? ==> i in after && after[i] == changes[i].value;
    assert forall i :: i in after && i !in changes ==> i in own && after[i] == own[i];
    assert forall i :: i in after && i in changes ==> changes[i].Some?;
    hide Changes, InPlace;
  }

  lemma ClashesExactlyWhen(own: Tables, changes: Writes)
    requires Unique(own)
    ensures Clashes(View(own, changes), changes) <==> !Unique(View(own, changes))
  {
    var after := View(own, changes);
    if !Clashes(after, changes) {
      forall i, j | i in after && j in after && KeyOf(after[i]) == KeyOf(after[j])
        ensures i == j
      {
        if i !in changes && j !in changes {
          assert i in own && j in own && own[i] == after[i] && own[j] == after[j];
        }
      }
    }
  }

  lemma OwnViewFacts(s: State, b: BlockId, t: Uuid)
    requires WorkInv(s) && b in s.blocks && ParseUuid(s.blocks[b].tenantId) == Some(t)
    ensures AllOf(OwnView(s, b, t), t) && Unique(OwnView(s, b, t))
    ensures OwnView(s, b, t) == View(Visible(s.rows, t), WritesOf(s, b))
  {
    assert Sound(s.rows, s.blocks[b].tenantId, WritesOf(s, b));
    VisibleView(s.rows, WritesOf(s, b), t);
  }

  /** One statement, judged on what the tenant sees. */
  lemma PerformMeans(s: State, b: BlockId, t: Uuid, statement: Statement)
    requires Inv(s) && b in s.blocks && ParseUuid(s.blocks[b].tenantId) == Some(t)
    requires NewIds(Execute(statement)) !! s.issued
    ensures var own := OwnView(s, b, t);
            var v := Perform(s.rows, WritesOf(s, b), own, Rivals(s, b), t, statement);
            v.Verdict? ==>
              (match Judge(own, t, statement)
               case Reads => v.reply == Rows(own) && v.writes == WritesOf(s, b) && !v.failed
               case Refuses(e) => v.reply == Failed(e) && v.writes == map[] && v.failed
               case Applies => v.reply == Changed(Touched(own, statement)) && !v.failed && Visible(View(s.rows, v.writes), t) == InPlace(own, statement))
  {
    hide PoolInv, ParseUuid, Conflicts;
    var own, w := OwnView(s, b, t), WritesOf(s, b);
    var changes := Changes(own, statement);
    OwnViewFacts(s, b, t);
    PermittedExactlyWhen(own, t, statement);
    ChangesAreInPlace(own, statement);
    if !statement.Select? && Permitted(changes, t) {
      assert Sound(s.rows, s.blocks[b].tenantId, w);
      assert statement.Insert? ==> statement.id in NewIds(Execute(statement));
      ChangesOwned(s.rows, w, t, statement);
      ClashesStayHome(s.rows, w, changes, t);
      OverlayTwice(Visible(s.rows, t), w, changes);
      ClashesExactlyWhen(own, changes);
      VisibleView(s.rows, w + changes, t);
    }
  }

  lemma ExecuteAdvances(s: State, b: BlockId, t: Uuid, statement: Statement)
    requires PoolInv(s) && b in s.blocks && s.blocks[b].phase == Scoped && ParseUuid(s.blocks[b].tenantId) == Some(t)
    requires TxnOf(s, b).Some? && !TxnOf(s, b).value.failed
    ensures var v := Perform(s.rows, WritesOf(s, b), OwnView(s, b, t), Rivals(s, b), t, statement);
            Advanced(s, b, Execute(statement)) ==
              if v.Wait? then Stuck
              else Advance(Scoped, Some(TxnOf(s, b).value.(writes := v.writes, failed := v.failed)), s.rows, v.reply)
  {
    ScopedTenant(s, b);
    hide Perform, View, Visible, ParseUuid;
  }

  /** In every interleaving, a statement that does not wait reads the tenant's own rows, or changes them in place,
      or is refused for the one reason that applies, and then undoes the block's work so far. */
  lemma StatementMeans(s: State, l: Label, t: Uuid)
    requires Inv(s) && Next(s, l).Step? && l.action.Execute? && ParseUuid(l.tenantId) == Some(t)
    requires s.blocks[l.block].phase == Scoped && TxnOf(s, l.block).Some? && !TxnOf(s, l.block).value.failed
    ensures var own, s', reply := OwnView(s, l.block, t), Next(s, l).state, Next(s, l).reply;
            s'.rows == s.rows && TxnOf(s', l.block).Some? &&
            (TxnOf(s', l.block).value.failed <==> Judge(own, t, l.action.statement).Refuses?) &&
            match Judge(own, t, l.action.statement)
            case Reads => reply == Rows(own) && OwnView(s', l.block, t) == own
            case Refuses(e) => reply == Failed(e) && OwnView(s', l.block, t) == Visible(s.rows, t)
            case Applies => reply == Changed(Touched(own, l.action.statement)) && OwnView(s', l.block, t) == InPlace(own, l.action.statement)
  {
    hide Perform, Judge, InPlace, Touched, View, Visible, ParseUuid;
    var b, statement := l.block, l.action.statement;
    StepIsAdvance(s, l);
    var a := Advanced(s, b, l.action);
    ExecuteAdvances(s, b, t, statement);
    PutWork(s, b, a.phase, a.txn, a.rows, NewIds(l.action));
    PerformMeans(s, b, t, statement);
    NoWork(s.rows, l.tenantId, map[]);
  }

  /** A commit publishes exactly what the tenant saw from inside the block. */
  lemma CommitPublishes(s: State, l: Label, t: Uuid)
    requires Inv(s) && Next(s, l).Step? && l.action.Commit? && ParseUuid(l.tenantId) == Some(t)
    requires Next(s, l).reply == Ended(true)
    ensures Visible(Next(s, l).state.rows, t) == OwnView(s, l.block, t)
  {
    StepIsAdvance(s, l);
    var k := s.blocks[l.block];
    var c := s.conns[k.conn];
    TenantOnlyInBody(s, l.block);
    AdvanceCases(k.tenantId, k.phase, c.txn, s.rows, Filtered(s, l.block, c), Rivals(s, l.block), PolicyTenant(c), l.action);
    hide AdvanceBlock, View, Visible, WorkInv, PoolInv, ParseUuid;
  }

  /** A statement makes its block wait only for another block of the same tenant. */
  lemma WaitsForItsOwnTenantOnly(s: State, l: Label)
    requires Inv(s) && Next(s, l).Waits? && l.action.Execute? && NewIds(l.action) !! s.issued
    requires l.block in s.blocks && s.blocks[l.block].tenantId == l.tenantId && s.blocks[l.block].phase == Scoped
    ensures exists b :: b in s.blocks && b != l.block && ParseUuid(s.blocks[b].tenantId) == ParseUuid(l.tenantId)
  {
    hide Changes, Conflicts, Clashes, Permitted, View, Visible, WorkInv, ParseUuid;
    var c := s.conns[s.blocks[l.block].conn];
    var w, o := WritesOf(s, l.block), ParseUuid(l.tenantId);
    assert PhaseInv(s.blocks[l.block], c.txn);
    StepIsAdvance(s, l);
    ScopedTenant(s, l.block);
    PerformAgrees(s, l.block, o.value, l.action.statement);
    var r :| r in PrivateRivals(StoreOf(s, o), l.block);
  }

  // ---- A whole body --------------------------------------------------------------

  function Then(outcome: Option<Tables>, u: Option<Uuid>, s: Statement): Option<Tables> {
    if outcome.None? || u.None? || Judge(outcome.value, u.value, s).Refuses? then None
    else Some(InPlace(outcome.value, s))
  }

  /** A body run alone on the tenant's own tables: what it leaves there, or None if a statement is refused. */
  function BodyOn(own: Tables, u: Option<Uuid>, body: seq<Statement>): Option<Tables> {
    if body == [] then Some(own) else Then(BodyOn(own, u, body[..|body| - 1]), u, body[|body| - 1])
  }

  lemma {:induction false} RefusalIsFinal(own: Tables, u: Option<Uuid>, body: seq<Statement>, n: nat)
    requires n <= |body| && BodyOn(own, u, body[..n]).None?
    ensures BodyOn(own, u, body).None?
  {
    if n == |body| {
      assert body[..n] == body;
    } else {
      assert body[..|body| - 1][..n] == body[..n];
      RefusalIsFinal(own, u, body[..|body| - 1], n);
    }
  }

  /** The block's transaction stands where the body, run alone, would stand. */
  predicate Reflects(s: State, b: BlockId, u: Option<Uuid>, outcome: Option<Tables>) {
    && TxnOf(s, b).Some?
    && (TxnOf(s, b).value.failed <==> outcome.None?)
    && (outcome.Some? && u.Some? ==> OwnView(s, b, u.value) == outcome.value)
  }

  /** After a failed statement, or without a tenant, every statement of a body fails. */
  lemma HopelessStatement(s: State, l: Label)
    requires PoolInv(s) && Next(s, l).Step? && l.action.Execute? && TxnOf(s, l.block).Some?
    requires s.blocks[l.block].phase == Scoped
    requires TxnOf(s, l.block).value.failed || ParseUuid(l.tenantId).None?
    ensures Next(s, l).reply.Failed?
    ensures TxnOf(Next(s, l).state, l.block).Some? && TxnOf(Next(s, l).state, l.block).value.failed
  {
    StepIsAdvance(s, l);
    var a := Advanced(s, l.block, l.action);
    ScopedTenant(s, l.block);
    PutWork(s, l.block, a.phase, a.txn, a.rows, NewIds(l.action));
    hide Perform, View, Visible, PoolInv, ParseUuid;
  }

  lemma BodyStep(s: State, l: Label, outcome: Option<Tables>)
    requires Inv(s) && Next(s, l).Step? && l.action.Execute?
    requires s.blocks[l.block].phase == Scoped && Reflects(s, l.block, ParseUuid(l.tenantId), outcome)
    ensures Reflects(Next(s, l).state, l.block, ParseUuid(l.tenantId), Then(outcome, ParseUuid(l.tenantId), l.action.statement))
    ensures Next(s, l).reply.Failed? <==> Then(outcome, ParseUuid(l.tenantId), l.action.statement).None?
  {
    if outcome.Some? && ParseUuid(l.tenantId).Some? {
      StatementMeans(s, l, ParseUuid(l.tenantId).value);
    } else {
      HopelessStatement(s, l);
    }
    if outcome.Some? { assert l.action.statement.Select? ==> InPlace(outcome.value, l.action.statement) == outcome.value; }
    hide Next, TxnOf, InPlace, OwnView, ParseUuid, Inv;
  }
}
