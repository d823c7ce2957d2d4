/** Any number of `tenant_txn` blocks, interleaved step by step over one connection
    pool and one database. */
module TenantMachine {
  import opened Wrappers
  import opened TenantTables

  type ConnId = nat
  type BlockId = nat

  /** What the server remembers inside BEGIN .. COMMIT: the value of `set_config(.., true)`,
      the uncommitted work, and whether an error has aborted the transaction. */
  datatype Txn = Txn(local: Option<string>, writes: Writes, failed: bool)

  /** A server session. `session` is `app.tenant_id` outside a transaction. */
  datatype Conn = Conn(session: Option<string>, txn: Option<Txn>)

  /** Leased: acquired. Open: BEGIN done. Scoped: set_config done, body running.
      Closed: transaction ended, connection not yet given back. */
  datatype Phase = Leased | Open | Scoped | Closed

  datatype Block = Block(tenantId: string, conn: ConnId, phase: Phase)

  datatype State = State(
    idle: set<ConnId>, conns: map<ConnId, Conn>, blocks: map<BlockId, Block>,
    rows: Tables, issued: set<RowId>)

  datatype Action =
    | Acquire(conn: ConnId)
    | Begin
    | SetTenant
    | Execute(statement: Statement)
    | Commit
    | Rollback
    | Release
    | Outside(conn: ConnId, statement: Statement)

  /** Outside is a statement sent through the pool without `tenant_txn`: an idle connection is borrowed, runs it
      in a transaction of its own and goes back. Every other step is taken by a block, which names the `tenant_id` argument it was entered with. */
  datatype Label = Label(block: BlockId, tenantId: string, action: Action)

  datatype DbError = NoTenant | Denied | Duplicate | Aborted

  datatype Reply =
    | Done
    | Rows(visible: Tables)
    | Changed(ids: set<RowId>)
    | Ended(committed: bool)
    | Failed(error: DbError)

  datatype Step = Waits | Step(state: State, reply: Reply)

  // ---- One statement -------------------------------------------------------------

  datatype Verdict = Wait | Verdict(writes: Writes, failed: bool, reply: Reply)

  /** One statement of a transaction with pending work `mine`, reading `visible` and writing as `t`.
      An error drops the pending work: Postgres aborts the whole transaction. */
  function Perform(rows: Tables, mine: Writes, visible: Tables, rivals: set<Writes>, t: Uuid, s: Statement): Verdict {
    var changes := Changes(visible, s);
    if s.Select? then
      Verdict(mine, false, Rows(visible))
    else if !Permitted(changes, t) then
      Verdict(map[], true, Failed(Denied))
    else if exists r :: r in rivals && Conflicts(rows, changes, r) then
      Wait
    else if Clashes(View(rows, mine + changes), changes) then
      Verdict(map[], true, Failed(Duplicate))
    else
      Verdict(mine + changes, false, Changed(changes.Keys))
  }

  // ---- One step of one block -----------------------------------------------------

  datatype Advance = Stuck | Advance(phase: Phase, txn: Option<Txn>, rows: Tables, reply: Reply)

  /** What a step does to the block's own transaction and to the committed rows. `policyTenant` is the
      tenant the policies evaluate to, None when evaluating them raises. */
  function AdvanceBlock(tenantId: string, phase: Phase, txn: Option<Txn>, rows: Tables, visible: Tables,
                        rivals: set<Writes>, policyTenant: Option<Uuid>, action: Action): Advance
  {
    match action
    case Begin =>
      if phase == Leased then Advance(Open, Some(Txn(None, map[], false)), rows, Done) else Stuck
    case SetTenant =>
      if phase != Open || txn.None? then
        Stuck
      else if txn.value.failed then
        Advance(phase, txn, rows, Failed(Aborted))
      else
        Advance(Scoped, Some(txn.value.(local := Some(tenantId))), rows, Done)
    case Execute(s) =>
      if txn.Some? && txn.value.failed then
        Advance(phase, txn, rows, Failed(Aborted))
      else if policyTenant.None? then
        Advance(phase, After(txn, map[], true), rows, Failed(NoTenant))
      else
        var v := Perform(rows, Pending(txn), visible, rivals, policyTenant.value, s);
        if v.Wait? then Stuck
        else Advance(phase, After(txn, v.writes, v.failed), if txn.None? then View(rows, v.writes) else rows, v.reply)
    case Commit =>
      if phase != Scoped || txn.None? then
        Stuck
      else if txn.value.failed then
        Advance(Closed, None, rows, Ended(false))
      else
        Advance(Closed, None, View(rows, txn.value.writes), Ended(true))
    case Rollback =>
      if phase == Open || phase == Scoped then Advance(Closed, None, rows, Ended(false)) else Stuck
    case Acquire(_) => Stuck
    case Release => Stuck
    case Outside(_, _) => Stuck
  }

  /** The transaction after a statement. Without one, the statement was a transaction of its own. */
  function After(txn: Option<Txn>, writes: Writes, failed: bool): Option<Txn> {
    if txn.None? then None else Some(txn.value.(writes := writes, failed := failed))
  }

  function Pending(txn: Option<Txn>): Writes {
    if txn.Some? then txn.value.writes else map[]
  }

  /** `current_setting('app.tenant_id')`: the transaction-local value hides the session one. */
  function Setting(c: Conn): Option<string> {
    if c.txn.Some? && c.txn.value.local.Some? then c.txn.value.local else c.session
  }

  function PolicyTenant(c: Conn): Option<Uuid> {
    if Setting(c).None? then None else ParseUuid(Setting(c).value)
  }

  /** A transaction-local value ends with its transaction. The parameter then stays
      known to the session, with an empty value. */
  function SessionAfter(c: Conn, txn: Option<Txn>): Option<string> {
    if c.txn.Some? && c.txn.value.local.Some? && txn.None? then Some("") else c.session
  }

  function TxnOf(s: State, b: BlockId): Option<Txn> {
    if b in s.blocks && s.blocks[b].conn in s.conns then s.conns[s.blocks[b].conn].txn else None
  }

  function WritesOf(s: State, b: BlockId): Writes {
    Pending(TxnOf(s, b))
  }

  function Rivals(s: State, b: BlockId): set<Writes> {
    set b' | b' in s.blocks && b' != b :: WritesOf(s, b')
  }

  /** What the policies let the block's connection see. */
  function Filtered(s: State, b: BlockId, c: Conn): Tables {
    if PolicyTenant(c).Some? then Visible(View(s.rows, WritesOf(s, b)), PolicyTenant(c).value) else map[]
  }

  /** Row ids come from the column default, so no two inserts share one. */
  function NewIds(action: Action): set<RowId> {
    if (action.Execute? || action.Outside?) && action.statement.Insert? then {action.statement.id} else {}
  }

  /** The block's phase and transaction, the committed rows and the used ids after one of its steps. */
  function Put(s: State, b: BlockId, phase: Phase, txn: Option<Txn>, rows: Tables, ids: set<RowId>): State
    requires b in s.blocks && s.blocks[b].conn in s.conns
  {
    var k := s.blocks[b];
    State(s.idle, s.conns[k.conn := Conn(SessionAfter(s.conns[k.conn], txn), txn)],
          s.blocks[b := k.(phase := phase)], rows, s.issued + ids)
  }

  function Advanced(s: State, b: BlockId, action: Action): Advance
    requires b in s.blocks && s.blocks[b].conn in s.conns
  {
    var k := s.blocks[b];
    var c := s.conns[k.conn];
    AdvanceBlock(k.tenantId, k.phase, c.txn, s.rows, Filtered(s, b, c), Rivals(s, b), PolicyTenant(c), action)
  }

  /** One statement on a connection that no block holds. */
  function Unattended(s: State, conn: ConnId, statement: Statement): Advance
    requires conn in s.conns
  {
    var c := s.conns[conn];
    var visible := if PolicyTenant(c).Some? then Visible(View(s.rows, Pending(c.txn)), PolicyTenant(c).value) else map[];
    AdvanceBlock("", Leased, c.txn, s.rows, visible, set b | b in s.blocks :: WritesOf(s, b), PolicyTenant(c),
                 Execute(statement))
  }

  function Next(s: State, l: Label): Step {
    if l.action.Acquire? then
      if l.block !in s.blocks && l.action.conn in s.idle then
        Step(s.(idle := s.idle - {l.action.conn},
                blocks := s.blocks[l.block := Block(l.tenantId, l.action.conn, Leased)]), Done)
      else Waits
    else if l.action.Outside? then
      if l.action.conn !in s.idle || l.action.conn !in s.conns || !(NewIds(l.action) !! s.issued) then Waits
      else
        var a := Unattended(s, l.action.conn, l.action.statement);
        if a.Stuck? then Waits else Step(s.(rows := a.rows, issued := s.issued + NewIds(l.action)), a.reply)
    else if l.block !in s.blocks || s.blocks[l.block].tenantId != l.tenantId
            || s.blocks[l.block].conn !in s.conns || !(NewIds(l.action) !! s.issued) then
      Waits
    else
      if l.action.Release? then
        var k := s.blocks[l.block];
        if k.phase == Leased || k.phase == Closed then
          Step(s.(idle := s.idle + {k.conn}, blocks := s.blocks - {l.block}), Done)
        else Waits
      else
        var a := Advanced(s, l.block, l.action);
        if a.Stuck? then Waits
        else Step(Put(s, l.block, a.phase, a.txn, a.rows, NewIds(l.action)), a.reply)
  }

  // ---- Whole runs ----------------------------------------------------------------

  datatype Trace = Impossible | Trace(state: State, replies: seq<Reply>)

  /** Taking the labels in order; Impossible when some step would have to wait. */
  function Run(s: State, labels: seq<Label>): Trace {
    if labels == [] then Trace(s, [])
    else
      var before := Run(s, labels[..|labels| - 1]);
      if before.Impossible? then Impossible
      else
        var last := Next(before.state, labels[|labels| - 1]);
        if last.Waits? then Impossible else Trace(last.state, before.replies + [last.reply])
  }

  /** A fresh pool over tables that may already hold rows. */
  function Initial(pool: set<ConnId>, rows: Tables): State {
    State(pool, map c | c in pool :: Conn(None, None), map[], rows, rows.Keys)
  }

  lemma {:induction false} RunLength(s: State, labels: seq<Label>)
    requires Run(s, labels).Trace?
    ensures |Run(s, labels).replies| == |labels|
  {
    if labels != [] {
      RunLength(s, labels[..|labels| - 1]);
    }
  }

  lemma RunOneMore(s: State, labels: seq<Label>, l: Label)
    ensures Run(s, labels + [l]) ==
            if Run(s, labels).Impossible? || Next(Run(s, labels).state, l).Waits? then Impossible
            else Trace(Next(Run(s, labels).state, l).state, Run(s, labels).replies + [Next(Run(s, labels).state, l).reply])
  {
    hide Next;
    assert (labels + [l])[..|labels + [l]| - 1] == labels;
  }

  /** A run continues from wherever an earlier one ended. */
  lemma {:induction false} RunAppend(s: State, first: seq<Label>, second: seq<Label>)
    requires Run(s, first).Trace? && Run(Run(s, first).state, second).Trace?
    ensures Run(s, first + second) ==
            Trace(Run(Run(s, first).state, second).state, Run(s, first).replies + Run(Run(s, first).state, second).replies)
  {
    hide Next;
    if second == [] {
      assert first + second == first;
    } else {
      var n := |second| - 1;
      RunAppend(s, first, second[..n]);
      RunOneMore(s, first + second[..n], second[n]);
      assert first + second == first + second[..n] + [second[n]];
    }
  }
}
