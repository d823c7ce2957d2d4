/** The pool, the server and `tenant_txn` itself, updated in place, against the step machine. */
module TenantTxn {
  import opened Wrappers
  import opened TenantTables
  import opened TenantMachine
  import opened TenantInvariant
  import opened TenantRefinement
  import opened TenantStatements

  /** Every row id the body inserts with is new. */
  predicate FreshIds(body: seq<Statement>, issued: set<RowId>) {
    body == [] ||
    (NewIds(Execute(body[0])) !! issued && FreshIds(body[1..], issued + NewIds(Execute(body[0]))))
  }

  function Prelude(b: BlockId, tenantId: string, conn: ConnId): seq<Label> {
    [Label(b, tenantId, Acquire(conn)), Label(b, tenantId, Begin), Label(b, tenantId, SetTenant)]
  }

  function Statements(b: BlockId, tenantId: string, body: seq<Statement>): seq<Label> {
    seq(|body|, i requires 0 <= i < |body| => Label(b, tenantId, Execute(body[i])))
  }

  function Ending(b: BlockId, tenantId: string, how: Action): seq<Label> {
    [Label(b, tenantId, how), Label(b, tenantId, Release)]
  }

  /** The steps of one block around the statements it got to. */
  function Script(b: BlockId, tenantId: string, conn: ConnId, body: seq<Statement>, how: Action): seq<Label> {
    Prelude(b, tenantId, conn) + Statements(b, tenantId, body) + Ending(b, tenantId, how)
  }

  lemma {:induction false} StepsOfOneTenant(labels: seq<Label>, tenantId: string, u: Option<Uuid>)
    requires forall l :: l in labels ==> l.tenantId == tenantId
    ensures StepsOf(labels, u) == if u == ParseUuid(tenantId) then labels else []
  {
    hide ParseUuid;
    if labels != [] {
      assert labels[|labels| - 1] in labels;
      StepsOfOneTenant(labels[..|labels| - 1], tenantId, u);
    }
  }

  lemma {:induction false} RepliesToOneTenant(labels: seq<Label>, replies: seq<Reply>, tenantId: string)
    requires |labels| == |replies|
    requires forall l :: l in labels ==> l.tenantId == tenantId
    ensures RepliesTo(labels, replies, ParseUuid(tenantId)) == replies
  {
    hide ParseUuid;
    if labels != [] {
      var n := |labels| - 1;
      assert labels[n] in labels;
      RepliesToOneTenant(labels[..n], replies[..n], tenantId);
    }
  }

  /** A finished run of one block, read off on its tenant's own database and on everyone else's. */
  lemma BlockRunRefines(s: State, labels: seq<Label>, tenantId: string)
    requires Inv(s) && Run(s, labels).Trace?
    requires forall l :: l in labels ==> l.tenantId == tenantId
    ensures PrivateRun(StoreOf(s, ParseUuid(tenantId)), labels)
            == StoreTrace(StoreOf(Run(s, labels).state, ParseUuid(tenantId)), Run(s, labels).replies)
    ensures forall u: Option<Uuid> :: u != ParseUuid(tenantId) ==> StoreOf(Run(s, labels).state, u) == StoreOf(s, u)
  {
    forall u: Option<Uuid>
      ensures if u == ParseUuid(tenantId)
              then PrivateRun(StoreOf(s, u), labels) == StoreTrace(StoreOf(Run(s, labels).state, u), Run(s, labels).replies)
              else StoreOf(Run(s, labels).state, u) == StoreOf(s, u)
    {
      RunRefines(s, labels, u);
      StepsOfOneTenant(labels, tenantId, u);
      RepliesToOneTenant(labels, Run(s, labels).replies, tenantId);
    }
  }

  lemma RunTwo(s: State, l1: Label, s1: State, r1: Reply, l2: Label, s2: State, r2: Reply)
    requires Next(s, l1) == Step(s1, r1) && Next(s1, l2) == Step(s2, r2)
    ensures Run(s, [l1, l2]) == Trace(s2, [r1, r2])
  {
    RunOneMore(s, [], l1);
    RunOneMore(s, [l1], l2);
    assert [] + [l1] == [l1] && [l1] + [l2] == [l1, l2];
  }

  /** Another open block belongs to the same tenant. */
  predicate OneTenant(blocks: map<BlockId, Block>, b: BlockId)
    requires b in blocks
  {
    exists b' :: b' in blocks && b' != b && ParseUuid(blocks[b'].tenantId) == ParseUuid(blocks[b].tenantId)
  }

  class Database {
    var idle: set<ConnId>
    var conns: map<ConnId, Conn>
    var blocks: map<BlockId, Block>
    var rows: Tables
    var issued: set<RowId>

    ghost function Snapshot(): State
      reads this
    {
      State(idle, conns, blocks, rows, issued)
    }

    ghost predicate Valid()
      reads this
    {
      Inv(Snapshot())
    }

    constructor (pool: set<ConnId>, initial: Tables)
      requires Unique(initial)
      ensures Valid() && Snapshot() == Initial(pool, initial)
    {
      idle, conns := pool, map c | c in pool :: Conn(None, None);
      blocks, rows, issued := map[], initial, initial.Keys;
      new;
      InitialInv(pool, initial);
    }

    /** pool.acquire() */
    method Acquire(b: BlockId, tenantId: string) returns (conn: ConnId)
      requires Valid() && b !in blocks && idle != {}
      modifies this
      ensures Valid()
      ensures Next(old(Snapshot()), Label(b, tenantId, Action.Acquire(conn))) == Step(Snapshot(), Done)
      ensures conn in old(idle) && idle == old(idle) - {conn} && rows == old(rows) && issued == old(issued)
      ensures blocks == old(blocks)[b := Block(tenantId, conn, Leased)]
    {
      conn :| conn in idle;
      ghost var before := Snapshot();
      idle := idle - {conn};
      blocks := blocks[b := Block(tenantId, conn, Leased)];
      InvKept(before, Label(b, tenantId, Action.Acquire(conn)));
    }

    /** Moves a block on: its phase, and its connection's transaction. */
    method Move(b: BlockId, phase: Phase, txn: Option<Txn>)
      requires b in blocks && blocks[b].conn in conns
      modifies this`blocks, this`conns
      ensures Snapshot() == Put(old(Snapshot()), b, phase, txn, rows, {})
    {
      var k := blocks[b];
      conns := conns[k.conn := Conn(SessionAfter(conns[k.conn], txn), txn)];
      blocks := blocks[b := k.(phase := phase)];
      assert issued + {} == issued;
    }

    /** conn.transaction(), on entry */
    method Begin(b: BlockId)
      requires Valid() && b in blocks && blocks[b].phase == Leased
      modifies this
      ensures Valid() && rows == old(rows) && idle == old(idle) && issued == old(issued)
      ensures blocks == old(blocks)[b := old(blocks)[b].(phase := Open)]
      ensures TxnOf(Snapshot(), b) == Some(Txn(None, map[], false))
      ensures Next(old(Snapshot()), Label(b, old(blocks)[b].tenantId, Action.Begin)) == Step(Snapshot(), Done)
    {
      ghost var before := Snapshot();
      Move(b, Open, Some(Txn(None, map[], false)));
      InvKept(before, Label(b, before.blocks[b].tenantId, Action.Begin));
    }

    /** SELECT set_config('app.tenant_id', $1, true) */
    method SetTenant(b: BlockId)
      requires Valid() && b in blocks && blocks[b].phase == Open
      requires TxnOf(Snapshot(), b) == Some(Txn(None, map[], false))
      modifies this
      ensures Valid() && rows == old(rows) && idle == old(idle) && issued == old(issued)
      ensures blocks == old(blocks)[b := old(blocks)[b].(phase := Scoped)]
      ensures TxnOf(Snapshot(), b) == Some(Txn(Some(old(blocks)[b].tenantId), map[], false))
      ensures Next(old(Snapshot()), Label(b, old(blocks)[b].tenantId, Action.SetTenant)) == Step(Snapshot(), Done)
    {
      hide WorkInv, ParseUuid, View, Visible;
      ghost var before := Snapshot();
      assert PhaseInv(blocks[b], conns[blocks[b].conn].txn);
      var txn := conns[blocks[b].conn].txn.value;
      Move(b, Scoped, Some(txn.(local := Some(blocks[b].tenantId))));
      InvKept(before, Label(b, before.blocks[b].tenantId, Action.SetTenant));
    }

    function PendingOf(b: BlockId): Writes
      reads this
      ensures PendingOf(b) == WritesOf(Snapshot(), b)
    {
      if b in blocks && blocks[b].conn in conns then Pending(conns[blocks[b].conn].txn) else map[]
    }

    /** The server's answer to a statement, under the policies and the locks of the other transactions. */
    method Answer(b: BlockId, s: Statement) returns (a: Advance)
      requires Valid() && b in blocks && blocks[b].phase == Scoped
      ensures a == Advanced(Snapshot(), b, Action.Execute(s))
    {
      assert PhaseInv(blocks[b], conns[blocks[b].conn].txn);
      hide AdvanceBlock, ParseUuid, WorkInv, View, Visible;
      var k := blocks[b];
      var txn, tenant := conns[k.conn].txn, PolicyTenant(conns[k.conn]);
      var visible := if tenant.Some? then Visible(View(rows, PendingOf(b)), tenant.value) else map[];
      var rivals := set b' | b' in blocks && b' != b :: PendingOf(b');
      assert rivals == Rivals(Snapshot(), b);
      a := AdvanceBlock(k.tenantId, k.phase, txn, rows, visible, rivals, tenant, Action.Execute(s));
    }

    /** One statement of the body. `done` is false, and nothing changes, when it would wait for a lock. */
    method Execute(b: BlockId, s: Statement) returns (done: bool, reply: Reply)
      requires Valid() && b in blocks && blocks[b].phase == Scoped && NewIds(Action.Execute(s)) !! issued
      modifies this
      ensures Valid() && rows == old(rows) && idle == old(idle) && blocks == old(blocks)
      ensures done ==> issued == old(issued) + NewIds(Action.Execute(s))
      ensures var l := Label(b, old(blocks)[b].tenantId, Action.Execute(s));
              Next(old(Snapshot()), l) == if done then Step(Snapshot(), reply) else Waits
      ensures !done ==> Snapshot() == old(Snapshot())
    {
      hide Next, Advanced, AdvanceBlock, PoolInv, WorkInv, ParseUuid, View, Visible, SessionAfter;
      ghost var before := Snapshot();
      ghost var l := Label(b, blocks[b].tenantId, Action.Execute(s));
      BlockFacts(before, b);
      StepIsAdvance(before, l);
      var a := Answer(b, s);
      if a.Stuck? {
        return false, Done;
      }
      var k := blocks[b];
      Move(b, Scoped, a.txn);
      issued := issued + NewIds(Action.Execute(s));
      assert k.(phase := Scoped) == k;
      InvKept(before, l);
      return true, a.reply;
    }

    /** COMMIT at the end of the body. After a failed statement the server answers it with a rollback. */
    method Commit(b: BlockId) returns (committed: bool)
      requires Valid() && b in blocks && blocks[b].phase == Scoped
      modifies this
      ensures Valid() && idle == old(idle) && issued == old(issued)
      ensures blocks == old(blocks)[b := old(blocks)[b].(phase := Closed)]
      ensures TxnOf(old(Snapshot()), b).Some? && committed == !TxnOf(old(Snapshot()), b).value.failed
      ensures rows == if committed then View(old(rows), WritesOf(old(Snapshot()), b)) else old(rows)
      ensures Next(old(Snapshot()), Label(b, old(blocks)[b].tenantId, Action.Commit)) == Step(Snapshot(), Ended(committed))
    {
      hide WorkInv, ParseUuid, View, Visible;
      ghost var before := Snapshot();
      assert PhaseInv(blocks[b], conns[blocks[b].conn].txn);
      var txn := conns[blocks[b].conn].txn.value;
      committed := !txn.failed;
      Move(b, Closed, None);
      if committed {
        rows := View(rows, txn.writes);
      }
      InvKept(before, Label(b, before.blocks[b].tenantId, Action.Commit));
    }

    /** ROLLBACK when an exception leaves the body, or set_config itself fails. */
    method Rollback(b: BlockId)
      requires Valid() && b in blocks && (blocks[b].phase == Open || blocks[b].phase == Scoped)
      modifies this
      ensures Valid() && idle == old(idle) && issued == old(issued) && rows == old(rows)
      ensures blocks == old(blocks)[b := old(blocks)[b].(phase := Closed)]
      ensures Next(old(Snapshot()), Label(b, old(blocks)[b].tenantId, Action.Rollback)) == Step(Snapshot(), Ended(false))
    {
      ghost var before := Snapshot();
      Move(b, Closed, None);
      InvKept(before, Label(b, before.blocks[b].tenantId, Action.Rollback));
    }

    /** Leaving pool.acquire() */
    method Release(b: BlockId)
      requires Valid() && b in blocks && (blocks[b].phase == Leased || blocks[b].phase == Closed)
      modifies this
      ensures Valid() && issued == old(issued) && rows == old(rows)
      ensures blocks == old(blocks) - {b} && idle == old(idle) + {old(blocks)[b].conn}
      ensures Next(old(Snapshot()), Label(b, old(blocks)[b].tenantId, Action.Release)) == Step(Snapshot(), Done)
    {
      hide WorkInv, ParseUuid, View, Visible;
      ghost var before := Snapshot();
      idle := idle + {blocks[b].conn};
      blocks := blocks - {b};
      InvKept(before, Label(b, before.blocks[b].tenantId, Action.Release));
    }

    /** The body's statements, until one of them raises. With `catches` the body swallows the errors of its
        statements. A statement that would wait for a lock is given up, as on a cancelled request. */
    method RunBody(b: BlockId, body: seq<Statement>, catches: bool)
      returns (n: nat, replies: seq<Reply>, raised: bool, waited: bool)
      requires Valid() && b in blocks && blocks[b].phase == Scoped && FreshIds(body, issued)
      requires Reflects(Snapshot(), b, ParseUuid(blocks[b].tenantId), Some(RowsOf(rows, ParseUuid(blocks[b].tenantId))))
      modifies this
      ensures Valid() && rows == old(rows) && idle == old(idle) && blocks == old(blocks)
      ensures n <= |body| && (!raised ==> n == |body|) && (waited ==> raised)
      ensures Run(old(Snapshot()), Statements(b, blocks[b].tenantId, body[..n])) == Trace(Snapshot(), replies)
      ensures var u := ParseUuid(blocks[b].tenantId);
              Reflects(Snapshot(), b, u, BodyOn(RowsOf(rows, u), u, body[..n]))
              && (raised && !waited ==> BodyOn(RowsOf(rows, u), u, body[..n]).None?)
      ensures |replies| == n && (catches ==> raised == waited)
      ensures !catches ==> forall i :: 0 <= i < n && replies[i].Failed? ==> raised && i == n - 1
      ensures waited ==> OneTenant(blocks, b)
    {
      hide Next, Inv, Reflects, ParseUuid, RowsOf, Then;
      ghost var start, tenantId := Snapshot(), blocks[b].tenantId;
      ghost var u := ParseUuid(tenantId);
      ghost var own := RowsOf(rows, u);
      n, replies, raised, waited := 0, [], false, false;
      while n < |body| && !raised
        invariant n <= |body| && !waited
        invariant Valid() && rows == start.rows && idle == start.idle && blocks == start.blocks
        invariant FreshIds(body[n..], issued)
        invariant Run(start, Statements(b, tenantId, body[..n])) == Trace(Snapshot(), replies)
        invariant Reflects(Snapshot(), b, u, BodyOn(own, u, body[..n]))
        invariant raised ==> BodyOn(own, u, body[..n]).None?
        invariant |replies| == n && (catches ==> !raised)
        invariant !catches ==> forall i :: 0 <= i < n && replies[i].Failed? ==> raised && i == n - 1
        decreases |body| - n, !raised
      {
        assert body[n..][0] == body[n] && body[n..][1..] == body[n + 1..];
        ghost var before, l := Snapshot(), Label(b, tenantId, Action.Execute(body[n]));
        var done, reply := Execute(b, body[n]);
        if !done {
          WaitsForItsOwnTenantOnly(before, l);
          return n, replies, true, true;
        }
        RunOneMore(start, Statements(b, tenantId, body[..n]), l);
        assert Statements(b, tenantId, body[..n + 1]) == Statements(b, tenantId, body[..n]) + [l];
        BodyStep(before, l, BodyOn(own, u, body[..n]));
        assert body[..n + 1][..n] == body[..n] && body[..n + 1][n] == body[n];
        n, replies, raised := n + 1, replies + [reply], reply.Failed? && !catches;
      }
    }

    /** Entering: acquire, BEGIN, set_config. */
    method Enter(b: BlockId, tenantId: string) returns (conn: ConnId)
      requires Valid() && b !in blocks && idle != {}
      modifies this
      ensures Valid() && rows == old(rows) && issued == old(issued)
      ensures conn in old(idle) && idle == old(idle) - {conn} && blocks == old(blocks)[b := Block(tenantId, conn, Scoped)]
      ensures Run(old(Snapshot()), Prelude(b, tenantId, conn)) == Trace(Snapshot(), [Done, Done, Done])
      ensures Reflects(Snapshot(), b, ParseUuid(tenantId), Some(RowsOf(rows, ParseUuid(tenantId))))
    {
      hide Next, PoolInv, WorkInv, ParseUuid, View, Visible;
      ghost var start := Snapshot();
      conn := Acquire(b, tenantId);
      ghost var p := Prelude(b, tenantId, conn);
      RunOneMore(start, [], p[0]);
      Begin(b);
      RunOneMore(start, [p[0]], p[1]);
      SetTenant(b);
      RunOneMore(start, [p[0], p[1]], p[2]);
      EmptyOverlay(rows);
      assert [] + [p[0]] == [p[0]] && [p[0]] + [p[1]] == [p[0], p[1]] && [p[0], p[1]] + [p[2]] == p;
    }

    /** Leaving: COMMIT or ROLLBACK, then release. */
    method Leave(b: BlockId, raised: bool) returns (committed: bool)
      requires Valid() && b in blocks && blocks[b].phase == Scoped
      modifies this
      ensures Valid() && issued == old(issued)
      ensures idle == old(idle) + {old(blocks)[b].conn} && blocks == old(blocks) - {b}
      ensures TxnOf(old(Snapshot()), b).Some? && committed == (!raised && !TxnOf(old(Snapshot()), b).value.failed)
      ensures !committed ==> rows == old(rows)
      ensures committed && ParseUuid(old(blocks)[b].tenantId).Some? ==>
                RowsOf(rows, ParseUuid(old(blocks)[b].tenantId))
                == OwnView(old(Snapshot()), b, ParseUuid(old(blocks)[b].tenantId).value)
      ensures Run(old(Snapshot()), Ending(b, old(blocks)[b].tenantId, if raised then Action.Rollback else Action.Commit))
              == Trace(Snapshot(), [Ended(committed), Done])
    {
      hide Next, Run, PoolInv, WorkInv, View, WritesOf;
      ghost var start := Snapshot();
      BlockFacts(start, b);
      ghost var e := Ending(b, blocks[b].tenantId, if raised then Action.Rollback else Action.Commit);
      if raised {
        Rollback(b);
        committed := false;
      } else {
        committed := Commit(b);
      }
      ghost var ended := Snapshot();
      Release(b);
      RunTwo(start, e[0], ended, Ended(committed), e[1], Snapshot(), Done);
    }

    /** The whole block, from a state in which any other blocks may be in progress. It commits exactly when the
        body, run alone on the tenant's own tables, is never refused and never waits; it then leaves what the body
        leaves there, and otherwise nothing. It waits only for another open block of its tenant. Nobody else's data
        changes; the pool and the open blocks are as before. */
    method TenantTxn(b: BlockId, tenantId: string, body: seq<Statement>, catches: bool)
      returns (ghost steps: seq<Label>, replies: seq<Reply>, committed: bool, waited: bool)
      requires Valid() && b !in blocks && idle != {} && FreshIds(body, issued)
      modifies this
      ensures Valid()
      ensures idle == old(idle) && blocks == old(blocks)
      ensures committed <==> !waited && BodyOn(old(RowsOf(rows, ParseUuid(tenantId))), ParseUuid(tenantId), body).Some?
      ensures committed && ParseUuid(tenantId).Some? ==>
                Some(RowsOf(rows, ParseUuid(tenantId))) == BodyOn(old(RowsOf(rows, ParseUuid(tenantId))), ParseUuid(tenantId), body)
      ensures !committed ==> rows == old(rows)
      ensures waited ==> exists b' :: b' in blocks && ParseUuid(blocks[b'].tenantId) == ParseUuid(tenantId)
      ensures exists conn: ConnId, n: nat :: conn in old(idle) && n <= |body|
                && (steps == Script(b, tenantId, conn, body[..n], Action.Rollback)
                    || (n == |body| && steps == Script(b, tenantId, conn, body[..n], Action.Commit)))
      ensures Run(old(Snapshot()), steps) == Trace(Snapshot(), replies)
      ensures PrivateRun(StoreOf(old(Snapshot()), ParseUuid(tenantId)), steps)
              == StoreTrace(StoreOf(Snapshot(), ParseUuid(tenantId)), replies)
      ensures forall u: Option<Uuid> :: u != ParseUuid(tenantId) ==> StoreOf(Snapshot(), u) == StoreOf(old(Snapshot()), u)
    {
      hide Next, PoolInv, WorkInv, Run, PrivateRun, StoreOf, ParseUuid, RowsOf, BodyOn;
      ghost var start := Snapshot();
      ghost var own := RowsOf(rows, ParseUuid(tenantId));
      var conn := Enter(b, tenantId);
      ghost var entered := blocks;
      var n, bodyReplies, raised, gaveUp := RunBody(b, body, catches);
      waited := gaveUp;
      ghost var first, second := Prelude(b, tenantId, conn), Statements(b, tenantId, body[..n]);
      ghost var third := Ending(b, tenantId, if raised then Action.Rollback else Action.Commit);
      RunAppend(start, first, second);
      committed := Leave(b, raised);
      RunAppend(start, first + second, third);
      steps, replies := first + second + third, [Done, Done, Done] + bodyReplies + [Ended(committed), Done];
      assert steps == Script(b, tenantId, conn, body[..n], if raised then Action.Rollback else Action.Commit);
      BlockRunRefines(start, steps, tenantId);
      if BodyOn(own, ParseUuid(tenantId), body[..n]).None? {
        RefusalIsFinal(own, ParseUuid(tenantId), body, n);
      }
      assert n == |body| ==> body[..n] == body;
    }
  }
}
