/** One `tenant_txn` block in the middle of everybody else's: its outcome depends on its tenant's rows alone. */
module TenantInterleaved {
  import opened Wrappers
  import opened TenantTables
  import opened TenantMachine
  import opened TenantInvariant
  import opened TenantRefinement
  import opened TenantStatements
  import opened TenantTxn

  /** Where the block stands after the first `k` steps of its script, when its tenant's rows were `own` before. */
  predicate Stands(s: State, b: BlockId, tenantId: string, own: Tables, body: seq<Statement>, k: nat)
    requires k <= |body| + 5
  {
    var u := ParseUuid(tenantId);
    && RowsOf(s.rows, u) == (if k >= |body| + 4 then Published(own, u, body) else own)
    && (1 <= k <= |body| + 3 ==> b in s.blocks && s.blocks[b].tenantId == tenantId)
    && (k == 1 ==> s.blocks[b].phase == Leased)
    && (k == 2 ==> s.blocks[b].phase == Open && TxnOf(s, b) == Some(Txn(None, map[], false)))
    && (3 <= k <= |body| + 3 ==> s.blocks[b].phase == Scoped && Reflects(s, b, u, BodyOn(own, u, body[..k - 3])))
  }

  /** What the tenant has after the block: what its body leaves, or what it had. */
  function Published(own: Tables, u: Option<Uuid>, body: seq<Statement>): Tables {
    if BodyOn(own, u, body).Some? then BodyOn(own, u, body).value else own
  }

  function Whole(b: BlockId, tenantId: string, conn: ConnId, body: seq<Statement>): (r: seq<Label>)
    ensures |r| == |body| + 5
  {
    Script(b, tenantId, conn, body, Commit)
  }

  lemma WholeAt(b: BlockId, tenantId: string, conn: ConnId, body: seq<Statement>, k: nat)
    requires k < |body| + 5
    ensures Whole(b, tenantId, conn, body)[k] ==
            Label(b, tenantId,
                  if k == 0 then Acquire(conn) else if k == 1 then Begin else if k == 2 then SetTenant
                  else if k < |body| + 3 then Execute(body[k - 3]) else if k == |body| + 3 then Commit else Release)
  {
  }

  // ---- Steps of the other tenants ------------------------------------------------

  lemma SameStoreSamePlace(s: State, s': State, b: BlockId, tenantId: string, own: Tables, body: seq<Statement>, k: nat)
    requires Inv(s) && Inv(s') && StoreOf(s', ParseUuid(tenantId)) == StoreOf(s, ParseUuid(tenantId))
    requires k <= |body| + 5 && Stands(s, b, tenantId, own, body, k)
    ensures Stands(s', b, tenantId, own, body, k)
  {
    hide Inv, ParseUuid, BodyOn, Published, Visible, OwnView;
    var u := ParseUuid(tenantId);
    assert RowsOf(s'.rows, u) == StoreOf(s', u).rows == StoreOf(s, u).rows == RowsOf(s.rows, u);
    if 1 <= k <= |body| + 3 {
      assert b in BlocksOf(s, u) && BlocksOf(s, u)[b] == PrivateOf(s, b);
      assert b in BlocksOf(s', u) && BlocksOf(s', u)[b] == PrivateOf(s', b);
      if u.Some? {
        SameStoreSameView(s, s', b, u.value);
      }
    }
  }

  lemma SameStoreSameView(s: State, s': State, b: BlockId, t: Uuid)
    requires Inv(s) && Inv(s') && b in s.blocks && b in s'.blocks && Visible(s'.rows, t) == Visible(s.rows, t)
    requires ParseUuid(s.blocks[b].tenantId) == ParseUuid(s'.blocks[b].tenantId) == Some(t)
    requires TxnOf(s', b) == TxnOf(s, b)
    ensures OwnView(s', b, t) == OwnView(s, b, t)
  {
    OwnViewFacts(s, b, t);
    OwnViewFacts(s', b, t);
  }

  // ---- The block's own steps -----------------------------------------------------

  lemma EnteringStands(s: State, l: Label, b: BlockId, tenantId: string, conn: ConnId, own: Tables, body: seq<Statement>, k: nat)
    requires Inv(s) && Next(s, l).Step? && k < 3 && l == Whole(b, tenantId, conn, body)[k]
    requires Stands(s, b, tenantId, own, body, k)
    ensures Stands(Next(s, l).state, b, tenantId, own, body, k + 1)
  {
    hide ParseUuid, Visible, View, WorkInv;
    WholeAt(b, tenantId, conn, body, k);
    EmptyOverlay(s.rows);
    if k > 0 {
      StepIsAdvance(s, l);
    }
    if k == 2 {
      assert body[..0] == [];
    }
  }

  lemma BodyStands(s: State, l: Label, b: BlockId, tenantId: string, conn: ConnId, own: Tables, body: seq<Statement>, k: nat)
    requires Inv(s) && Next(s, l).Step? && 3 <= k < |body| + 3 && l == Whole(b, tenantId, conn, body)[k]
    requires Stands(s, b, tenantId, own, body, k)
    ensures Stands(Next(s, l).state, b, tenantId, own, body, k + 1)
  {
    hide ParseUuid, Visible, View, WorkInv, Advanced, Then, OwnView;
    WholeAt(b, tenantId, conn, body, k);
    StepIsAdvance(s, l);
    BodyStep(s, l, BodyOn(own, ParseUuid(tenantId), body[..k - 3]));
    assert body[..k - 2][..k - 3] == body[..k - 3] && body[..k - 2][k - 3] == body[k - 3];
  }

  lemma CommitStands(s: State, l: Label, b: BlockId, tenantId: string, conn: ConnId, own: Tables, body: seq<Statement>)
    requires Inv(s) && Next(s, l).Step? && l == Whole(b, tenantId, conn, body)[|body| + 3]
    requires Stands(s, b, tenantId, own, body, |body| + 3)
    ensures Stands(Next(s, l).state, b, tenantId, own, body, |body| + 4)
    ensures Next(s, l).reply == Ended(BodyOn(own, ParseUuid(tenantId), body).Some?)
  {
    hide ParseUuid, Visible, View, PoolInv, WorkInv, BodyOn;
    var u := ParseUuid(tenantId);
    WholeAt(b, tenantId, conn, body, |body| + 3);
    assert body[..|body|] == body;
    StepIsAdvance(s, l);
    if Next(s, l).reply == Ended(true) && u.Some? {
      CommitPublishes(s, l, u.value);
    }
    if u.None? {
      NoTenantNoRows(own, body);
    }
  }

  lemma NoTenantNoRows(own: Tables, body: seq<Statement>)
    ensures BodyOn(own, None, body).Some? ==> BodyOn(own, None, body).value == own
  {
  }

  lemma OwnStepStands(s: State, l: Label, b: BlockId, tenantId: string, conn: ConnId, own: Tables, body: seq<Statement>, k: nat)
    requires Inv(s) && Next(s, l).Step? && k < |body| + 5 && l == Whole(b, tenantId, conn, body)[k]
    requires Stands(s, b, tenantId, own, body, k)
    ensures Stands(Next(s, l).state, b, tenantId, own, body, k + 1)
    ensures k == |body| + 3 ==> Next(s, l).reply == Ended(BodyOn(own, ParseUuid(tenantId), body).Some?)
  {
    hide Inv, Reflects, RowsOf, Next, BodyOn;
    if k < 3 {
      EnteringStands(s, l, b, tenantId, conn, own, body, k);
    } else if k < |body| + 3 {
      BodyStands(s, l, b, tenantId, conn, own, body, k);
    } else if k == |body| + 3 {
      CommitStands(s, l, b, tenantId, conn, own, body);
    } else {
      WholeAt(b, tenantId, conn, body, k);
      ReleaseKeepsRows(s, l);
    }
  }

  lemma ReleaseKeepsRows(s: State, l: Label)
    requires Next(s, l).Step? && l.action.Release?
    ensures Next(s, l).state.rows == s.rows
  {
  }

  // ---- Any interleaving ----------------------------------------------------------

  lemma {:induction false} OneReplyPerStep(labels: seq<Label>, replies: seq<Reply>, u: Option<Uuid>)
    requires |labels| == |replies|
    ensures |RepliesTo(labels, replies, u)| == |StepsOf(labels, u)|
  {
    hide ParseUuid;
    if labels != [] {
      OneReplyPerStep(labels[..|labels| - 1], replies[..|labels| - 1], u);
    }
  }

  lemma NothingRun(s: State, u: Option<Uuid>)
    ensures Run(s, []) == Trace(s, []) && StepsOf([], u) == [] && RepliesTo([], [], u) == []
  {
  }

  /** The last step of a run, and what it adds to the steps and replies of a tenant. */
  lemma LastOfRun(s: State, labels: seq<Label>, u: Option<Uuid>)
    requires Run(s, labels).Trace? && labels != []
    ensures var n := |labels| - 1;
            var before, l := Run(s, labels[..n]), labels[n];
            && before.Trace? && |before.replies| == n && |Run(s, labels).replies| == n + 1
            && Next(before.state, l).Step? && Run(s, labels).state == Next(before.state, l).state
            && StepsOf(labels, u) == (StepsOf(labels[..n], u) + if ParseUuid(l.tenantId) == u then [l] else [])
            && RepliesTo(labels, Run(s, labels).replies, u)
               == (RepliesTo(labels[..n], before.replies, u) + if ParseUuid(l.tenantId) == u then [Next(before.state, l).reply] else [])
  {
    hide ParseUuid, Next;
    var n := |labels| - 1;
    RunLength(s, labels[..n]);
    assert Run(s, labels).replies[..n] == Run(s, labels[..n]).replies;
  }

  /** However far the block has got, the steps of all other tenants in between make no difference. */
  lemma {:induction false} BlockStands(s: State, labels: seq<Label>, b: BlockId, tenantId: string, conn: ConnId,
                                       body: seq<Statement>, k: nat)
    requires Inv(s) && Run(s, labels).Trace? && k <= |body| + 5
    requires StepsOf(labels, ParseUuid(tenantId)) == Whole(b, tenantId, conn, body)[..k]
    ensures |Run(s, labels).replies| == |labels|
    ensures var u := ParseUuid(tenantId);
            var replies := RepliesTo(labels, Run(s, labels).replies, u);
            && Stands(Run(s, labels).state, b, tenantId, RowsOf(s.rows, u), body, k)
            && |replies| == k
            && (k >= |body| + 4 ==> replies[|body| + 3] == Ended(BodyOn(RowsOf(s.rows, u), u, body).Some?))
    decreases |labels|
  {
    hide Inv, ParseUuid, Next, Stands, BodyOn, RowsOf, Whole, Run, StepsOf, RepliesTo;
    RunLength(s, labels);
    var u, all := ParseUuid(tenantId), Whole(b, tenantId, conn, body);
    var replies := Run(s, labels).replies;
    OneReplyPerStep(labels, replies, u);
    if labels == [] {
      NothingYet(s, b, tenantId, body);
      NothingRun(s, u);
    } else {
      var n := |labels| - 1;
      var before, l := Run(s, labels[..n]), labels[n];
      LastOfRun(s, labels, u);
      RunInv(s, labels[..n]);
      InvKept(before.state, l);
      if ParseUuid(l.tenantId) == u {
        assert all[..k][..k - 1] == all[..k - 1] && l == all[..k][k - 1];
        BlockStands(s, labels[..n], b, tenantId, conn, body, k - 1);
        OwnStepStands(before.state, l, b, tenantId, conn, RowsOf(s.rows, u), body, k - 1);
      } else {
        BlockStands(s, labels[..n], b, tenantId, conn, body, k);
        StepRefines(before.state, l);
        SameStoreSamePlace(before.state, Next(before.state, l).state, b, tenantId, RowsOf(s.rows, u), body, k);
      }
    }
  }

  lemma NothingYet(s: State, b: BlockId, tenantId: string, body: seq<Statement>)
    ensures Stands(s, b, tenantId, RowsOf(s.rows, ParseUuid(tenantId)), body, 0)
  {
  }

  /** While its tenant does nothing else, a block commits exactly when its body, run alone on the tenant's rows, is
      not refused, and the tenant then has what the body leaves, otherwise what it had: whatever the other tenants
      do between any two of its steps, and whether or not the connection has gone back yet. */
  lemma CommitsExactlyWhen(s: State, labels: seq<Label>, b: BlockId, tenantId: string, conn: ConnId, body: seq<Statement>)
    requires Inv(s) && Run(s, labels).Trace?
    requires var steps, all := StepsOf(labels, ParseUuid(tenantId)), Script(b, tenantId, conn, body, Commit);
             steps == all || steps == all[..|all| - 1]
    ensures |Run(s, labels).replies| == |labels|
    ensures var u := ParseUuid(tenantId);
            var replies, outcome := RepliesTo(labels, Run(s, labels).replies, u), BodyOn(RowsOf(s.rows, u), u, body);
            && |body| + 3 < |replies| && replies[|body| + 3] == Ended(outcome.Some?)
            && RowsOf(Run(s, labels).state.rows, u) == if outcome.Some? then outcome.value else RowsOf(s.rows, u)
  {
    hide Inv, Run, ParseUuid, RowsOf, BodyOn, RepliesTo, StepsOf;
    var all := Whole(b, tenantId, conn, body);
    var k := |StepsOf(labels, ParseUuid(tenantId))|;
    assert all[..|all|] == all;
    BlockStands(s, labels, b, tenantId, conn, body, k);
  }
}
