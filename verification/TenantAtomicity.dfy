/** A block that ends in rollback, by an exception or by a failed statement, might as well never have run. */
module TenantAtomicity {
  import opened Wrappers
  import opened TenantTables
  import opened TenantMachine
  import opened TenantInvariant
  import opened TenantIsolation

  /** The run without the steps of one block. */
  function Without(labels: seq<Label>, b: BlockId): seq<Label> {
    if labels == [] then []
    else
      var l := labels[|labels| - 1];
      Without(labels[..|labels| - 1], b) + if l.block == b then [] else [l]
  }

  /** The replies to everyone but that block. */
  function RepliesWithout(labels: seq<Label>, replies: seq<Reply>, b: BlockId): seq<Reply>
    requires |labels| == |replies|
  {
    if labels == [] then []
    else
      var n := |labels| - 1;
      RepliesWithout(labels[..n], replies[..n], b) + if labels[n].block == b then [] else [replies[n]]
  }

  predicate NeverCommits(labels: seq<Label>, replies: seq<Reply>, b: BlockId)
    requires |labels| == |replies|
  {
    forall k :: 0 <= k < |labels| && labels[k].block == b ==> replies[k] != Ended(true)
  }

  /** `bare` is `full` without the open block `b`. */
  ghost predicate Bare(full: State, bare: State, b: BlockId) {
    && Inv(full) && Inv(bare)
    && bare.rows == full.rows && bare.conns.Keys == full.conns.Keys && bare.issued <= full.issued
    && SameOthers(full, bare, b)
  }

  ghost predicate SameOthers(full: State, bare: State, b: BlockId) {
    b !in bare.blocks &&
    forall b' :: b' != b ==>
      (b' in bare.blocks <==> b' in full.blocks)
      && (b' in bare.blocks ==> bare.blocks[b'] == full.blocks[b'] && TxnOf(bare, b') == TxnOf(full, b'))
  }

  /** A statement that did not have to wait does the same with fewer rivals. */
  lemma FewerRivals(tenantId: string, phase: Phase, txn: Option<Txn>, rows: Tables, visible: Tables, rivals: set<Writes>,
                    t: Option<Uuid>, action: Action, visible': Tables, rivals': set<Writes>, t': Option<Uuid>)
    requires rivals' <= rivals
    requires t' == t && (t.Some? ==> visible' == visible)
    requires AdvanceBlock(tenantId, phase, txn, rows, visible, rivals, t, action).Advance?
    ensures AdvanceBlock(tenantId, phase, txn, rows, visible', rivals', t', action)
            == AdvanceBlock(tenantId, phase, txn, rows, visible, rivals, t, action)
  {
  }

  lemma OtherBlockAdvances(full: State, bare: State, b: BlockId, l: Label)
    requires Bare(full, bare, b) && l.block != b && Next(full, l).Step?
    requires !l.action.Acquire? && !l.action.Release? && !l.action.Outside?
    ensures l.block in bare.blocks && Advanced(bare, l.block, l.action) == Advanced(full, l.block, l.action)
  {
    hide ParseUuid, WorkInv, AdvanceBlock, View, Visible;
    var k := full.blocks[l.block];
    var c, c' := full.conns[k.conn], bare.conns[k.conn];
    assert TxnOf(bare, l.block) == TxnOf(full, l.block);
    assert forall b' :: b' in bare.blocks && b' != l.block ==> WritesOf(bare, b') == WritesOf(full, b');
    if k.phase == Scoped {
      ScopedTenant(full, l.block);
      ScopedTenant(bare, l.block);
    } else {
      TenantOnlyInBody(full, l.block);
      TenantOnlyInBody(bare, l.block);
    }
    FewerRivals(k.tenantId, k.phase, c.txn, full.rows, Filtered(full, l.block, c), Rivals(full, l.block), PolicyTenant(c),
                l.action, Filtered(bare, l.block, c'), Rivals(bare, l.block), PolicyTenant(c'));
  }

  lemma OtherBlockSupplied(full: State, bare: State, b: BlockId, l: Label)
    requires Bare(full, bare, b) && l.block != b && Next(full, l).Step?
    ensures Next(bare, l).Step? && Next(bare, l).reply == Next(full, l).reply
    ensures Next(bare, l).state.rows == Next(full, l).state.rows
  {
    hide ParseUuid, AdvanceBlock, WorkInv;
    if l.action.Acquire? || l.action.Outside? {
      assert l.action.conn in bare.idle by {
        forall b' | b' in bare.blocks
          ensures bare.blocks[b'].conn != l.action.conn
        {
          assert b' in full.blocks && full.blocks[b'] == bare.blocks[b'];
        }
      }
      if l.action.Outside? {
        OutsideFails(full, l);
        OutsideFails(bare, l);
      }
    } else if !l.action.Release? {
      OtherBlockAdvances(full, bare, b, l);
    }
  }

  /** The block that stepped is in the same place in both states. */
  lemma SteppedBlockAgrees(full: State, bare: State, b: BlockId, l: Label)
    requires Bare(full, bare, b) && l.block != b && Next(full, l).Step? && Next(bare, l).Step?
    requires !l.action.Release? && !l.action.Outside?
    ensures var full', bare' := Next(full, l).state, Next(bare, l).state;
            && l.block in full'.blocks && l.block in bare'.blocks
            && bare'.blocks[l.block] == full'.blocks[l.block] && TxnOf(bare', l.block) == TxnOf(full', l.block)
  {
    if !l.action.Acquire? {
      OtherBlockAdvances(full, bare, b, l);
      var a := Advanced(full, l.block, l.action);
      assert bare.blocks[l.block] == full.blocks[l.block];
      PutWork(full, l.block, a.phase, a.txn, a.rows, NewIds(l.action));
      PutWork(bare, l.block, a.phase, a.txn, a.rows, NewIds(l.action));
    }
  }

  lemma OtherBlockKeepsOthers(full: State, bare: State, b: BlockId, l: Label)
    requires PoolInv(full) && PoolInv(bare) && SameOthers(full, bare, b)
    requires l.block != b && Next(full, l).Step? && Next(bare, l).Step?
    requires var full', bare' := Next(full, l).state, Next(bare, l).state;
             l.block in bare'.blocks ==>
               (l.block in full'.blocks && bare'.blocks[l.block] == full'.blocks[l.block]
                && TxnOf(bare', l.block) == TxnOf(full', l.block))
    ensures SameOthers(Next(full, l).state, Next(bare, l).state, b)
  {
    hide Next, PoolInv;
    var full', bare' := Next(full, l).state, Next(bare, l).state;
    StepFacts(full, l);
    StepFacts(bare, l);
    forall b' | b' != b && b' != l.block && b' in bare'.blocks
      ensures TxnOf(bare', b') == TxnOf(full', b')
    {
      TxnElsewhere(full, l, b');
      TxnElsewhere(bare, l, b');
    }
  }

  lemma TxnElsewhere(s: State, l: Label, b: BlockId)
    requires PoolInv(s) && Next(s, l).Step? && b in s.blocks && b != l.block
    ensures TxnOf(Next(s, l).state, b) == TxnOf(s, b)
  {
    if l.action.Outside? {
      OutsideFails(s, l);
    } else if !l.action.Acquire? && !l.action.Release? {
      var a := Advanced(s, l.block, l.action);
      PutWork(s, l.block, a.phase, a.txn, a.rows, NewIds(l.action));
    }
  }

  lemma OtherBlockSteps(full: State, bare: State, b: BlockId, l: Label)
    requires Bare(full, bare, b) && l.block != b && Next(full, l).Step?
    ensures Next(bare, l).Step? && Next(bare, l).reply == Next(full, l).reply
    ensures Bare(Next(full, l).state, Next(bare, l).state, b)
  {
    OtherBlockSupplied(full, bare, b, l);
    StepFacts(bare, l);
    if !l.action.Release? && !l.action.Outside? {
      SteppedBlockAgrees(full, bare, b, l);
    }
    OtherBlockKeepsOthers(full, bare, b, l);
    StepFacts(full, l);
    InvKept(full, l);
    InvKept(bare, l);
  }

  lemma OnlyCommitsChangeRows(s: State, l: Label)
    requires PoolInv(s) && Next(s, l).Step? && Next(s, l).reply != Ended(true)
    ensures Next(s, l).state.rows == s.rows
  {
    hide PoolInv, AdvanceBlock;
    if l.action.Outside? {
      OutsideFails(s, l);
    } else if !l.action.Acquire? && !l.action.Release? {
      var k := s.blocks[l.block];
      var c := s.conns[k.conn];
      TenantOnlyInBody(s, l.block);
      AdvanceCases(k.tenantId, k.phase, c.txn, s.rows, Filtered(s, l.block, c), Rivals(s, l.block), PolicyTenant(c), l.action);
    }
  }

  lemma AbortingBlockSteps(full: State, bare: State, b: BlockId, l: Label)
    requires Bare(full, bare, b) && l.block == b && Next(full, l).Step? && Next(full, l).reply != Ended(true)
    ensures Bare(Next(full, l).state, bare, b)
  {
    hide Next, PoolInv, WorkInv;
    var full' := Next(full, l).state;
    StepFacts(full, l);
    InvKept(full, l);
    OnlyCommitsChangeRows(full, l);
    forall b' | b' in bare.blocks
      ensures TxnOf(bare, b') == TxnOf(full', b')
    {
      TxnElsewhere(full, l, b');
    }
  }

  /** Take a block that never commits out of any run: everyone else, of the same tenant or another,
      gets the same replies, and the committed rows are the same. */
  lemma {:induction false} AbortLeavesNoTrace(pool: set<ConnId>, rows: Tables, labels: seq<Label>, b: BlockId)
    requires Unique(rows) && Run(Initial(pool, rows), labels).Trace?
    requires |Run(Initial(pool, rows), labels).replies| == |labels|
    requires NeverCommits(labels, Run(Initial(pool, rows), labels).replies, b)
    ensures var full, bare := Run(Initial(pool, rows), labels), Run(Initial(pool, rows), Without(labels, b));
            && bare.Trace?
            && bare.replies == RepliesWithout(labels, full.replies, b)
            && bare.state.rows == full.state.rows
            && Bare(full.state, bare.state, b)
  {
    var start := Initial(pool, rows);
    InitialInv(pool, rows);
    if labels != [] {
      var n := |labels| - 1;
      var l := labels[n];
      var full, before := Run(start, labels), Run(start, labels[..n]);
      RunLength(start, labels[..n]);
      assert full.replies[..n] == before.replies && full.replies[n] == Next(before.state, l).reply;
      AbortLeavesNoTrace(pool, rows, labels[..n], b);
      var bare := Run(start, Without(labels[..n], b));
      if l.block == b {
        AbortingBlockSteps(before.state, bare.state, b, l);
        assert Without(labels, b) == Without(labels[..n], b);
        assert RepliesWithout(labels, full.replies, b) == RepliesWithout(labels[..n], before.replies, b);
      } else {
        OtherBlockSteps(before.state, bare.state, b, l);
        RunOneMore(start, Without(labels[..n], b), l);
      }
    }
  }
}
