/** What every reachable state of the pool and the tables satisfies. */
module TenantInvariant {
  import opened Wrappers
  import opened TenantTables
  import opened TenantMachine

  /** Connections, blocks and settings. */
  predicate PoolInv(s: State) {
    && s.idle <= s.conns.Keys
    && (forall b :: b in s.blocks ==> s.blocks[b].conn in s.conns && s.blocks[b].conn !in s.idle)
    && (forall b, b' :: b in s.blocks && b' in s.blocks && s.blocks[b].conn == s.blocks[b'].conn ==> b == b')
    && (forall c :: c in s.conns ==> s.conns[c].session == None || s.conns[c].session == Some(""))
    && (forall c :: c in s.idle ==> s.conns[c].txn == None)
    && (forall c :: c in s.conns && c !in s.idle ==> exists b :: b in s.blocks && s.blocks[b].conn == c)
    && (forall b :: b in s.blocks ==> PhaseInv(s.blocks[b], s.conns[s.blocks[b].conn].txn))
  }

  predicate PhaseInv(k: Block, txn: Option<Txn>) {
    match k.phase
    case Leased => txn == None
    case Open => txn.Some? && txn.value.local == None && txn.value.writes == map[]
    case Scoped => txn.Some? && txn.value.local == Some(k.tenantId) && (txn.value.failed ==> txn.value.writes == map[])
    case Closed => txn == None
  }

  /** Pending work belongs to the tenant of its block; a block without a tenant has none. */
  predicate OwnWork(rows: Tables, tenantId: string, w: Writes) {
    match ParseUuid(tenantId)
    case None => w == map[]
    case Some(t) => OwnedBy(rows, w, t)
  }

  /** One transaction against the committed rows: its work is its tenant's, and what it would
      commit respects the unique keys. */
  predicate Sound(rows: Tables, tenantId: string, w: Writes) {
    OwnWork(rows, tenantId, w) && Unique(View(rows, w))
  }

  /** Rows, pending work and locks. */
  predicate WorkInv(s: State) {
    && s.rows.Keys <= s.issued
    && Unique(s.rows)
    && (forall b :: b in s.blocks ==> WritesOf(s, b).Keys <= s.issued)
    && (forall b :: b in s.blocks ==> Sound(s.rows, s.blocks[b].tenantId, WritesOf(s, b)))
    && (forall b, b' :: b in s.blocks && b' in s.blocks && b != b' ==> Apart(s.rows, WritesOf(s, b), WritesOf(s, b')))
  }

  predicate Inv(s: State) {
    PoolInv(s) && WorkInv(s)
  }

  lemma EmptySettingIsNoTenant()
    ensures ParseUuid("") == None
  {
  }

  lemma InitialInv(pool: set<ConnId>, rows: Tables)
    requires Unique(rows)
    ensures Inv(Initial(pool, rows))
  {
  }

  // ---- Taking and returning a connection -----------------------------------------

  lemma NoWork(rows: Tables, tenantId: string, w: Writes)
    requires Unique(rows)
    ensures View(rows, map[]) == rows && Sound(rows, tenantId, map[])
    ensures Apart(rows, map[], w) && Apart(rows, w, map[])
  {
    EmptyOverlay(rows);
  }

  lemma AcquireKeepsWorkInv(s: State, l: Label)
    requires Inv(s) && Next(s, l).Step? && l.action.Acquire?
    ensures WorkInv(Next(s, l).state)
  {
    var s' := Next(s, l).state;
    assert WritesOf(s', l.block) == map[];
    NoWork(s.rows, l.tenantId, map[]);
    forall b | b in s'.blocks && b != l.block
      ensures b in s.blocks && s'.blocks[b] == s.blocks[b] && WritesOf(s', b) == WritesOf(s, b)
      ensures Apart(s.rows, map[], WritesOf(s, b)) && Apart(s.rows, WritesOf(s, b), map[])
    {
      NoWork(s.rows, l.tenantId, WritesOf(s, b));
    }
  }

  lemma AcquireKeepsPoolInv(s: State, l: Label)
    requires PoolInv(s) && Next(s, l).Step? && l.action.Acquire?
    ensures PoolInv(Next(s, l).state)
  {
    var s' := Next(s, l).state;
    assert s'.blocks[l.block].conn == l.action.conn;
    forall c | c in s'.conns && c !in s'.idle
      ensures exists b :: b in s'.blocks && s'.blocks[b].conn == c
    {
      if c == l.action.conn {
        assert l.block in s'.blocks;
      } else {
        var b :| b in s.blocks && s.blocks[b].conn == c;
        assert b in s'.blocks && s'.blocks[b].conn == c;
      }
    }
  }

  lemma ReleaseKeepsPoolInv(s: State, l: Label)
    requires PoolInv(s) && Next(s, l).Step? && l.action.Release?
    ensures PoolInv(Next(s, l).state)
  {
    var s' := Next(s, l).state;
    assert PhaseInv(s.blocks[l.block], s.conns[s.blocks[l.block].conn].txn);
    forall c | c in s'.conns && c !in s'.idle
      ensures exists b :: b in s'.blocks && s'.blocks[b].conn == c
    {
      var b :| b in s.blocks && s.blocks[b].conn == c;
      assert b in s'.blocks;
    }
  }

  lemma ReleaseKeepsWorkInv(s: State, l: Label)
    requires Inv(s) && Next(s, l).Step? && l.action.Release?
    ensures WorkInv(Next(s, l).state)
  {
    hide ParseUuid, Unique, Apart, View;
    var s' := Next(s, l).state;
    forall b | b in s'.blocks
      ensures b in s.blocks && s'.blocks[b] == s.blocks[b] && WritesOf(s', b) == WritesOf(s, b)
    {
    }
  }

  // ---- Every other step ----------------------------------------------------------

  lemma PhaseInvKept(k: Block, txn: Option<Txn>, rows: Tables, visible: Tables, rivals: set<Writes>,
                     t: Option<Uuid>, action: Action)
    requires PhaseInv(k, txn) && (t.Some? ==> k.phase == Scoped)
    requires AdvanceBlock(k.tenantId, k.phase, txn, rows, visible, rivals, t, action).Advance?
    ensures var a := AdvanceBlock(k.tenantId, k.phase, txn, rows, visible, rivals, t, action);
            PhaseInv(k.(phase := a.phase), a.txn)
  {
  }

  lemma PutKeepsPoolInv(s: State, b: BlockId, phase: Phase, txn: Option<Txn>, rows: Tables, ids: set<RowId>)
    requires PoolInv(s) && b in s.blocks
    requires PhaseInv(s.blocks[b].(phase := phase), txn)
    ensures PoolInv(Put(s, b, phase, txn, rows, ids))
  {
    var s' := Put(s, b, phase, txn, rows, ids);
    forall c | c in s'.conns && c !in s'.idle
      ensures exists b' :: b' in s'.blocks && s'.blocks[b'].conn == c
    {
      var b' :| b' in s.blocks && s.blocks[b'].conn == c;
      assert b' in s'.blocks && s'.blocks[b'].conn == c;
    }
  }

  lemma PutWork(s: State, b: BlockId, phase: Phase, txn: Option<Txn>, rows: Tables, ids: set<RowId>)
    requires PoolInv(s) && b in s.blocks
    ensures var s' := Put(s, b, phase, txn, rows, ids);
            && s'.blocks.Keys == s.blocks.Keys
            && TxnOf(s', b) == txn
            && (forall b' :: b' in s.blocks && b' != b ==> s'.blocks[b'] == s.blocks[b'] && TxnOf(s', b') == TxnOf(s, b'))
            && (forall b' :: b' in s.blocks ==> s'.blocks[b'].tenantId == s.blocks[b'].tenantId)
  {
    hide PhaseInv;
  }

  /** The other open transactions can live with new committed rows and new pending work of block `b`. */
  predicate Compatible(s: State, b: BlockId, rows: Tables, w: Writes) {
    forall b' :: b' in s.blocks && b' != b ==>
      && Sound(rows, s.blocks[b'].tenantId, WritesOf(s, b'))
      && Apart(rows, w, WritesOf(s, b')) && Apart(rows, WritesOf(s, b'), w)
  }

  predicate OthersApart(s: State, b: BlockId, rows: Tables) {
    forall b1, b2 :: b1 in s.blocks && b2 in s.blocks && b1 != b && b2 != b && b1 != b2 ==>
      Apart(rows, WritesOf(s, b1), WritesOf(s, b2))
  }

  predicate Settled(s: State, b: BlockId, rows: Tables, w: Writes, ids: set<RowId>)
    requires b in s.blocks
  {
    && rows.Keys <= s.issued + ids && w.Keys <= s.issued + ids
    && Unique(rows) && Sound(rows, s.blocks[b].tenantId, w)
    && Compatible(s, b, rows, w) && OthersApart(s, b, rows)
  }

  lemma PutKeepsWorkInv(s: State, b: BlockId, phase: Phase, txn: Option<Txn>, rows: Tables, ids: set<RowId>)
    requires Inv(s) && b in s.blocks && Settled(s, b, rows, Pending(txn), ids)
    ensures WorkInv(Put(s, b, phase, txn, rows, ids))
  {
    hide ParseUuid, View, Apart, Unique;
    var s' := Put(s, b, phase, txn, rows, ids);
    PutWork(s, b, phase, txn, rows, ids);
    assert WritesOf(s', b) == Pending(txn);
    forall b' | b' in s'.blocks && b' != b
      ensures b' in s.blocks && s'.blocks[b'] == s.blocks[b'] && WritesOf(s', b') == WritesOf(s, b')
    {
    }
  }

  lemma StepIsAdvance(s: State, l: Label)
    requires PoolInv(s) && l.block in s.blocks && s.blocks[l.block].tenantId == l.tenantId
    requires !l.action.Acquire? && !l.action.Release? && !l.action.Outside? && NewIds(l.action) !! s.issued
    ensures var a := Advanced(s, l.block, l.action);
            Next(s, l) == if a.Stuck? then Waits
                          else Step(Put(s, l.block, a.phase, a.txn, a.rows, NewIds(l.action)), a.reply)
    ensures l.action.Execute? && Advanced(s, l.block, l.action).Advance? && TxnOf(s, l.block).Some? ==>
              Advanced(s, l.block, l.action).phase == s.blocks[l.block].phase && Advanced(s, l.block, l.action).rows == s.rows
  {
  }

  /** Inside the body the policies evaluate to the tenant the block was entered with. */
  lemma ScopedTenant(s: State, b: BlockId)
    requires PoolInv(s) && b in s.blocks && s.blocks[b].phase == Scoped
    ensures PolicyTenant(s.conns[s.blocks[b].conn]) == ParseUuid(s.blocks[b].tenantId)
    ensures Filtered(s, b, s.conns[s.blocks[b].conn]) ==
            match ParseUuid(s.blocks[b].tenantId)
            case None => map[]
            case Some(t) => Visible(View(s.rows, WritesOf(s, b)), t)
  {
    assert PhaseInv(s.blocks[b], s.conns[s.blocks[b].conn].txn);
  }

  /** Only inside the body do the policies evaluate to a tenant at all. */
  lemma TenantOnlyInBody(s: State, b: BlockId)
    requires PoolInv(s) && b in s.blocks
    ensures s.blocks[b].phase != Scoped ==> PolicyTenant(s.conns[s.blocks[b].conn]) == None
    ensures s.conns[s.blocks[b].conn].txn.None? ==> s.blocks[b].phase != Scoped
  {
    assert PhaseInv(s.blocks[b], s.conns[s.blocks[b].conn].txn);
    EmptySettingIsNoTenant();
  }

  lemma IdleHasNoTenant(s: State, c: ConnId)
    requires PoolInv(s) && c in s.idle
    ensures c in s.conns && s.conns[c].txn == None && PolicyTenant(s.conns[c]) == None
  {
    EmptySettingIsNoTenant();
  }

  /** Steps that leave the committed rows alone and keep or drop the block's pending work. */
  lemma QuietSettles(s: State, b: BlockId, w: Writes, ids: set<RowId>)
    requires Inv(s) && b in s.blocks && (w == map[] || w == WritesOf(s, b))
    ensures Settled(s, b, s.rows, w, ids)
  {
    if w == map[] {
      NoWork(s.rows, s.blocks[b].tenantId, map[]);
      forall b' | b' in s.blocks && b' != b
        ensures Apart(s.rows, map[], WritesOf(s, b')) && Apart(s.rows, WritesOf(s, b'), map[])
      {
        NoWork(s.rows, s.blocks[b].tenantId, WritesOf(s, b'));
      }
    }
  }

  lemma WriteSettles(s: State, b: BlockId, t: Uuid, statement: Statement, changes: Writes)
    requires Inv(s) && b in s.blocks && ParseUuid(s.blocks[b].tenantId) == Some(t)
    requires NewIds(Execute(statement)) !! s.issued
    requires changes == Changes(Visible(View(s.rows, WritesOf(s, b)), t), statement) && Permitted(changes, t)
    requires forall r :: r in Rivals(s, b) ==> !Conflicts(s.rows, changes, r)
    requires !Clashes(View(s.rows, WritesOf(s, b) + changes), changes)
    ensures Settled(s, b, s.rows, WritesOf(s, b) + changes, NewIds(Execute(statement)))
  {
    var w := WritesOf(s, b);
    assert statement.Insert? ==> statement.id in NewIds(Execute(statement));
    assert Sound(s.rows, s.blocks[b].tenantId, w);
    ChangesOwned(s.rows, w, t, statement);
    UniqueAfterWrite(s.rows, w, changes);
    assert changes.Keys <= s.issued + NewIds(Execute(statement));
    forall b' | b' in s.blocks && b' != b
      ensures Apart(s.rows, w + changes, WritesOf(s, b')) && Apart(s.rows, WritesOf(s, b'), w + changes)
    {
      assert WritesOf(s, b') in Rivals(s, b);
      assert Sound(s.rows, s.blocks[b'].tenantId, WritesOf(s, b'));
      ApartAfterWrite(s.rows, w, changes, WritesOf(s, b'));
    }
  }

  lemma CommitSettles(s: State, b: BlockId, ids: set<RowId>)
    requires Inv(s) && b in s.blocks
    ensures Settled(s, b, View(s.rows, WritesOf(s, b)), map[], ids)
  {
    var w := WritesOf(s, b);
    var rows := View(s.rows, w);
    assert Sound(s.rows, s.blocks[b].tenantId, w);
    NoWork(rows, s.blocks[b].tenantId, map[]);
    forall b' | b' in s.blocks && b' != b
      ensures Sound(rows, s.blocks[b'].tenantId, WritesOf(s, b'))
      ensures Apart(rows, map[], WritesOf(s, b')) && Apart(rows, WritesOf(s, b'), map[])
    {
      assert Sound(s.rows, s.blocks[b'].tenantId, WritesOf(s, b'));
      SoundAfterCommit(s.rows, w, s.blocks[b'].tenantId, WritesOf(s, b'));
      NoWork(rows, s.blocks[b].tenantId, WritesOf(s, b'));
    }
    forall b1, b2 | b1 in s.blocks && b2 in s.blocks && b1 != b2 && b1 != b && b2 != b
      ensures Apart(rows, WritesOf(s, b1), WritesOf(s, b2))
    {
      ApartAfterCommit(s.rows, w, WritesOf(s, b1), WritesOf(s, b2));
    }
  }

  lemma SoundAfterCommit(rows: Tables, w: Writes, tenantId: string, w': Writes)
    requires Apart(rows, w, w') && Apart(rows, w', w) && Unique(View(rows, w)) && Sound(rows, tenantId, w')
    ensures Sound(View(rows, w), tenantId, w')
  {
    UniqueAfterCommit(rows, w, w');
    if ParseUuid(tenantId).Some? {
      OwnedAfterCommit(rows, w, w', ParseUuid(tenantId).value);
    }
  }

  /** The three ways a step of a block can go: a write, a commit, or neither. */
  lemma AdvanceCases(tenantId: string, phase: Phase, txn: Option<Txn>, rows: Tables, visible: Tables,
                     rivals: set<Writes>, t: Option<Uuid>, action: Action)
    requires t.Some? ==> txn.Some?
    requires AdvanceBlock(tenantId, phase, txn, rows, visible, rivals, t, action).Advance?
    ensures var a := AdvanceBlock(tenantId, phase, txn, rows, visible, rivals, t, action);
            if a.reply.Changed? then
              && action.Execute? && t.Some? && a.rows == rows
              && Permitted(Changes(visible, action.statement), t.value)
              && (forall r :: r in rivals ==> !Conflicts(rows, Changes(visible, action.statement), r))
              && !Clashes(View(rows, Pending(txn) + Changes(visible, action.statement)), Changes(visible, action.statement))
              && Pending(a.txn) == Pending(txn) + Changes(visible, action.statement)
            else if a.reply == Ended(true) then
              a.rows == View(rows, Pending(txn)) && Pending(a.txn) == map[]
            else
              a.rows == rows && (Pending(a.txn) == map[] || Pending(a.txn) == Pending(txn))
  {
  }

  /** The rows and the pending work after a step of the block itself. */
  lemma AdvanceSettles(s: State, b: BlockId, action: Action, a: Advance)
    requires Inv(s) && b in s.blocks && NewIds(action) !! s.issued
    requires a == Advanced(s, b, action) && a.Advance?
    ensures Settled(s, b, a.rows, Pending(a.txn), NewIds(action))
  {
    var k := s.blocks[b];
    var c := s.conns[k.conn];
    TenantOnlyInBody(s, b);
    AdvanceCases(k.tenantId, k.phase, c.txn, s.rows, Filtered(s, b, c), Rivals(s, b), PolicyTenant(c), action);
    assert WritesOf(s, b) == Pending(c.txn);
    if a.reply.Changed? {
      ScopedTenant(s, b);
      WriteSettles(s, b, ParseUuid(k.tenantId).value, action.statement, Changes(Filtered(s, b, c), action.statement));
    } else if a.reply == Ended(true) {
      CommitSettles(s, b, NewIds(action));
    } else {
      QuietSettles(s, b, Pending(a.txn), NewIds(action));
    }
  }

  /** A statement outside `tenant_txn` fails for want of a tenant and leaves everything but the id generator alone. */
  lemma OutsideFails(s: State, l: Label)
    requires PoolInv(s) && l.action.Outside? && l.action.conn in s.idle && NewIds(l.action) !! s.issued
    ensures Next(s, l) == Step(s.(issued := s.issued + NewIds(l.action)), Failed(NoTenant))
  {
    IdleHasNoTenant(s, l.action.conn);
  }

  lemma OutsideKeepsInv(s: State, l: Label)
    requires Inv(s) && l.action.Outside? && Next(s, l).Step?
    ensures Inv(Next(s, l).state)
  {
    hide ParseUuid, Unique, Apart, View;
    OutsideFails(s, l);
    var s' := Next(s, l).state;
    forall b | b in s'.blocks
      ensures WritesOf(s', b) == WritesOf(s, b)
    {
    }
  }

  lemma InvKept(s: State, l: Label)
    requires Inv(s) && Next(s, l).Step?
    ensures Inv(Next(s, l).state)
  {
    if l.action.Acquire? {
      AcquireKeepsPoolInv(s, l);
      AcquireKeepsWorkInv(s, l);
    } else if l.action.Release? {
      ReleaseKeepsPoolInv(s, l);
      ReleaseKeepsWorkInv(s, l);
    } else if l.action.Outside? {
      OutsideKeepsInv(s, l);
    } else {
      var k, a := s.blocks[l.block], Advanced(s, l.block, l.action);
      var c := s.conns[k.conn];
      TenantOnlyInBody(s, l.block);
      PhaseInvKept(k, c.txn, s.rows, Filtered(s, l.block, c), Rivals(s, l.block), PolicyTenant(c), l.action);
      PutKeepsPoolInv(s, l.block, a.phase, a.txn, a.rows, NewIds(l.action));
      AdvanceSettles(s, l.block, l.action, a);
      PutKeepsWorkInv(s, l.block, a.phase, a.txn, a.rows, NewIds(l.action));
    }
  }

  lemma {:induction false} RunInv(s: State, labels: seq<Label>)
    requires Inv(s) && Run(s, labels).Trace?
    ensures Inv(Run(s, labels).state)
  {
    if labels != [] {
      RunInv(s, labels[..|labels| - 1]);
      InvKept(Run(s, labels[..|labels| - 1]).state, labels[|labels| - 1]);
    }
  }
}
