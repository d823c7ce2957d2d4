/** Statements, duplicates and waits column by column, as the tables declare them. */
module TenantFields {
  import opened Wrappers
  import opened TenantTables
  import opened TenantMachine
  import opened TenantInvariant
  import opened TenantRefinement
  import opened TenantStatements

  // ---- The declared keys ---------------------------------------------------------

  /** UNIQUE (tenant_id, content_hash) on documents; UNIQUE (tenant_id, document_id, chunk_index) on chunks. */
  predicate Repeats(a: Row, b: Row) {
    if a.Document? then b.Document? && a.tenant == b.tenant && a.contentHash == b.contentHash
    else b.Chunk? && a.tenant == b.tenant && a.documentId == b.documentId && a.chunkIndex == b.chunkIndex
  }

  lemma RepeatsExactly(a: Row, b: Row)
    ensures KeyOf(a) == KeyOf(b) <==> Repeats(a, b)
  {
  }

  predicate NoRepeats(rows: Tables) {
    forall i, j :: i in rows && j in rows && i != j ==> !Repeats(rows[i], rows[j])
  }

  lemma NoRepeatsExactly(rows: Tables)
    ensures Unique(rows) <==> NoRepeats(rows)
  {
    forall i, j | i in rows && j in rows
      ensures KeyOf(rows[i]) == KeyOf(rows[j]) <==> Repeats(rows[i], rows[j])
    {
      RepeatsExactly(rows[i], rows[j]);
    }
    hide KeyOf, Repeats;
  }

  /** In every reachable state no two committed rows agree on the columns of a declared key. */
  lemma NoTwoRowsAgree(pool: set<ConnId>, rows: Tables, labels: seq<Label>)
    requires NoRepeats(rows) && Run(Initial(pool, rows), labels).Trace?
    ensures NoRepeats(Run(Initial(pool, rows), labels).state.rows)
  {
    hide Run, NoRepeats, Unique;
    NoRepeatsExactly(rows);
    InitialInv(pool, rows);
    RunInv(Initial(pool, rows), labels);
    NoRepeatsExactly(Run(Initial(pool, rows), labels).state.rows);
  }

  // ---- What a block sees ---------------------------------------------------------

  /** Inside the block row `i` reads `r`: the block's own version if it has written the row, the committed one if not,
      and its tenant's either way. */
  predicate Sees(s: State, b: BlockId, t: Uuid, i: RowId, r: Row) {
    && r.tenant == t
    && if i in WritesOf(s, b) then WritesOf(s, b)[i] == Some(r) else i in s.rows && s.rows[i] == r
  }

  lemma SeesExactly(s: State, b: BlockId, t: Uuid, i: RowId, r: Row)
    ensures Sees(s, b, t, i, r) <==> i in OwnView(s, b, t) && OwnView(s, b, t)[i] == r
  {
    hide WritesOf;
  }

  predicate IsOf(table: Table, r: Row) {
    match table
    case Documents => r.Document?
    case Chunks => r.Chunk?
  }

  /** The statement picks row `i` of those the block sees. */
  predicate Hit(own: Tables, s: Statement, i: RowId) {
    match s
    case Select => false
    case Insert(id, _) => i == id
    case Update(table, where, _) => i in own && IsOf(table, own[i]) && where(own, i)
    case Delete(table, where) => i in own && IsOf(table, own[i]) && where(own, i)
  }

  /** The statement gives row `i` the content `r`. */
  predicate Makes(own: Tables, s: Statement, i: RowId, r: Row) {
    match s
    case Select => false
    case Insert(id, row) => i == id && r == row
    case Update(_, _, assign) => Hit(own, s, i) && r == assign(own, own[i])
    case Delete(_, _) => false
  }

  /** After the statement row `i` reads `r`. */
  predicate Leaves(own: Tables, s: Statement, i: RowId, r: Row) {
    Makes(own, s, i, r) || (i in own && r == own[i] && !Hit(own, s, i))
  }

  lemma MakesExactly(own: Tables, s: Statement, i: RowId, r: Row)
    ensures Makes(own, s, i, r) <==> i in Changes(own, s) && Changes(own, s)[i] == Some(r)
    ensures Hit(own, s, i) <==> i in Changes(own, s)
    ensures Hit(own, s, i) <==> i in Touched(own, s)
    ensures Leaves(own, s, i, r) <==> i in InPlace(own, s) && InPlace(own, s)[i] == r
  {
  }

  /** Some new content is another tenant's. */
  ghost predicate Strays(own: Tables, s: Statement, t: Uuid) {
    exists i, r :: Makes(own, s, i, r) && r.tenant != t
  }

  /** Two rows would agree on a declared key. */
  ghost predicate Collides(own: Tables, s: Statement) {
    exists i, r, j, r' :: Leaves(own, s, i, r) && Leaves(own, s, j, r') && i != j && Repeats(r, r')
  }

  lemma StraysExactly(own: Tables, s: Statement, t: Uuid)
    requires AllOf(own, t)
    ensures Strays(own, s, t) <==> !AllOf(InPlace(own, s), t)
  {
    hide Makes, InPlace, Leaves, Hit;
    var after := InPlace(own, s);
    if !AllOf(after, t) {
      var i :| i in after && after[i].tenant != t;
      MakesExactly(own, s, i, after[i]);
      assert Makes(own, s, i, after[i]) by { LeavesOwnOrMakes(own, s, i, after[i]); }
    }
    if Strays(own, s, t) {
      var i, r :| Makes(own, s, i, r) && r.tenant != t;
      MakesExactly(own, s, i, r);
      LeavesOwnOrMakes(own, s, i, r);
    }
  }

  lemma LeavesOwnOrMakes(own: Tables, s: Statement, i: RowId, r: Row)
    ensures Leaves(own, s, i, r) ==> Makes(own, s, i, r) || (i in own && r == own[i])
    ensures Makes(own, s, i, r) ==> Leaves(own, s, i, r)
  {
  }

  lemma CollidesExactly(own: Tables, s: Statement)
    ensures Collides(own, s) <==> !Unique(InPlace(own, s))
  {
    hide Makes, InPlace, Leaves, Hit, Repeats, NoRepeats;
    var after := InPlace(own, s);
    NoRepeatsExactly(after);
    if Collides(own, s) {
      var i, r, j, r' :| Leaves(own, s, i, r) && Leaves(own, s, j, r') && i != j && Repeats(r, r');
      MakesExactly(own, s, i, r);
      MakesExactly(own, s, j, r');
      HasRepeat(after, i, j);
    }
    if !Unique(after) {
      var i, j := FindRepeat(after);
      MakesExactly(own, s, i, after[i]);
      MakesExactly(own, s, j, after[j]);
    }
  }

  lemma HasRepeat(rows: Tables, i: RowId, j: RowId)
    requires i in rows && j in rows && i != j && Repeats(rows[i], rows[j])
    ensures !NoRepeats(rows)
  {
  }

  lemma FindRepeat(rows: Tables) returns (i: RowId, j: RowId)
    requires !NoRepeats(rows)
    ensures i in rows && j in rows && i != j && Repeats(rows[i], rows[j])
  {
    i, j :| i in rows && j in rows && i != j && Repeats(rows[i], rows[j]);
  }

  // ---- What a statement answers --------------------------------------------------

  /** A statement of a body that does not wait: refused as Denied exactly when some new content is another tenant's, as
      Duplicate exactly when not that and two rows would agree on a declared key, and otherwise answered with the rows it
      picked, which then read as it left them. Nothing else in the block's view changes. */
  lemma StatementExactly(s: State, l: Label, t: Uuid)
    requires Inv(s) && Next(s, l).Step? && l.action.Execute? && ParseUuid(l.tenantId) == Some(t)
    requires s.blocks[l.block].phase == Scoped && TxnOf(s, l.block).Some? && !TxnOf(s, l.block).value.failed
    ensures var own, statement, step := OwnView(s, l.block, t), l.action.statement, Next(s, l);
            && (step.reply == Failed(Denied) <==> Strays(own, statement, t))
            && (step.reply == Failed(Duplicate) <==> !Strays(own, statement, t) && Collides(own, statement))
            && (Strays(own, statement, t) || Collides(own, statement) ==>
                  forall i, r :: Sees(step.state, l.block, t, i, r) <==> i in s.rows && s.rows[i] == r && r.tenant == t)
            && (!Strays(own, statement, t) && !Collides(own, statement) ==>
                  && (if statement.Select? then step.reply == Rows(own)
                      else step.reply.Changed? && forall i :: i in step.reply.ids <==> Hit(own, statement, i))
                  && forall i, r :: Sees(step.state, l.block, t, i, r) <==> Leaves(own, statement, i, r))
  {
    var own, statement, step := OwnView(s, l.block, t), l.action.statement, Next(s, l);
    StatementMeans(s, l, t);
    BlockStays(s, l);
    OwnViewFacts(s, l.block, t);
    StraysExactly(own, statement, t);
    CollidesExactly(own, statement);
    SelectIsHarmless(own, statement, t);
    HitsAreTouched(own, statement);
    hide Inv, Next, OwnView, Sees, Leaves, Hit, InPlace, Touched, AllOf, Unique, Strays, Collides, Visible;
    forall i, r
      ensures Sees(step.state, l.block, t, i, r) <==> i in OwnView(step.state, l.block, t) && OwnView(step.state, l.block, t)[i] == r
      ensures Leaves(own, statement, i, r) <==> i in InPlace(own, statement) && InPlace(own, statement)[i] == r
      ensures (i in Visible(s.rows, t) && Visible(s.rows, t)[i] == r) <==> (i in s.rows && s.rows[i] == r && r.tenant == t)
    {
      VisibleExactly(s.rows, t, i, r);
      SeesExactly(step.state, l.block, t, i, r);
      MakesExactly(own, statement, i, r);
    }
  }

  lemma BlockStays(s: State, l: Label)
    requires PoolInv(s) && Next(s, l).Step? && l.action.Execute?
    ensures l.block in s.blocks && s.blocks[l.block].tenantId == l.tenantId
  {
  }

  lemma HitsAreTouched(own: Tables, s: Statement)
    ensures forall i :: Hit(own, s, i) <==> i in Touched(own, s)
  {
    if s.Insert? {
      forall i ensures Hit(own, s, i) <==> i in Touched(own, s) { MakesExactly(own, s, i, s.row); }
    }
  }

  lemma VisibleExactly(rows: Tables, t: Uuid, i: RowId, r: Row)
    ensures (i in Visible(rows, t) && Visible(rows, t)[i] == r) <==> (i in rows && rows[i] == r && r.tenant == t)
  {
  }

  lemma SelectIsHarmless(own: Tables, s: Statement, t: Uuid)
    requires AllOf(own, t) && Unique(own)
    ensures s.Select? ==> AllOf(InPlace(own, s), t) && Unique(InPlace(own, s)) && InPlace(own, s) == own
  {
  }

  /** The block sees a document with that content hash, or a chunk of that document with that index. */
  ghost predicate Present(s: State, b: BlockId, t: Uuid, row: Row) {
    exists i, r :: Sees(s, b, t, i, r) &&
      if row.Document? then r.Document? && r.contentHash == row.contentHash
      else r.Chunk? && r.documentId == row.documentId && r.chunkIndex == row.chunkIndex
  }

  lemma PresentExactly(s: State, b: BlockId, t: Uuid, row: Row)
    requires row.tenant == t
    ensures Present(s, b, t, row) <==> exists i :: i in OwnView(s, b, t) && Repeats(OwnView(s, b, t)[i], row)
  {
    var own := OwnView(s, b, t);
    hide OwnView;
    if Present(s, b, t, row) {
      var i, r :| Sees(s, b, t, i, r) &&
        if row.Document? then r.Document? && r.contentHash == row.contentHash
        else r.Chunk? && r.documentId == row.documentId && r.chunkIndex == row.chunkIndex;
      SeesExactly(s, b, t, i, r);
    }
    if i :| i in own && Repeats(own[i], row) {
      SeesExactly(s, b, t, i, own[i]);
    }
  }

  /** An INSERT of one's own row that does not wait is a duplicate exactly when the block sees such a row already. */
  lemma InsertExactly(s: State, l: Label, t: Uuid, id: RowId, row: Row)
    requires Inv(s) && Next(s, l).Step? && ParseUuid(l.tenantId) == Some(t)
    requires l.action == Execute(Insert(id, row)) && row.tenant == t
    requires s.blocks[l.block].phase == Scoped && TxnOf(s, l.block).Some? && !TxnOf(s, l.block).value.failed
    ensures Next(s, l).reply == if Present(s, l.block, t, row) then Failed(Duplicate) else Changed({id})
  {
    hide Inv, Next, OwnView, Sees, Collides, Strays, Leaves, Repeats, Present, ParseUuid;
    NewIdIsUnseen(s, l, t, id, row);
    StatementExactly(s, l, t);
    InsertCollides(OwnView(s, l.block, t), id, row, t);
    PresentExactly(s, l.block, t, row);
    if Next(s, l).reply.Changed? {
      assert Next(s, l).reply.ids == {id};
    }
  }

  lemma NewIdIsUnseen(s: State, l: Label, t: Uuid, id: RowId, row: Row)
    requires Inv(s) && Next(s, l).Step? && ParseUuid(l.tenantId) == Some(t) && l.action == Execute(Insert(id, row))
    ensures id !in OwnView(s, l.block, t) && AllOf(OwnView(s, l.block, t), t) && Unique(OwnView(s, l.block, t))
  {
    BlockStays(s, l);
    OwnViewFacts(s, l.block, t);
    assert id in NewIds(l.action);
    assert WritesOf(s, l.block).Keys <= s.issued && s.rows.Keys <= s.issued;
    hide ParseUuid, AllOf, Unique;
  }

  lemma InsertCollides(own: Tables, id: RowId, row: Row, t: Uuid)
    requires id !in own && AllOf(own, t) && Unique(own) && row.tenant == t
    ensures !Strays(own, Insert(id, row), t)
    ensures Collides(own, Insert(id, row)) <==> exists i :: i in own && Repeats(own[i], row)
  {
    var s := Insert(id, row);
    NoRepeatsExactly(own);
    if Collides(own, s) {
      var i, r, j, r' :| Leaves(own, s, i, r) && Leaves(own, s, j, r') && i != j && Repeats(r, r');
      assert i == id ==> j in own && Repeats(own[j], row);
      assert j == id ==> i in own && Repeats(own[i], row);
    }
    if i :| i in own && Repeats(own[i], row) {
      assert Leaves(own, s, i, own[i]) && Leaves(own, s, id, row);
    }
  }

  // ---- What a statement waits for ------------------------------------------------

  /** Another transaction's work `w` stands in the statement's way: it has written a row that the statement picks, or it
      gives or takes away a key that the statement makes. */
  ghost predicate Blocks(rows: Tables, w: Writes, own: Tables, s: Statement) {
    exists i :: i in w &&
      (Hit(own, s, i) ||
       exists j, r :: Makes(own, s, j, r) && ((w[i].Some? && Repeats(w[i].value, r)) || (i in rows && Repeats(rows[i], r))))
  }

  lemma HoldsExactly(rows: Tables, w: Writes, i: RowId, r: Row)
    requires i in w
    ensures HoldsKey(rows, w, i, KeyOf(r)) <==> (w[i].Some? && Repeats(w[i].value, r)) || (i in rows && Repeats(rows[i], r))
  {
    if w[i].Some? { RepeatsExactly(w[i].value, r); }
    if i in rows { RepeatsExactly(rows[i], r); }
  }

  lemma BlocksExactly(rows: Tables, w: Writes, own: Tables, s: Statement)
    ensures Blocks(rows, w, own, s) <==> Conflicts(rows, Changes(own, s), w)
  {
    var changes := Changes(own, s);
    hide Changes, Makes, Hit, HoldsKey, KeyOf, Repeats;
    if Blocks(rows, w, own, s) {
      var i :| i in w &&
        (Hit(own, s, i) ||
         exists j, r :: Makes(own, s, j, r) && ((w[i].Some? && Repeats(w[i].value, r)) || (i in rows && Repeats(rows[i], r))));
      if Hit(own, s, i) {
        HitIsChanged(own, s, i);
      } else {
        var j, r :| Makes(own, s, j, r) && ((w[i].Some? && Repeats(w[i].value, r)) || (i in rows && Repeats(rows[i], r)));
        MakesExactly(own, s, j, r);
        HoldsExactly(rows, w, i, r);
      }
    }
    if Conflicts(rows, changes, w) {
      if i :| i in w && i in changes {
        HitIsChanged(own, s, i);
      } else {
        var i, j :| i in w && j in changes && changes[j].Some? && HoldsKey(rows, w, i, KeyOf(changes[j].value));
        MakesExactly(own, s, j, changes[j].value);
        HoldsExactly(rows, w, i, changes[j].value);
      }
    }
  }

  lemma HitIsChanged(own: Tables, s: Statement, i: RowId)
    ensures Hit(own, s, i) <==> i in Changes(own, s)
  {
  }

  lemma RivalIsOwn(s: State, b: BlockId, t: Uuid, changes: Writes, b': BlockId)
    requires Inv(s) && b in s.blocks && b' in s.blocks && b' != b && Homely(s, b, t, changes)
    ensures Conflicts(s.rows, changes, WritesOf(s, b')) ==> ParseUuid(s.blocks[b'].tenantId) == Some(t)
  {
    RivalAgrees(s, b, t, changes, b');
    hide Conflicts, ParseUuid, WorkInv, PoolInv;
  }

  lemma IssuedCovers(s: State)
    requires Inv(s)
    ensures s.rows.Keys <= s.issued && forall b :: b in s.blocks ==> WritesOf(s, b).Keys <= s.issued
  {
  }

  lemma HomelyChanges(s: State, l: Label, t: Uuid)
    requires Inv(s) && l.action.Execute? && NewIds(l.action) !! s.issued && ParseUuid(l.tenantId) == Some(t)
    requires l.block in s.blocks && s.blocks[l.block].tenantId == l.tenantId
    requires Permitted(Changes(OwnView(s, l.block, t), l.action.statement), t)
    ensures Homely(s, l.block, t, Changes(OwnView(s, l.block, t), l.action.statement))
  {
    IssuedCovers(s);
    hide ParseUuid, Unique, PoolInv, WorkInv;
    BlockFacts(s, l.block);
    var statement, w := l.action.statement, WritesOf(s, l.block);
    assert statement.Insert? ==> statement.id in NewIds(l.action);
    ChangesOwned(s.rows, w, t, statement);
    forall i | i in Changes(OwnView(s, l.block, t), statement)
      ensures i in s.rows || i in w || i !in s.issued
    {
      assert statement.Insert? || i in OwnView(s, l.block, t);
    }
  }

  lemma RivalsBlock(s: State, l: Label, t: Uuid)
    requires Inv(s) && l.action.Execute? && NewIds(l.action) !! s.issued && ParseUuid(l.tenantId) == Some(t)
    requires l.block in s.blocks && s.blocks[l.block].tenantId == l.tenantId
    requires Permitted(Changes(OwnView(s, l.block, t), l.action.statement), t)
    ensures var own, statement := OwnView(s, l.block, t), l.action.statement;
            (exists r :: r in Rivals(s, l.block) && Conflicts(s.rows, Changes(own, statement), r)) <==>
            exists b :: b in s.blocks && b != l.block && ParseUuid(s.blocks[b].tenantId) == Some(t)
                        && Blocks(s.rows, WritesOf(s, b), own, statement)
  {
    hide Inv, OwnView, Changes, Conflicts, Blocks, Permitted, ParseUuid, WritesOf, Homely;
    var own, statement := OwnView(s, l.block, t), l.action.statement;
    HomelyChanges(s, l, t);
    forall b | b in s.blocks && b != l.block
      ensures Conflicts(s.rows, Changes(own, statement), WritesOf(s, b)) <==>
              ParseUuid(s.blocks[b].tenantId) == Some(t) && Blocks(s.rows, WritesOf(s, b), own, statement)
      ensures WritesOf(s, b) in Rivals(s, l.block)
    {
      RivalIsOwn(s, l.block, t, Changes(own, statement), b);
      BlocksExactly(s.rows, WritesOf(s, b), own, statement);
    }
    if r :| r in Rivals(s, l.block) && Conflicts(s.rows, Changes(own, statement), r) {
      var b :| b in s.blocks && b != l.block && r == WritesOf(s, b);
    }
  }

  lemma PerformWaits(rows: Tables, mine: Writes, visible: Tables, rivals: set<Writes>, t: Uuid, s: Statement)
    ensures Perform(rows, mine, visible, rivals, t, s).Wait? <==>
            !s.Select? && Permitted(Changes(visible, s), t) && exists r :: r in rivals && Conflicts(rows, Changes(visible, s), r)
  {
    hide Permitted, Conflicts, Clashes, View;
  }

  /** A statement of a body waits exactly when it is no SELECT, makes no row of another tenant, and another open block of
      the same tenant stands in its way: on a row, or on a declared key. */
  lemma WaitsExactlyWhen(s: State, l: Label, t: Uuid)
    requires Inv(s) && l.action.Execute? && NewIds(l.action) !! s.issued && ParseUuid(l.tenantId) == Some(t)
    requires l.block in s.blocks && s.blocks[l.block].tenantId == l.tenantId && s.blocks[l.block].phase == Scoped
    requires TxnOf(s, l.block).Some? && !TxnOf(s, l.block).value.failed
    ensures var own, statement := OwnView(s, l.block, t), l.action.statement;
            Next(s, l).Waits? <==>
              && !statement.Select? && !Strays(own, statement, t)
              && exists b :: b in s.blocks && b != l.block && ParseUuid(s.blocks[b].tenantId) == Some(t)
                             && Blocks(s.rows, WritesOf(s, b), own, statement)
  {
    BlockFacts(s, l.block);
    hide PoolInv, WorkInv, Next, Perform, Advanced, OwnView, Changes, Conflicts, Blocks, Strays, Permitted, ParseUuid, InPlace, AllOf, Unique;
    var own, statement := OwnView(s, l.block, t), l.action.statement;
    StepIsAdvance(s, l);
    ExecuteAdvances(s, l.block, t, statement);
    PerformWaits(s.rows, WritesOf(s, l.block), own, Rivals(s, l.block), t, statement);
    OwnViewFacts(s, l.block, t);
    StraysExactly(own, statement, t);
    PermittedExactlyWhen(own, t, statement);
    if Permitted(Changes(own, statement), t) {
      RivalsBlock(s, l, t);
    }
  }
}
