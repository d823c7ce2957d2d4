/** The two tenant tables, their row-security policies and unique keys, and the
    four granted statements, as values. The rows of both tables live in one map;
    the constructor of a row says which table it belongs to. */
module TenantTables {
  import opened Wrappers
  import opened Text

  type RowId = nat
  /** A uuid in its canonical text form: lower case, 8-4-4-4-12. */
  type Uuid = string

  datatype Table = Documents | Chunks

  datatype Row =
    | Document(tenant: Uuid, objectKey: string, contentHash: string, status: string,
               failureReason: Option<string>)
    | Chunk(tenant: Uuid, documentId: Uuid, chunkIndex: int, text: string,
            section: Option<string>, contentHash: string, embedding: seq<real>)

  /** The declared unique keys: (tenant_id, content_hash) and (tenant_id, document_id, chunk_index). */
  datatype Key =
    | DocumentKey(tenant: Uuid, contentHash: string)
    | ChunkKey(tenant: Uuid, documentId: Uuid, chunkIndex: int)

  type Tables = map<RowId, Row>

  /** The uncommitted work of one transaction: a new version of a row, or its deletion. */
  type Writes = map<RowId, Option<Row>>

  /** `where` and `assign` are arbitrary: they may consult every row the statement can see. */
  datatype Statement =
    | Select
    | Insert(id: RowId, row: Row)
    | Update(table: Table, where: (Tables, RowId) -> bool, assign: (Tables, Row) -> Row)
    | Delete(table: Table, where: (Tables, RowId) -> bool)

  function TableOf(row: Row): Table {
    if row.Document? then Documents else Chunks
  }

  function KeyOf(row: Row): Key {
    match row
    case Document(tenant, _, contentHash, _, _) => DocumentKey(tenant, contentHash)
    case Chunk(tenant, documentId, chunkIndex, _, _, _, _) => ChunkKey(tenant, documentId, chunkIndex)
  }

  // ---- The cast `current_setting('app.tenant_id')::uuid` -------------------------

  predicate HexDigit(c: char) {
    Digit(c) || 'a' <= c <= 'f' || 'A' <= c <= 'F'
  }

  predicate CanonicalFrom(text: string, i: nat)
    requires |text| == 36
    decreases 36 - i
  {
    i >= 36 ||
    ((if i == 8 || i == 13 || i == 18 || i == 23 then text[i] == '-' else HexDigit(text[i])) &&
     CanonicalFrom(text, i + 1))
  }

  /** None when the cast raises, in particular on the empty text. */
  function ParseUuid(text: string): Option<Uuid> {
    if |text| == 36 && CanonicalFrom(text, 0) then Some(Lower(text)) else None
  }

  // ---- Reading -------------------------------------------------------------------

  /** The committed rows as a transaction with pending work `w` sees them, before any policy. */
  function View(rows: Tables, w: Writes): Tables {
    map i | i in rows.Keys + w.Keys && (i in w ==> w[i].Some?) :: if i in w then w[i].value else rows[i]
  }

  /** The USING clause of both policies. */
  function Visible(rows: Tables, t: Uuid): Tables {
    map i | i in rows && rows[i].tenant == t :: rows[i]
  }

  // ---- Writing -------------------------------------------------------------------

  /** The rows a statement would write, chosen among the rows it can see. */
  function Changes(visible: Tables, s: Statement): Writes {
    match s
    case Select => map[]
    case Insert(id, row) => map[id := Some(row)]
    case Update(table, where, assign) =>
      map i | i in visible && TableOf(visible[i]) == table && where(visible, i)
        :: Some(assign(visible, visible[i]))
    case Delete(table, where) =>
      map i | i in visible && TableOf(visible[i]) == table && where(visible, i) :: None
  }

  /** The WITH CHECK clause of both policies, on every new row version. */
  predicate Permitted(changes: Writes, t: Uuid) {
    forall i | i in changes && changes[i].Some? :: changes[i].value.tenant == t
  }

  /** Pending work `w` keeps key `k` busy at row `i`: it gives the row that key or takes it away. */
  predicate HoldsKey(rows: Tables, w: Writes, i: RowId, k: Key) {
    i in w &&
    ((w[i].Some? && KeyOf(w[i].value) == k) || (i in rows && KeyOf(rows[i]) == k))
  }

  /** `changes` must wait for the transaction with pending work `w`: same row, or same unique key. */
  predicate Conflicts(rows: Tables, changes: Writes, w: Writes) {
    (exists i :: i in w && i in changes) ||
    (exists i, j :: i in w && j in changes && changes[j].Some? && HoldsKey(rows, w, i, KeyOf(changes[j].value)))
  }

  /** A row version of `changes` has the key of another row. The index ignores the policies. */
  predicate Clashes(view: Tables, changes: Writes) {
    exists i, j :: i in changes && i in view && j in view && i != j && KeyOf(view[i]) == KeyOf(view[j])
  }

  predicate Unique(rows: Tables) {
    forall i, j :: i in rows && j in rows && KeyOf(rows[i]) == KeyOf(rows[j]) ==> i == j
  }

  // ---- Facts about pending work --------------------------------------------------

  /** Every row that `w` touches belongs to `t`, before and after. */
  predicate OwnedBy(rows: Tables, w: Writes, t: Uuid) {
    forall i | i in w :: (w[i].Some? ==> w[i].value.tenant == t) && (i in rows ==> rows[i].tenant == t)
  }

  /** What holding locks guarantees about the pending work of two open transactions. */
  predicate Apart(rows: Tables, w: Writes, w': Writes) {
    (forall i :: i in w ==> i !in w') &&
    (forall i, j :: i in w && j in w' && w[i].Some? ==> !HoldsKey(rows, w', j, KeyOf(w[i].value)))
  }

  lemma KeyDeterminesTenant(a: Row, b: Row)
    requires KeyOf(a) == KeyOf(b)
    ensures a.tenant == b.tenant
  {
    assert KeyOf(a).tenant == a.tenant && KeyOf(b).tenant == b.tenant;
  }

  lemma EmptyOverlay(rows: Tables)
    ensures View(rows, map[]) == rows
  {
    assert View(rows, map[]) == rows;
  }

  /** Filtering after overlaying one's own work is overlaying one's own work on a private table. */
  lemma VisibleView(rows: Tables, w: Writes, t: Uuid)
    requires OwnedBy(rows, w, t)
    ensures Visible(View(rows, w), t) == View(Visible(rows, t), w)
  {
  }

  /** Nobody else's filtered rows change when the owner's work is laid over the table. */
  lemma VisibleOther(rows: Tables, w: Writes, t: Uuid, u: Uuid)
    requires OwnedBy(rows, w, t) && u != t
    ensures Visible(View(rows, w), u) == Visible(rows, u)
  {
  }

  /** A statement of `t` that passes WITH CHECK touches rows of `t` only. */
  lemma ChangesOwned(rows: Tables, w: Writes, t: Uuid, s: Statement)
    requires OwnedBy(rows, w, t)
    requires s.Insert? ==> s.id !in rows
    requires Permitted(Changes(Visible(View(rows, w), t), s), t)
    ensures OwnedBy(rows, Changes(Visible(View(rows, w), t), s), t)
    ensures OwnedBy(rows, w + Changes(Visible(View(rows, w), t), s), t)
  {
    var visible := Visible(View(rows, w), t);
    var changes := Changes(visible, s);
    forall i | i in changes && i in rows
      ensures rows[i].tenant == t
    {
      if i !in w && !s.Insert? {
        assert i in visible && visible[i] == rows[i];
      }
    }
  }

  lemma OverlayTwice(rows: Tables, w: Writes, changes: Writes)
    ensures View(rows, w + changes) == View(View(rows, w), changes)
  {
  }

  /** New work that neither waits nor clashes keeps the lock guarantees, both ways round. */
  lemma ApartAfterWrite(rows: Tables, w: Writes, changes: Writes, w': Writes)
    requires Apart(rows, w, w') && Apart(rows, w', w)
    requires !Conflicts(rows, changes, w')
    requires Unique(View(rows, w'))
    ensures Apart(rows, w + changes, w') && Apart(rows, w', w + changes)
  {
    var w2 := w + changes;
    forall i, j | i in w2 && j in w' && w2[i].Some?
      ensures !HoldsKey(rows, w', j, KeyOf(w2[i].value))
    {
      if i in changes { assert w2[i] == changes[i]; } else { assert w2[i] == w[i]; }
    }
    forall i, j | i in w' && j in w2 && w'[i].Some?
      ensures !HoldsKey(rows, w2, j, KeyOf(w'[i].value))
    {
      if j in changes {
        assert w2[j] == changes[j];
        var view := View(rows, w');
        assert i in view && view[i] == w'[i].value;
        assert j !in w';
        assert j in rows ==> j in view && view[j] == rows[j];
        assert changes[j].Some? ==> !HoldsKey(rows, w', i, KeyOf(changes[j].value));
      } else {
        assert w2[j] == w[j];
        assert !HoldsKey(rows, w, j, KeyOf(w'[i].value));
      }
    }
  }

  /** A statement that does not clash leaves the writer's own view free of duplicates. */
  lemma UniqueAfterWrite(rows: Tables, w: Writes, changes: Writes)
    requires Unique(View(rows, w))
    requires !Clashes(View(rows, w + changes), changes)
    ensures Unique(View(rows, w + changes))
  {
    var before, after := View(rows, w), View(rows, w + changes);
    forall i, j | i in after && j in after && KeyOf(after[i]) == KeyOf(after[j])
      ensures i == j
    {
      if i !in changes && j !in changes {
        assert i in before && j in before && before[i] == after[i] && before[j] == after[j];
      }
    }
  }

  /** Committing one transaction leaves the views of the others free of duplicates. */
  lemma UniqueAfterCommit(rows: Tables, w: Writes, w': Writes)
    requires Apart(rows, w, w') && Apart(rows, w', w)
    requires Unique(View(rows, w)) && Unique(View(rows, w'))
    ensures Unique(View(View(rows, w), w'))
  {
    var mine, theirs, after := View(rows, w), View(rows, w'), View(View(rows, w), w');
    forall i, j | i in after && j in after && i != j
      ensures KeyOf(after[i]) != KeyOf(after[j])
    {
      if i !in w' && j !in w' {
        assert i in mine && j in mine && mine[i] == after[i] && mine[j] == after[j];
      } else if i !in w && j !in w {
        assert i in theirs && j in theirs && theirs[i] == after[i] && theirs[j] == after[j];
      } else if i in w' {
        assert j in w && i !in w && j !in w';
        assert after[i] == w'[i].value && after[j] == w[j].value;
        assert !HoldsKey(rows, w', i, KeyOf(w[j].value));
      } else {
        assert i in w && j in w';
        assert after[j] == w'[j].value && after[i] == w[i].value;
        assert !HoldsKey(rows, w', j, KeyOf(w[i].value));
      }
    }
  }

  /** Committing one transaction keeps the lock guarantees between two others. */
  lemma ApartAfterCommit(rows: Tables, w: Writes, w1: Writes, w2: Writes)
    requires Apart(rows, w, w1) && Apart(rows, w, w2) && Apart(rows, w1, w2)
    ensures Apart(View(rows, w), w1, w2)
  {
    var after := View(rows, w);
    forall i, j | i in w1 && j in w2 && w1[i].Some?
      ensures !HoldsKey(after, w2, j, KeyOf(w1[i].value))
    {
      assert j !in w;
      assert j in after ==> j in rows && after[j] == rows[j];
      assert !HoldsKey(rows, w2, j, KeyOf(w1[i].value));
    }
  }

  lemma OwnedAfterCommit(rows: Tables, w: Writes, w': Writes, t: Uuid)
    requires Apart(rows, w, w') && OwnedBy(rows, w', t)
    ensures OwnedBy(View(rows, w), w', t)
  {
    forall i | i in w' && i in View(rows, w)
      ensures View(rows, w)[i].tenant == t
    {
      assert i !in w;
    }
  }

  /** Work of different tenants never waits for each other: rows and keys both name the tenant. */
  lemma StrangersDoNotConflict(rows: Tables, changes: Writes, t: Uuid, w: Writes, u: Uuid)
    requires t != u && OwnedBy(rows, changes, t) && OwnedBy(rows, w, u)
    requires forall i :: i in changes && i in w ==> i in rows
    ensures !Conflicts(rows, changes, w)
  {
    forall i, j | i in w && j in changes && changes[j].Some?
      ensures !HoldsKey(rows, w, i, KeyOf(changes[j].value))
    {
      if HoldsKey(rows, w, i, KeyOf(changes[j].value)) {
        if w[i].Some? && KeyOf(w[i].value) == KeyOf(changes[j].value) {
          KeyDeterminesTenant(w[i].value, changes[j].value);
        } else {
          KeyDeterminesTenant(rows[i], changes[j].value);
        }
      }
    }
  }
}
