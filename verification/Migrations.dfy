/** The versioned SQL files as statements over a schema catalog, and the runner that applies them. */
module Migrations {
  import opened Wrappers
  import TenantTables

  // ---- Catalog -------------------------------------------------------------------

  datatype Privilege = SELECT | INSERT | UPDATE | DELETE

  /** `tenant_id = (SELECT current_setting('app.tenant_id')::uuid)`, or any other expression. */
  datatype Clause = TenantIsSetting | OtherClause(text: string)

  /** FOR ALL TO app_user. */
  datatype Policy = Policy(using: Clause, check: Clause)

  /** `ordered`: the type has an order that a btree index can use. */
  datatype ColumnType = ColumnType(name: string, ordered: bool)

  datatype Shape = Shape(columns: map<string, ColumnType>, primaryKey: string, uniqueKey: seq<string>)

  /** `grants` are those of app_user. `rows` stands for the stored data, which no migration reads. */
  datatype Table = Table(shape: Shape, rowSecurity: bool, forced: bool,
                         policies: map<string, Policy>, grants: set<Privilege>, rows: seq<string>)

  datatype Index = Index(table: string, columns: seq<string>)

  /** The attributes that lift a role over row security. */
  datatype Role = Role(superuser: bool, bypassRls: bool)

  /** Tables and indexes share one name space. */
  datatype Catalog = Catalog(appUser: Option<Role>, connect: bool, usage: bool, vector: bool,
                             tables: map<string, Table>, indexes: map<string, Index>)

  const EMPTY := Catalog(None, false, false, false, map[], map[])
  const PLAIN := Role(false, false)

  // ---- Statements ----------------------------------------------------------------

  datatype Ddl =
    | CreateRoleIfMissing
    | GrantConnect
    | GrantUsage
    | CreateExtensionIfMissing
    | CreateTableIfMissing(table: string, shape: Shape)
    | CreateIndexIfMissing(table: string, index: string, columns: seq<string>)
    | EnableRowSecurity(table: string)
    | ForceRowSecurity(table: string)
    | DropPolicyIfExists(table: string, policy: string)
    | CreatePolicy(table: string, policy: string, definition: Policy)
    | Grant(table: string, privileges: set<Privilege>)

  datatype SchemaError = NoSuchRole | NoSuchTable | NoSuchType | NoSuchColumn | NoOrder | NoSuchOperator | PolicyExists

  function Alter(c: Catalog, table: string, t: Table): Catalog {
    c.(tables := c.tables[table := t])
  }

  predicate Named(shape: Shape, columns: seq<string>) {
    forall i :: 0 <= i < |columns| ==> columns[i] in shape.columns
  }

  /** A btree index over these columns is possible. */
  predicate Indexable(shape: Shape, columns: seq<string>) {
    Named(shape, columns) && forall i :: 0 <= i < |columns| ==> shape.columns[columns[i]].ordered
  }

  /** The isolation expression compares `tenant_id` with a uuid, and nothing but a uuid compares with one. */
  predicate Comparable(shape: Shape) {
    "tenant_id" in shape.columns && shape.columns["tenant_id"].name == "uuid"
  }

  function Apply(c: Catalog, d: Ddl): Result<Catalog, SchemaError> {
    match d
    case CreateRoleIfMissing => Ok(if c.appUser.Some? then c else c.(appUser := Some(PLAIN)))
    case GrantConnect => if c.appUser.Some? then Ok(c.(connect := true)) else Err(NoSuchRole)
    case GrantUsage => if c.appUser.Some? then Ok(c.(usage := true)) else Err(NoSuchRole)
    case CreateExtensionIfMissing => Ok(c.(vector := true))
    case CreateTableIfMissing(name, shape) =>
      if name in c.tables || name in c.indexes then Ok(c)
      else if VECTOR in shape.columns.Values && !c.vector then Err(NoSuchType)
      else Ok(Alter(c, name, Table(shape, false, false, map[], {}, [])))
    case CreateIndexIfMissing(name, index, columns) =>
      if name !in c.tables then Err(NoSuchTable)
      else if !Named(c.tables[name].shape, columns) then Err(NoSuchColumn)
      else if !Indexable(c.tables[name].shape, columns) then Err(NoOrder)
      else if index in c.tables || index in c.indexes then Ok(c)
      else Ok(c.(indexes := c.indexes[index := Index(name, columns)]))
    case EnableRowSecurity(name) =>
      if name !in c.tables then Err(NoSuchTable) else Ok(Alter(c, name, c.tables[name].(rowSecurity := true)))
    case ForceRowSecurity(name) =>
      if name !in c.tables then Err(NoSuchTable) else Ok(Alter(c, name, c.tables[name].(forced := true)))
    case DropPolicyIfExists(name, policy) =>
      if name !in c.tables then Err(NoSuchTable)
      else Ok(Alter(c, name, c.tables[name].(policies := c.tables[name].policies - {policy})))
    case CreatePolicy(name, policy, definition) =>
      if name !in c.tables then Err(NoSuchTable)
      else if c.appUser.None? then Err(NoSuchRole)
      else if definition == ISOLATION && "tenant_id" !in c.tables[name].shape.columns then Err(NoSuchColumn)
      else if definition == ISOLATION && !Comparable(c.tables[name].shape) then Err(NoSuchOperator)
      else if policy in c.tables[name].policies then Err(PolicyExists)
      else Ok(Alter(c, name, c.tables[name].(policies := c.tables[name].policies[policy := definition])))
    case Grant(name, privileges) =>
      if name !in c.tables then Err(NoSuchTable)
      else if c.appUser.None? then Err(NoSuchRole)
      else Ok(Alter(c, name, c.tables[name].(grants := c.tables[name].grants + privileges)))
  }

  /** The statements in order, up to the first error. */
  function Execute(c: Catalog, script: seq<Ddl>): Result<Catalog, SchemaError> {
    if script == [] then Ok(c)
    else
      var before := Execute(c, script[..|script| - 1]);
      if before.Err? then before else Apply(before.value, script[|script| - 1])
  }

  // ---- The four files ------------------------------------------------------------

  const ALL_PRIVILEGES := {SELECT, INSERT, UPDATE, DELETE}
  const ISOLATION := Policy(TenantIsSetting, TenantIsSetting)

  const UUID := ColumnType("uuid", true)
  const TEXT := ColumnType("text", true)
  const INT := ColumnType("int", true)
  const TIMESTAMPTZ := ColumnType("timestamptz", true)
  const VECTOR := ColumnType("vector(768)", true)

  const DOCUMENTS := Shape(
    map["id" := UUID, "tenant_id" := UUID, "object_key" := TEXT, "content_hash" := TEXT, "status" := TEXT,
        "failure_reason" := TEXT, "created_at" := TIMESTAMPTZ],
    "id", ["tenant_id", "content_hash"])

  const CHUNKS := Shape(
    map["id" := UUID, "tenant_id" := UUID, "document_id" := UUID, "chunk_index" := INT, "text" := TEXT,
        "section" := TEXT, "content_hash" := TEXT, "embedding" := VECTOR, "created_at" := TIMESTAMPTZ],
    "id", ["tenant_id", "document_id", "chunk_index"])

  const WIDGET_KEYS := Shape(
    map["key" := TEXT, "tenant_id" := TEXT, "allowed_hosts" := ColumnType("text[]", true)], "key", [])

  /** A tenant table as its file describes it. */
  datatype TenantTable = TenantTable(name: string, shape: Shape, index: string, indexed: seq<string>)

  const DOCUMENTS_TABLE := TenantTable("documents", DOCUMENTS, "documents_tenant_idx", ["tenant_id", "created_at"])
  const CHUNKS_TABLE := TenantTable("chunks", CHUNKS, "chunks_tenant_doc_idx", ["tenant_id", "document_id"])

  /** What 0002 and 0003 do to their table, in their order. */
  function TenantTableScript(d: TenantTable): seq<Ddl> {
    [CreateTableIfMissing(d.name, d.shape), CreateIndexIfMissing(d.name, d.index, d.indexed),
     EnableRowSecurity(d.name), ForceRowSecurity(d.name), DropPolicyIfExists(d.name, "tenant_isolation"),
     CreatePolicy(d.name, "tenant_isolation", ISOLATION), Grant(d.name, ALL_PRIVILEGES)]
  }

  function File0001(): seq<Ddl> {
    [CreateRoleIfMissing, GrantConnect, GrantUsage]
  }

  function File0002(): seq<Ddl> {
    TenantTableScript(DOCUMENTS_TABLE)
  }

  function File0003(): seq<Ddl> {
    [CreateExtensionIfMissing] + TenantTableScript(CHUNKS_TABLE)
  }

  function File0004(): seq<Ddl> {
    [CreateTableIfMissing("widget_keys", WIDGET_KEYS), Grant("widget_keys", {SELECT})]
  }

  function Script(): (r: seq<Ddl>)
    ensures |r| == 20
  {
    File0001() + File0002() + File0003() + File0004()
  }

  // ---- What every reachable schema satisfies -------------------------------------

  /** No row of a tenant table can reach app_user except through the isolation policy: if app_user has any
      grant, row security is on and forced, and there is no policy but that one. */
  predicate Closed(t: Table) {
    (t.grants != {} ==> t.rowSecurity && t.forced)
    && (forall p :: p in t.policies ==> p == "tenant_isolation" && t.policies[p] == ISOLATION)
  }

  predicate TenantTableInv(t: Table, shape: Shape) {
    Closed(t) && t.shape == shape && t.grants <= ALL_PRIVILEGES
  }

  predicate WidgetTableInv(t: Table) {
    t.shape == WIDGET_KEYS && !t.rowSecurity && !t.forced && t.policies == map[] && t.grants <= {SELECT}
  }

  /** Only the two indexes of the files, each on its own table. */
  predicate IndexInv(indexes: map<string, Index>) {
    && indexes.Keys <= {DOCUMENTS_TABLE.index, CHUNKS_TABLE.index}
    && (DOCUMENTS_TABLE.index in indexes ==> indexes[DOCUMENTS_TABLE.index] == Index("documents", DOCUMENTS_TABLE.indexed))
    && (CHUNKS_TABLE.index in indexes ==> indexes[CHUNKS_TABLE.index] == Index("chunks", CHUNKS_TABLE.indexed))
  }

  predicate Inv(c: Catalog) {
    && c.tables.Keys <= {"documents", "chunks", "widget_keys"}
    && (c.appUser.Some? ==> c.appUser.value == PLAIN)
    && IndexInv(c.indexes)
    && ("documents" in c.tables ==> TenantTableInv(c.tables["documents"], DOCUMENTS))
    && ("chunks" in c.tables ==> TenantTableInv(c.tables["chunks"], CHUNKS))
    && ("widget_keys" in c.tables ==> WidgetTableInv(c.tables["widget_keys"]))
  }

  /** What the first `k` statements of a tenant table's script have established. */
  predicate TableProgress(c: Catalog, d: TenantTable, k: int) {
    k >= 1 ==>
      d.name in c.tables && var t := c.tables[d.name];
      && (k >= 2 ==> d.index in c.indexes)
      && (k >= 3 ==> t.rowSecurity)
      && (k >= 4 ==> t.forced)
      && (k == 5 ==> "tenant_isolation" !in t.policies)
      && (k >= 6 ==> t.policies == map["tenant_isolation" := ISOLATION])
      && (k >= 7 ==> t.grants == ALL_PRIVILEGES)
  }

  /** What the first `k` statements of the whole script have established. */
  predicate Progress(c: Catalog, k: nat) {
    && (k >= 1 ==> c.appUser.Some?) && (k >= 2 ==> c.connect) && (k >= 3 ==> c.usage)
    && TableProgress(c, DOCUMENTS_TABLE, k - 3)
    && (k >= 11 ==> c.vector)
    && TableProgress(c, CHUNKS_TABLE, k - 11)
    && (k >= 19 ==> "widget_keys" in c.tables)
    && (k >= 20 ==> c.tables["widget_keys"].grants == {SELECT})
  }

  /** No table and no row is lost, and new tables start empty. */
  predicate KeepsRows(c: Catalog, c': Catalog) {
    c.tables.Keys <= c'.tables.Keys &&
    forall n :: n in c'.tables ==> c'.tables[n].rows == if n in c.tables then c.tables[n].rows else []
  }

  function StatementAt(k: nat): Ddl
    requires k < 20
  {
    if k == 0 then CreateRoleIfMissing
    else if k == 1 then GrantConnect
    else if k == 2 then GrantUsage
    else if k < 10 then TenantTableScript(DOCUMENTS_TABLE)[k - 3]
    else if k == 10 then CreateExtensionIfMissing
    else if k < 18 then TenantTableScript(CHUNKS_TABLE)[k - 11]
    else if k == 18 then CreateTableIfMissing("widget_keys", WIDGET_KEYS)
    else Grant("widget_keys", {SELECT})
  }

  lemma ScriptAt(k: nat)
    requires k < 20
    ensures Script()[k] == StatementAt(k)
  {
  }

  predicate TenantTableAdvances(c: Catalog, s: Ddl, d: TenantTable, k: nat) {
    var r := Apply(c, s);
    && r.Ok? && TableProgress(r.value, d, k + 1)
    && d.name in r.value.tables && TenantTableInv(r.value.tables[d.name], d.shape)
    && r.value == c.(tables := c.tables[d.name := r.value.tables[d.name]], indexes := r.value.indexes)
    && (r.value.indexes == c.indexes || r.value.indexes == c.indexes[d.index := Index(d.name, d.indexed)])
    && KeepsRows(c, r.value)
  }

  /** What a reachable schema offers to the script of a tenant table. */
  predicate Ready(c: Catalog, d: TenantTable) {
    && (d.name in c.tables ==> TenantTableInv(c.tables[d.name], d.shape))
    && d.name !in c.indexes && d.index !in c.tables && c.appUser.Some?
    && Indexable(d.shape, d.indexed) && Comparable(d.shape)
    && (VECTOR in d.shape.columns.Values ==> c.vector)
  }

  lemma CreateAdvances(c: Catalog, d: TenantTable)
    requires Ready(c, d)
    ensures TenantTableAdvances(c, CreateTableIfMissing(d.name, d.shape), d, 0)
  {
    assert d.name in c.tables ==> c.tables[d.name := c.tables[d.name]] == c.tables;
  }

  lemma PolicyAdvances(c: Catalog, d: TenantTable, s: Ddl, k: nat)
    requires Ready(c, d) && d.name in c.tables && TableProgress(c, d, k)
    requires (k == 4 && s == DropPolicyIfExists(d.name, "tenant_isolation"))
             || (k == 5 && s == CreatePolicy(d.name, "tenant_isolation", ISOLATION))
    ensures TenantTableAdvances(c, s, d, k)
  {
    assert k == 5 ==> c.tables[d.name].policies == map[];
  }

  lemma IndexAdvances(c: Catalog, d: TenantTable)
    requires Ready(c, d) && d.name in c.tables && TableProgress(c, d, 1)
    ensures TenantTableAdvances(c, CreateIndexIfMissing(d.name, d.index, d.indexed), d, 1)
  {
    assert c.tables[d.name := c.tables[d.name]] == c.tables;
  }

  lemma FlagAdvances(c: Catalog, d: TenantTable, s: Ddl, k: nat)
    requires Ready(c, d) && d.name in c.tables && TableProgress(c, d, k)
    requires (k == 2 && s == EnableRowSecurity(d.name)) || (k == 3 && s == ForceRowSecurity(d.name))
             || (k == 6 && s == Grant(d.name, ALL_PRIVILEGES))
    ensures TenantTableAdvances(c, s, d, k)
  {
  }

  /** One statement of a tenant table's script, wherever an earlier run may have stopped. */
  lemma TenantTableStep(c: Catalog, d: TenantTable, k: nat)
    requires k < 7 && TableProgress(c, d, k) && Ready(c, d)
    ensures TenantTableAdvances(c, TenantTableScript(d)[k], d, k)
  {
    var s := TenantTableScript(d)[k];
    assert k > 0 ==> d.name in c.tables;
    hide TenantTableAdvances, Ready, TableProgress;
    if k == 0 {
      CreateAdvances(c, d);
    } else if k == 1 {
      IndexAdvances(c, d);
    } else if k == 4 || k == 5 {
      PolicyAdvances(c, d, s, k);
    } else {
      FlagAdvances(c, d, s, k);
    }
  }

  predicate Advances(c: Catalog, d: Ddl, k: nat) {
    var r := Apply(c, d);
    r.Ok? && Inv(r.value) && Progress(r.value, k + 1) && KeepsRows(c, r.value)
  }

  lemma BothReady(c: Catalog)
    requires Inv(c) && c.appUser.Some?
    ensures Ready(c, DOCUMENTS_TABLE)
    ensures c.vector ==> Ready(c, CHUNKS_TABLE)
  {
    hide TenantTableInv;
  }

  lemma DocumentsStep(c: Catalog, k: nat)
    requires 3 <= k < 10 && Inv(c) && Progress(c, k)
    ensures Advances(c, TenantTableScript(DOCUMENTS_TABLE)[k - 3], k)
  {
    hide TenantTableScript, Apply, Ready, TenantTableInv, WidgetTableInv, KeepsRows;
    BothReady(c);
    TenantTableStep(c, DOCUMENTS_TABLE, k - 3);
  }

  lemma ChunksStep(c: Catalog, k: nat)
    requires 11 <= k < 18 && Inv(c) && Progress(c, k)
    ensures Advances(c, TenantTableScript(CHUNKS_TABLE)[k - 11], k)
  {
    hide TenantTableScript, Apply, Ready, TenantTableInv, WidgetTableInv, KeepsRows;
    BothReady(c);
    TenantTableStep(c, CHUNKS_TABLE, k - 11);
  }

  lemma RoleStep(c: Catalog, k: nat)
    requires k < 3 && Inv(c) && Progress(c, k)
    ensures Advances(c, [CreateRoleIfMissing, GrantConnect, GrantUsage][k], k)
  {
    hide TenantTableInv, WidgetTableInv, IndexInv;
  }

  lemma ExtensionStep(c: Catalog)
    requires Inv(c) && Progress(c, 10)
    ensures Advances(c, CreateExtensionIfMissing, 10)
  {
    hide TenantTableInv, WidgetTableInv, IndexInv;
  }

  lemma KeysStep(c: Catalog, k: nat)
    requires (k == 18 || k == 19) && Inv(c) && Progress(c, k)
    ensures Advances(c, if k == 18 then CreateTableIfMissing("widget_keys", WIDGET_KEYS) else Grant("widget_keys", {SELECT}), k)
  {
    hide TenantTableInv;
  }

  lemma StepKeeps(c: Catalog, k: nat)
    requires k < 20 && Inv(c) && Progress(c, k)
    ensures Advances(c, StatementAt(k), k)
  {
    hide Inv, Progress, Advances, TenantTableScript;
    if k < 3 {
      RoleStep(c, k);
    } else if k < 10 {
      DocumentsStep(c, k);
    } else if k == 10 {
      ExtensionStep(c);
    } else if k < 18 {
      ChunksStep(c, k);
    } else {
      KeysStep(c, k);
    }
  }

  lemma ExecuteOneMore(c: Catalog, script: seq<Ddl>, d: Ddl)
    ensures Execute(c, script + [d]) ==
            if Execute(c, script).Err? then Execute(c, script) else Apply(Execute(c, script).value, d)
  {
    assert (script + [d])[..|script + [d]| - 1] == script;
  }

  lemma NothingYet(c: Catalog)
    ensures Progress(c, 0) && KeepsRows(c, c)
  {
  }

  /** A run cut off after any statement found everything it named, and left the schema closed. */
  lemma {:induction false} CutOffRun(c: Catalog, k: nat)
    requires k <= 20 && Inv(c)
    ensures var r := Execute(c, Script()[..k]);
            r.Ok? && Inv(r.value) && Progress(r.value, k) && KeepsRows(c, r.value)
  {
    NothingYet(c);
    hide Inv, Progress, Script, StatementAt;
    if k > 0 {
      CutOffRun(c, k - 1);
      StepKeeps(Execute(c, Script()[..k - 1]).value, k - 1);
      ScriptAt(k - 1);
      ExecuteOneMore(c, Script()[..k - 1], Script()[k - 1]);
      assert Script()[..k] == Script()[..k - 1] + [Script()[k - 1]];
    }
  }

  // ---- Histories -----------------------------------------------------------------

  /** A run that gets through `statements` statements before it is cut off, or application traffic
      that changes the rows of one table. */
  datatype Event = RunUntil(statements: nat) | Traffic(table: string, rows: seq<string>)

  function Replay(events: seq<Event>): Result<Catalog, SchemaError> {
    if events == [] then Ok(EMPTY)
    else
      var before := Replay(events[..|events| - 1]);
      if before.Err? then before
      else
        match events[|events| - 1]
        case RunUntil(n) => Execute(before.value, Script()[..if n < 20 then n else 20])
        case Traffic(table, rows) =>
          if table in before.value.tables then
            Ok(Alter(before.value, table, before.value.tables[table].(rows := rows)))
          else before
  }

  lemma TrafficKeepsInv(c: Catalog, table: string, rows: seq<string>)
    requires Inv(c) && table in c.tables
    ensures Inv(Alter(c, table, c.tables[table].(rows := rows)))
  {
  }

  lemma {:induction false} ReplayInv(events: seq<Event>)
    ensures Replay(events).Ok? && Inv(Replay(events).value)
  {
    if events == [] {
    } else {
      var before, e := events[..|events| - 1], events[|events| - 1];
      ReplayInv(before);
      hide Inv, Script, Execute;
      match e
      case RunUntil(n) => CutOffRun(Replay(before).value, if n < 20 then n else 20);
      case Traffic(table, rows) =>
        if table in Replay(before).value.tables { TrafficKeepsInv(Replay(before).value, table, rows); }
    }
  }

  /** From the empty database, after any number of complete and cut-off runs with traffic in between, no statement
      has failed, both tenant tables are closed to app_user except through the isolation policy, app_user itself is
      under the policies, and the key table can only be read. */
  lemma ClosedAtEveryPoint(events: seq<Event>)
    ensures Replay(events).Ok? && Inv(Replay(events).value)
    ensures var c := Replay(events).value;
            && (forall n :: n in c.tables && n != "widget_keys" ==> Sealed(c, c.tables[n]))
            && ("widget_keys" in c.tables ==> c.tables["widget_keys"].grants <= {SELECT})
            && (forall n :: n in c.tables && n != "widget_keys" && c.tables[n].grants != {} ==>
                  && c.tables[n].rowSecurity && c.tables[n].forced
                  && forall p :: p in c.tables[n].policies ==>
                       p == "tenant_isolation" && c.tables[n].policies[p].using.TenantIsSetting?
                       && c.tables[n].policies[p].check.TenantIsSetting?)
  {
    ReplayInv(events);
    hide Replay;
  }

  /** The isolation expression admits the rows of the tenant that the setting, cast to uuid, names. Another
      expression might admit anything. */
  predicate Admits(cl: Clause, setting: Option<string>, tenant: TenantTables.Uuid) {
    cl.TenantIsSetting? ==> Names(setting, tenant)
  }

  predicate Names(setting: Option<string>, tenant: TenantTables.Uuid) {
    setting.Some? && TenantTables.ParseUuid(setting.value) == Some(tenant)
  }

  /** app_user, with the given `app.tenant_id`, may touch a row of `tenant` that a clause of this kind guards. Without
      row security a grant is enough; with it some policy must admit the row, unless the role is above the policies. */
  predicate Passes(c: Catalog, t: Table, granted: bool, clause: Policy -> Clause, setting: Option<string>, tenant: TenantTables.Uuid) {
    c.appUser.Some? &&
    (c.appUser.value.superuser ||
     (granted && (c.appUser.value.bypassRls || !t.rowSecurity ||
                  exists p :: p in t.policies && Admits(clause(t.policies[p]), setting, tenant))))
  }

  /** It can read, change or delete a row of `tenant`. */
  predicate Reaches(c: Catalog, t: Table, setting: Option<string>, tenant: TenantTables.Uuid) {
    Passes(c, t, SELECT in t.grants || UPDATE in t.grants || DELETE in t.grants, (p: Policy) => p.using, setting, tenant)
  }

  /** It can leave behind a row of `tenant`. */
  predicate Leaves(c: Catalog, t: Table, setting: Option<string>, tenant: TenantTables.Uuid) {
    Passes(c, t, INSERT in t.grants || UPDATE in t.grants, (p: Policy) => p.check, setting, tenant)
  }

  /** No tenant row gets past the isolation policy. */
  predicate Sealed(c: Catalog, t: Table) {
    Closed(t) && (c.appUser.Some? ==> c.appUser.value == PLAIN)
  }

  /** What sealing is for. */
  lemma SealedAdmitsOwnRowsOnly(c: Catalog, t: Table, setting: Option<string>, tenant: TenantTables.Uuid)
    requires Sealed(c, t)
    ensures Reaches(c, t, setting, tenant) || Leaves(c, t, setting, tenant) ==> Names(setting, tenant)
  {
  }

  /** At no point of any history can app_user reach or leave a tenant row that its setting does not name. */
  lemma OnlyOwnRowsAtEveryPoint(events: seq<Event>, n: string, setting: Option<string>, tenant: TenantTables.Uuid)
    requires Replay(events).Ok? && n in Replay(events).value.tables && n != "widget_keys"
    ensures var c := Replay(events).value;
            Reaches(c, c.tables[n], setting, tenant) || Leaves(c, c.tables[n], setting, tenant) ==> Names(setting, tenant)
  {
    hide Inv, Replay, Sealed, Reaches, Leaves, Names;
    ClosedAtEveryPoint(events);
    SealedAdmitsOwnRowsOnly(Replay(events).value, Replay(events).value.tables[n], setting, tenant);
  }

  /** And once a run has got through it holds the four privileges, reaches all of those rows and can leave all of them:
      the policy in force is the one that filters the rows a transaction sees. */
  lemma OwnRowsAfterAFullRun(events: seq<Event>, n: string, setting: Option<string>, rows: TenantTables.Tables, i: TenantTables.RowId)
    requires i in rows && (n == "documents" || n == "chunks")
    ensures Replay(events + [RunUntil(20)]).Ok? && n in Replay(events + [RunUntil(20)]).value.tables
    ensures var c := Replay(events + [RunUntil(20)]).value;
            Reaches(c, c.tables[n], setting, rows[i].tenant) <==>
            setting.Some? && TenantTables.ParseUuid(setting.value).Some?
            && i in TenantTables.Visible(rows, TenantTables.ParseUuid(setting.value).value)
    ensures var c := Replay(events + [RunUntil(20)]).value;
            && c.tables[n].grants == {SELECT, INSERT, UPDATE, DELETE}
            && forall tenant :: Leaves(c, c.tables[n], setting, tenant) <==> Names(setting, tenant)
  {
    hide Execute, Script, Replay, Inv;
    FullRunIsAnEvent(events);
    var c := Replay(events + [RunUntil(20)]).value;
    forall tenant
      ensures Reaches(c, c.tables[n], setting, tenant) <==> Names(setting, tenant)
      ensures Leaves(c, c.tables[n], setting, tenant) <==> Names(setting, tenant)
      ensures c.tables[n].grants == {SELECT, INSERT, UPDATE, DELETE}
    {
      FinalReaches(RowsIn(Replay(events).value, "documents"), RowsIn(Replay(events).value, "chunks"),
                   RowsIn(Replay(events).value, "widget_keys"), n, setting, tenant);
    }
    hide Reaches, Leaves, Final;
  }

  lemma FullRunIsAnEvent(events: seq<Event>)
    ensures Replay(events).Ok?
    ensures var c := Replay(events).value;
            Replay(events + [RunUntil(20)]) == Ok(Final(RowsIn(c, "documents"), RowsIn(c, "chunks"), RowsIn(c, "widget_keys")))
  {
    var all := events + [RunUntil(20)];
    FullRunConverges(events);
    assert all[..|all| - 1] == events && Script()[..20] == Script();
    hide Execute, Script, Final;
  }

  lemma FinalReaches(d: seq<string>, k: seq<string>, w: seq<string>, n: string, setting: Option<string>, tenant: TenantTables.Uuid)
    requires n == "documents" || n == "chunks"
    ensures Reaches(Final(d, k, w), Final(d, k, w).tables[n], setting, tenant) <==> Names(setting, tenant)
    ensures Leaves(Final(d, k, w), Final(d, k, w).tables[n], setting, tenant) <==> Names(setting, tenant)
    ensures Final(d, k, w).tables[n].grants == {SELECT, INSERT, UPDATE, DELETE}
  {
    var t := Final(d, k, w).tables[n];
    assert "tenant_isolation" in t.policies && t.policies["tenant_isolation"] == ISOLATION;
    hide Names;
  }

  function RowsIn(c: Catalog, name: string): seq<string> {
    if name in c.tables then c.tables[name].rows else []
  }

  /** The schema that the files describe. */
  function Final(documents: seq<string>, chunks: seq<string>, keys: seq<string>): Catalog {
    Catalog(Some(PLAIN), true, true, true,
            map["documents" := Table(DOCUMENTS, true, true, map["tenant_isolation" := ISOLATION], ALL_PRIVILEGES, documents),
                "chunks" := Table(CHUNKS, true, true, map["tenant_isolation" := ISOLATION], ALL_PRIVILEGES, chunks),
                "widget_keys" := Table(WIDGET_KEYS, false, false, map[], {SELECT}, keys)],
            map["documents_tenant_idx" := Index("documents", ["tenant_id", "created_at"]),
                "chunks_tenant_doc_idx" := Index("chunks", ["tenant_id", "document_id"])])
  }

  /** A full run ends in that schema from wherever earlier runs stopped, with every row still there. */
  lemma FullRunConverges(events: seq<Event>)
    ensures Replay(events).Ok?
    ensures var c := Replay(events).value;
            Execute(c, Script()) == Ok(Final(RowsIn(c, "documents"), RowsIn(c, "chunks"), RowsIn(c, "widget_keys")))
  {
    ClosedAtEveryPoint(events);
    ReachedFits(Replay(events).value);
    FullRunOnAny(Replay(events).value);
    hide Execute, Script, Replay, Final, Migrated, Fits, Inv;
  }

  lemma ReachedTable(t: Table, shape: Shape)
    requires TenantTableInv(t, shape)
    ensures Secured(t) == Table(shape, true, true, map["tenant_isolation" := ISOLATION], ALL_PRIVILEGES, t.rows)
  {
    assert Secured(t).policies == map["tenant_isolation" := ISOLATION];
  }

  lemma ReachedTables(c: Catalog)
    requires Inv(c)
    ensures Secured(BaseTable(c, "documents", DOCUMENTS))
            == Table(DOCUMENTS, true, true, map["tenant_isolation" := ISOLATION], ALL_PRIVILEGES, RowsIn(c, "documents"))
    ensures Secured(BaseTable(c, "chunks", CHUNKS))
            == Table(CHUNKS, true, true, map["tenant_isolation" := ISOLATION], ALL_PRIVILEGES, RowsIn(c, "chunks"))
  {
    hide Secured;
    ReachedTable(BaseTable(c, "documents", DOCUMENTS), DOCUMENTS);
    ReachedTable(BaseTable(c, "chunks", CHUNKS), CHUNKS);
  }

  lemma ReachedIndexes(c: Catalog)
    requires Inv(c)
    ensures Migrated(c).indexes == Final([], [], []).indexes
  {
    hide Secured, TenantTableInv, WidgetTableInv, BaseTable;
  }

  lemma ReachedFits(c: Catalog)
    requires Inv(c)
    ensures Fits(c)
    ensures Migrated(c) == Final(RowsIn(c, "documents"), RowsIn(c, "chunks"), RowsIn(c, "widget_keys"))
  {
    hide Secured, Migrated, Comparable, Indexable, Closed;
    MigratedTables(c);
    ReachedTables(c);
    ReachedIndexes(c);
    FilesFit();
    var m, f := Migrated(c), Final(RowsIn(c, "documents"), RowsIn(c, "chunks"), RowsIn(c, "widget_keys"));
    assert m.tables["widget_keys"] == f.tables["widget_keys"];
    assert m.tables["documents"] == f.tables["documents"] && m.tables["chunks"] == f.tables["chunks"];
    assert m.tables == f.tables;
  }

  /** A second full run changes nothing. */
  lemma SecondRunChangesNothing(events: seq<Event>)
    ensures Replay(events).Ok?
    ensures var first := Execute(Replay(events).value, Script());
            first.Ok? && Execute(first.value, Script()) == first
  {
    var again := events + [RunUntil(20)];
    FullRunConverges(events);
    FullRunConverges(again);
    assert again[..|again| - 1] == events && Script()[..20] == Script();
  }

  // ---- Databases the files did not build -----------------------------------------

  lemma {:induction false} ExecuteAppend(c: Catalog, first: seq<Ddl>, second: seq<Ddl>)
    requires Execute(c, first).Ok?
    ensures Execute(c, first + second) == Execute(Execute(c, first).value, second)
  {
    if second == [] {
      assert first + second == first;
    } else {
      var n := |second| - 1;
      ExecuteAppend(c, first, second[..n]);
      ExecuteOneMore(c, first + second[..n], second[n]);
      assert first + second[..n] + [second[n]] == first + second;
    }
  }

  lemma {:induction false} PrefixSucceeds(c: Catalog, sql: seq<Ddl>, k: nat)
    requires k <= |sql| && Execute(c, sql).Ok?
    ensures Execute(c, sql[..k]).Ok?
    decreases |sql|
  {
    if k < |sql| {
      assert sql[..|sql| - 1][..k] == sql[..k];
      PrefixSucceeds(c, sql[..|sql| - 1], k);
    } else {
      assert sql[..k] == sql;
    }
  }

  function BaseTable(c: Catalog, name: string, shape: Shape): Table {
    if name in c.tables then c.tables[name] else Table(shape, false, false, map[], {}, [])
  }

  /** The script of a tenant table can work with what it finds: no index has taken the table's name, and a table that
      is already there has the columns of the index and a uuid for a tenant. */
  predicate TenantTableFits(c: Catalog, d: TenantTable) {
    if d.name in c.tables then Indexable(c.tables[d.name].shape, d.indexed) && Comparable(c.tables[d.name].shape)
    else d.name !in c.indexes
  }

  predicate Fits(c: Catalog) {
    TenantTableFits(c, DOCUMENTS_TABLE) && TenantTableFits(c, CHUNKS_TABLE)
    && ("widget_keys" in c.tables || "widget_keys" !in c.indexes)
  }

  /** What a tenant table's script makes of whatever table it finds. */
  function Secured(t: Table): Table {
    t.(rowSecurity := true, forced := true,
       policies := (t.policies - {"tenant_isolation"})["tenant_isolation" := ISOLATION], grants := t.grants + ALL_PRIVILEGES)
  }

  /** The table after the first `k` statements. */
  function Stage(t: Table, k: nat): Table {
    t.(rowSecurity := t.rowSecurity || k >= 3,
       forced := t.forced || k >= 4,
       policies := if k >= 6 then (t.policies - {"tenant_isolation"})["tenant_isolation" := ISOLATION]
                   else if k == 5 then t.policies - {"tenant_isolation"} else t.policies,
       grants := if k >= 7 then t.grants + ALL_PRIVILEGES else t.grants)
  }

  function WithIndex(c: Catalog, d: TenantTable): Catalog {
    if d.index in c.tables || d.index in c.indexes then c
    else c.(indexes := c.indexes[d.index := Index(d.name, d.indexed)])
  }

  function WithTenantTable(c: Catalog, d: TenantTable): Catalog {
    Alter(WithIndex(c, d), d.name, Secured(BaseTable(c, d.name, d.shape)))
  }

  function WithRole(c: Catalog): Catalog {
    c.(appUser := if c.appUser.Some? then c.appUser else Some(PLAIN), connect := true, usage := true)
  }

  function WithKeys(c: Catalog): Catalog {
    var t := BaseTable(c, "widget_keys", WIDGET_KEYS);
    Alter(c, "widget_keys", t.(grants := t.grants + {SELECT}))
  }

  /** A database after a full run over it. */
  function Migrated(c: Catalog): Catalog {
    WithKeys(WithTenantTable(WithTenantTable(WithRole(c), DOCUMENTS_TABLE).(vector := true), CHUNKS_TABLE))
  }

  /** Table and index. */
  lemma FirstTwo(c: Catalog, d: TenantTable)
    requires d.name != d.index && (VECTOR in d.shape.columns.Values ==> c.vector) && Indexable(d.shape, d.indexed)
    ensures var r, t := Execute(c, TenantTableScript(d)[..2]), BaseTable(c, d.name, d.shape);
            if (d.name in c.tables || d.name !in c.indexes) && Indexable(t.shape, d.indexed)
            then r == Ok(Alter(WithIndex(c, d), d.name, t)) else r.Err?
  {
    hide Secured;
    var ds, t := TenantTableScript(d), BaseTable(c, d.name, d.shape);
    assert ds[..2] == [ds[0]] + [ds[1]] && [] + [ds[0]] == [ds[0]];
    assert Execute(c, []) == Ok(c);
    ExecuteOneMore(c, [], ds[0]);
    ExecuteOneMore(c, [ds[0]], ds[1]);
    hide Execute;
    assert d.name in c.tables ==> c.tables[d.name := t] == c.tables && WithIndex(c, d).tables[d.name := t] == c.tables;
  }

  lemma StageStep(b: Catalog, d: TenantTable, t: Table, k: nat)
    requires 2 <= k < 7 && b.appUser.Some?
    ensures Apply(Alter(b, d.name, Stage(t, k)), TenantTableScript(d)[k])
            == if k == 5 && "tenant_id" !in t.shape.columns then Err(NoSuchColumn)
               else if k == 5 && !Comparable(t.shape) then Err(NoSuchOperator)
               else Ok(Alter(b, d.name, Stage(t, k + 1)))
  {
    var c := Alter(b, d.name, Stage(t, k));
    assert forall t' :: Alter(c, d.name, t') == Alter(b, d.name, t');
  }

  lemma {:induction false} StagesFollow(c: Catalog, d: TenantTable, b: Catalog, t: Table, k: nat)
    requires 2 <= k <= 7 && b.appUser.Some?
    requires Execute(c, TenantTableScript(d)[..2]) == Ok(Alter(b, d.name, t))
    ensures var r := Execute(c, TenantTableScript(d)[..k]);
            if k <= 5 || Comparable(t.shape) then r == Ok(Alter(b, d.name, Stage(t, k))) else r.Err?
  {
    assert Stage(t, 2) == t;
    hide Stage, Alter, Comparable;
    if k > 2 {
      var ds := TenantTableScript(d);
      StagesFollow(c, d, b, t, k - 1);
      StageStep(b, d, t, k - 1);
      ExecuteOneMore(c, ds[..k - 1], ds[k - 1]);
      assert ds[..k - 1] + [ds[k - 1]] == ds[..k];
      HasTenant(t.shape);
    }
  }

  lemma HasTenant(shape: Shape)
    ensures "tenant_id" !in shape.columns ==> !Comparable(shape)
  {
  }

  /** The script of a tenant table gets through exactly on what fits, and secures it. */
  lemma TenantScriptOnAny(c: Catalog, d: TenantTable)
    requires c.appUser.Some? && (VECTOR in d.shape.columns.Values ==> c.vector)
    requires d.name != d.index && Indexable(d.shape, d.indexed) && Comparable(d.shape)
    ensures if TenantTableFits(c, d) then Execute(c, TenantTableScript(d)) == Ok(WithTenantTable(c, d))
            else Execute(c, TenantTableScript(d)).Err?
  {
    var t, ds := BaseTable(c, d.name, d.shape), TenantTableScript(d);
    FirstTwo(c, d);
    assert ds[..7] == ds;
    if Execute(c, ds[..2]).Ok? {
      StagesFollow(c, d, WithIndex(c, d), t, 7);
      assert Stage(t, 7) == Secured(t);
    } else if Execute(c, ds).Ok? {
      PrefixSucceeds(c, ds, 2);
    }
    hide Execute, Alter, TenantTableScript, Stage, Secured;
  }

  lemma RolesApply(c: Catalog)
    ensures var one := Apply(c, CreateRoleIfMissing);
            one.Ok? && Apply(one.value, GrantConnect).Ok?
            && Apply(Apply(one.value, GrantConnect).value, GrantUsage) == Ok(WithRole(c))
  {
  }

  lemma RolesOnAny(c: Catalog)
    ensures Execute(c, File0001()) == Ok(WithRole(c))
  {
    assert Execute(c, []) == Ok(c);
    hide Execute, Apply, WithRole;
    RolesApply(c);
    ExecuteOneMore(c, [], CreateRoleIfMissing);
    assert [] + [CreateRoleIfMissing] == [CreateRoleIfMissing];
    ExecuteOneMore(c, [CreateRoleIfMissing], GrantConnect);
    assert [CreateRoleIfMissing] + [GrantConnect] == [CreateRoleIfMissing, GrantConnect];
    ExecuteOneMore(c, [CreateRoleIfMissing, GrantConnect], GrantUsage);
    assert [CreateRoleIfMissing, GrantConnect] + [GrantUsage] == File0001();
  }

  lemma VectorOnAny(c: Catalog)
    ensures Execute(c, [CreateExtensionIfMissing]) == Ok(c.(vector := true))
  {
    assert Execute(c, []) == Ok(c);
    ExecuteOneMore(c, [], CreateExtensionIfMissing);
    assert [] + [CreateExtensionIfMissing] == [CreateExtensionIfMissing];
  }

  lemma KeysOnAny(c: Catalog)
    requires c.appUser.Some?
    ensures if "widget_keys" in c.tables || "widget_keys" !in c.indexes then Execute(c, File0004()) == Ok(WithKeys(c))
            else Execute(c, File0004()).Err?
  {
    var d1, d2 := CreateTableIfMissing("widget_keys", WIDGET_KEYS), Grant("widget_keys", {SELECT});
    assert Execute(c, []) == Ok(c);
    hide Execute;
    KeysApply(c);
    ExecuteOneMore(c, [], d1);
    ExecuteOneMore(c, [d1], d2);
    assert [] + [d1] == [d1] && [d1] + [d2] == File0004();
    hide Apply, WithKeys;
  }

  lemma KeysApply(c: Catalog)
    requires c.appUser.Some?
    ensures var d1, d2 := CreateTableIfMissing("widget_keys", WIDGET_KEYS), Grant("widget_keys", {SELECT});
            Apply(c, d1).Ok? &&
            if "widget_keys" in c.tables || "widget_keys" !in c.indexes then Apply(Apply(c, d1).value, d2) == Ok(WithKeys(c))
            else Apply(Apply(c, d1).value, d2).Err?
  {
    var t := BaseTable(c, "widget_keys", WIDGET_KEYS);
    assert "widget_keys" in c.tables ==> c.tables["widget_keys" := t] == c.tables;
    assert c.tables["widget_keys" := t]["widget_keys" := t.(grants := t.grants + {SELECT})]
           == c.tables["widget_keys" := t.(grants := t.grants + {SELECT})];
  }

  /** `first` then `second`, when the first succeeds or the second is never reached. */
  lemma ExecuteInTurn(c: Catalog, first: seq<Ddl>, second: seq<Ddl>)
    ensures Execute(c, first).Ok? ==> Execute(c, first + second) == Execute(Execute(c, first).value, second)
    ensures Execute(c, first).Err? ==> Execute(c, first + second).Err?
  {
    if Execute(c, first).Ok? {
      ExecuteAppend(c, first, second);
    }
    if Execute(c, first + second).Ok? {
      assert (first + second)[..|first|] == first;
      PrefixSucceeds(c, first + second, |first|);
    }
  }

  lemma StageFits(c: Catalog)
    ensures var one := WithRole(c);
            var two := WithTenantTable(one, DOCUMENTS_TABLE);
            var four := WithTenantTable(two.(vector := true), CHUNKS_TABLE);
            && TenantTableFits(one, DOCUMENTS_TABLE) == TenantTableFits(c, DOCUMENTS_TABLE)
            && TenantTableFits(two.(vector := true), CHUNKS_TABLE) == TenantTableFits(c, CHUNKS_TABLE)
            && (("widget_keys" in four.tables || "widget_keys" !in four.indexes) ==
                ("widget_keys" in c.tables || "widget_keys" !in c.indexes))
            && one.appUser.Some? && two.appUser.Some? && four.appUser.Some?
  {
  }

  lemma ScriptInTurn(one: Catalog, two: Catalog, c: Catalog)
    requires Execute(c, File0001()) == Ok(one)
    ensures Execute(one, File0002()).Err? ==> Execute(c, Script()).Err?
    ensures Execute(one, File0002()) == Ok(two) ==>
              var chunks := Execute(two.(vector := true), TenantTableScript(CHUNKS_TABLE));
              if chunks.Err? then Execute(c, Script()).Err? else Execute(c, Script()) == Execute(chunks.value, File0004())
  {
    var f1, f2, f3, f4, f5 := File0001(), File0002(), [CreateExtensionIfMissing], TenantTableScript(CHUNKS_TABLE), File0004();
    assert File0003() == f3 + f4;
    VectorOnAny(two);
    ScriptParts();
    hide Execute, TenantTableScript, File0001, File0002, File0003, File0004, Script;
    ExecuteInTurn(c, f1, f2 + (f3 + (f4 + f5)));
    ExecuteInTurn(one, f2, f3 + (f4 + f5));
    ExecuteInTurn(two, f3, f4 + f5);
    ExecuteInTurn(two.(vector := true), f4, f5);
  }

  lemma ScriptParts()
    ensures Script() == File0001() + (File0002() + ([CreateExtensionIfMissing] + (TenantTableScript(CHUNKS_TABLE) + File0004())))
  {
    hide TenantTableScript;
  }

  /** Over any database at all a full run gets through exactly when what is there fits, and this is what it makes. */
  lemma FullRunOnAny(c: Catalog)
    ensures Execute(c, Script()).Ok? <==> Fits(c)
    ensures Fits(c) ==> Execute(c, Script()) == Ok(Migrated(c))
  {
    hide Execute, Script, TenantTableScript, WithTenantTable, WithRole, WithKeys, File0001, File0004, TenantTableFits;
    var one := WithRole(c);
    var two := WithTenantTable(one, DOCUMENTS_TABLE);
    StageFits(c);
    RolesOnAny(c);
    TenantScriptOnAny(one, DOCUMENTS_TABLE);
    ScriptInTurn(one, two, c);
    TenantScriptOnAny(two.(vector := true), CHUNKS_TABLE);
    KeysOnAny(WithTenantTable(two.(vector := true), CHUNKS_TABLE));
  }

  /** After a full run over any database a second one changes nothing. */
  lemma SecondRunOnAny(c: Catalog)
    requires Execute(c, Script()).Ok?
    ensures Execute(Execute(c, Script()).value, Script()) == Execute(c, Script())
  {
    hide Migrated, Execute, Script, Fits;
    FullRunOnAny(c);
    MigratedFits(c);
    MigratedTwice(c);
    FullRunOnAny(Migrated(c));
  }

  lemma WithTenantTableFacts(c: Catalog, d: TenantTable)
    ensures var r := WithTenantTable(c, d);
            && r.tables == c.tables[d.name := Secured(BaseTable(c, d.name, d.shape))]
            && r.appUser == c.appUser && r.connect == c.connect && r.usage == c.usage && r.vector == c.vector
  {
    hide Secured, BaseTable;
  }

  lemma MigratedTables(c: Catalog)
    ensures var m := Migrated(c);
            && m.tables.Keys == c.tables.Keys + {"documents", "chunks", "widget_keys"}
            && m.tables["documents"] == Secured(BaseTable(c, "documents", DOCUMENTS))
            && m.tables["chunks"] == Secured(BaseTable(c, "chunks", CHUNKS))
            && m.tables["widget_keys"] == BaseTable(c, "widget_keys", WIDGET_KEYS).(grants := BaseTable(c, "widget_keys", WIDGET_KEYS).grants + {SELECT})
            && (forall n :: n in c.tables && n !in {"documents", "chunks", "widget_keys"} ==> m.tables[n] == c.tables[n])
    ensures Migrated(c).appUser == if c.appUser.Some? then c.appUser else Some(PLAIN)
    ensures Migrated(c).connect && Migrated(c).usage && Migrated(c).vector
  {
    hide Secured, WithTenantTable;
    var one := WithRole(c);
    WithTenantTableFacts(one, DOCUMENTS_TABLE);
    WithTenantTableFacts(WithTenantTable(one, DOCUMENTS_TABLE).(vector := true), CHUNKS_TABLE);
  }

  predicate HasRelation(c: Catalog, name: string) { name in c.tables || name in c.indexes }

  lemma MigratedIndexes(c: Catalog)
    ensures HasRelation(Migrated(c), DOCUMENTS_TABLE.index) && HasRelation(Migrated(c), CHUNKS_TABLE.index)
    ensures HasRelation(c, DOCUMENTS_TABLE.index) && HasRelation(c, CHUNKS_TABLE.index) ==> Migrated(c).indexes == c.indexes
  {
    hide Secured;
  }

  lemma MigratedFits(c: Catalog)
    requires Fits(c)
    ensures Fits(Migrated(c))
  {
    hide Migrated, Secured, Indexable, Comparable;
    MigratedTables(c);
    SecuredTwice(BaseTable(c, "documents", DOCUMENTS));
    SecuredTwice(BaseTable(c, "chunks", CHUNKS));
    FilesFit();
  }

  lemma FilesFit()
    ensures Indexable(DOCUMENTS, DOCUMENTS_TABLE.indexed) && Comparable(DOCUMENTS)
    ensures Indexable(CHUNKS, CHUNKS_TABLE.indexed) && Comparable(CHUNKS)
  {
  }

  lemma MigratedTwice(c: Catalog)
    ensures Migrated(Migrated(c)) == Migrated(c)
  {
    hide Migrated, Secured;
    MigratedTables(c);
    MigratedTables(Migrated(c));
    MigratedIndexes(c);
    MigratedIndexes(Migrated(c));
    SecuredTwice(BaseTable(c, "documents", DOCUMENTS));
    SecuredTwice(BaseTable(c, "chunks", CHUNKS));
    var m, mm := Migrated(c), Migrated(Migrated(c));
    assert mm.tables["widget_keys"].grants == m.tables["widget_keys"].grants;
    assert mm.tables == m.tables;
  }

  lemma SecuredTwice(t: Table)
    ensures Secured(Secured(t)) == Secured(t) && Secured(t).shape == t.shape
  {
    assert Secured(Secured(t)).policies == Secured(t).policies;
    assert Secured(Secured(t)).grants == Secured(t).grants;
  }

  /** On a database built by other hands a full run gets through exactly when the tables it finds fit. A tenant table
      then ends sealed exactly when it carried no other policy, which `DROP POLICY IF EXISTS tenant_isolation` leaves in
      place, and app_user, which 0001 leaves as it finds it, is not above the policies. */
  lemma SealedExactlyWhen(c: Catalog, n: string)
    requires n == "documents" || n == "chunks"
    ensures Execute(c, Script()).Ok? <==> Fits(c)
    ensures Fits(c) ==>
              var r := Execute(c, Script()).value;
              n in r.tables &&
              (Sealed(r, r.tables[n]) <==>
                 (n in c.tables ==> c.tables[n].policies.Keys <= {"tenant_isolation"})
                 && (c.appUser.Some? ==> !c.appUser.value.superuser && !c.appUser.value.bypassRls))
  {
    hide Execute, Script, Closed, Secured, Fits, Migrated;
    FullRunOnAny(c);
    MigratedTables(c);
    SecuredIsClosed(BaseTable(c, n, if n == "documents" then DOCUMENTS else CHUNKS));
  }

  /** What that means for rows: after a full run app_user touches its own tenant's rows only, exactly when it is under the
      policies and every other policy that it found admits no more than the isolation policy does. */
  lemma OwnRowsOnlyExactlyWhen(c: Catalog, n: string)
    requires (n == "documents" || n == "chunks") && Fits(c)
    ensures Execute(c, Script()).Ok? && n in Execute(c, Script()).value.tables
    ensures var r := Execute(c, Script()).value;
            (forall setting, tenant :: Reaches(r, r.tables[n], setting, tenant) || Leaves(r, r.tables[n], setting, tenant) ==>
               Names(setting, tenant)) <==>
            && (c.appUser.Some? ==> !c.appUser.value.superuser && !c.appUser.value.bypassRls)
            && (n in c.tables ==> forall p :: p in c.tables[n].policies && p != "tenant_isolation" ==>
                  c.tables[n].policies[p].using.TenantIsSetting? && c.tables[n].policies[p].check.TenantIsSetting?)
  {
    FullRunOnAny(c);
    MigratedTables(c);
    var base := BaseTable(c, n, if n == "documents" then DOCUMENTS else CHUNKS);
    var m := Migrated(c);
    assert m.tables[n] == Secured(base);
    hide Execute, Script, Fits, Migrated;
    SecuredAdmits(m, base);
  }

  lemma SecuredAdmits(c: Catalog, base: Table)
    requires c.appUser.Some?
    ensures (forall setting, tenant :: Reaches(c, Secured(base), setting, tenant) || Leaves(c, Secured(base), setting, tenant) ==>
               Names(setting, tenant)) <==>
            && !c.appUser.value.superuser && !c.appUser.value.bypassRls
            && forall p :: p in base.policies && p != "tenant_isolation" ==>
                 base.policies[p].using.TenantIsSetting? && base.policies[p].check.TenantIsSetting?
  {
    var t := Secured(base);
    assert SELECT in t.grants && INSERT in t.grants && t.rowSecurity;
    assert forall p :: p in base.policies && p != "tenant_isolation" ==> p in t.policies && t.policies[p] == base.policies[p];
    assert forall p :: p in t.policies && p != "tenant_isolation" ==> p in base.policies && t.policies[p] == base.policies[p];
    assert t.policies["tenant_isolation"] == ISOLATION;
    hide Secured;
    assert !Names(None, "");
    if forall setting, tenant :: Reaches(c, t, setting, tenant) || Leaves(c, t, setting, tenant) ==> Names(setting, tenant) {
      assert !Reaches(c, t, None, "") && !Leaves(c, t, None, "");
    }
  }

  // ---- The conditions on literal columns -----------------------------------------

  predicate HasColumn(c: Catalog, table: string, column: string) {
    table in c.tables && column in c.tables[table].shape.columns && c.tables[table].shape.columns[column].ordered
  }

  predicate UuidTenant(c: Catalog, table: string) {
    table in c.tables && "tenant_id" in c.tables[table].shape.columns && c.tables[table].shape.columns["tenant_id"].name == "uuid"
  }

  /** What a full run asks of a database, written out. */
  lemma FitsExactly(c: Catalog)
    ensures Fits(c) <==>
            && (if "documents" in c.tables
                then HasColumn(c, "documents", "tenant_id") && HasColumn(c, "documents", "created_at") && UuidTenant(c, "documents")
                else "documents" !in c.indexes)
            && (if "chunks" in c.tables
                then HasColumn(c, "chunks", "tenant_id") && HasColumn(c, "chunks", "document_id") && UuidTenant(c, "chunks")
                else "chunks" !in c.indexes)
            && ("widget_keys" in c.tables || "widget_keys" !in c.indexes)
  {
    assert DOCUMENTS_TABLE.indexed == ["tenant_id", "created_at"] && CHUNKS_TABLE.indexed == ["tenant_id", "document_id"];
    if "documents" in c.tables { TwoColumns(c.tables["documents"].shape, "tenant_id", "created_at"); }
    if "chunks" in c.tables { TwoColumns(c.tables["chunks"].shape, "tenant_id", "document_id"); }
    hide Indexable;
  }

  lemma TwoColumns(shape: Shape, a: string, b: string)
    ensures Indexable(shape, [a, b]) <==>
            a in shape.columns && b in shape.columns && shape.columns[a].ordered && shape.columns[b].ordered
  {
    assert [a, b][0] == a && [a, b][1] == b;
  }

  // ---- The unique keys are the ones the transactions obey ------------------------

  datatype Value = Text(text: string) | Number(number: int) | Other

  /** The value of a row in a column that takes part in a key. */
  function Cell(r: TenantTables.Row, column: string): Value {
    if column == "tenant_id" then Text(r.tenant)
    else if column == "content_hash" then Text(r.contentHash)
    else if column == "document_id" && r.Chunk? then Text(r.documentId)
    else if column == "chunk_index" && r.Chunk? then Number(r.chunkIndex)
    else Other
  }

  /** Two rows of a table have one key in the transactions' sense exactly when they agree on the columns of the unique
      key that its file declares. */
  lemma DeclaredKeysAreObeyed(a: TenantTables.Row, b: TenantTables.Row)
    ensures a.Document? && b.Document? ==>
              (TenantTables.KeyOf(a) == TenantTables.KeyOf(b) <==>
                 forall i :: 0 <= i < |DOCUMENTS.uniqueKey| ==> Cell(a, DOCUMENTS.uniqueKey[i]) == Cell(b, DOCUMENTS.uniqueKey[i]))
    ensures a.Chunk? && b.Chunk? ==>
              (TenantTables.KeyOf(a) == TenantTables.KeyOf(b) <==>
                 forall i :: 0 <= i < |CHUNKS.uniqueKey| ==> Cell(a, CHUNKS.uniqueKey[i]) == Cell(b, CHUNKS.uniqueKey[i]))
  {
    var d, k := DOCUMENTS.uniqueKey, CHUNKS.uniqueKey;
    assert |d| == 2 && d[0] == "tenant_id" && d[1] == "content_hash";
    assert |k| == 3 && k[0] == "tenant_id" && k[1] == "document_id" && k[2] == "chunk_index";
  }

  lemma SecuredIsClosed(t: Table)
    ensures Closed(Secured(t)) <==> t.policies.Keys <= {"tenant_isolation"}
  {
    var p' := Secured(t).policies;
    if Closed(Secured(t)) {
      forall p | p in t.policies ensures p == "tenant_isolation" { assert p in p'; }
    }
  }

  // ---- The runner ----------------------------------------------------------------

  predicate Before(a: string, b: string) {
    b != [] && (a == [] || a[0] < b[0] || (a[0] == b[0] && Before(a[1..], b[1..])))
  }

  /** What `sorted` returns. */
  ghost predicate Sorted(paths: seq<string>) {
    forall i, j :: 0 <= i < j < |paths| ==> Before(paths[i], paths[j])
  }

  const NAMES := ["0001_app_user.sql", "0002_documents.sql", "0003_chunks.sql", "0004_widget_keys.sql"]

  function Files(): (r: map<string, seq<Ddl>>)
    ensures forall p :: p in r <==> p in NAMES
  {
    map[NAMES[0] := File0001(), NAMES[1] := File0002(), NAMES[2] := File0003(), NAMES[3] := File0004()]
  }

  function ReadText(files: map<string, seq<Ddl>>, path: string): seq<Ddl> {
    if path in files then files[path] else []
  }

  function Concat(paths: seq<string>, files: map<string, seq<Ddl>>): seq<Ddl> {
    if paths == [] then [] else Concat(paths[..|paths| - 1], files) + ReadText(files, paths[|paths| - 1])
  }

  lemma {:induction false} BeforeAsymmetric(a: string, b: string)
    ensures !(Before(a, b) && Before(b, a))
  {
    if a != [] && b != [] {
      BeforeAsymmetric(a[1..], b[1..]);
    }
  }

  lemma LastIsLast(a: seq<string>, b: seq<string>)
    requires Sorted(a) && Sorted(b) && (forall p :: p in a <==> p in b) && a != [] && b != []
    ensures a[|a| - 1] == b[|b| - 1]
  {
    var x, y := a[|a| - 1], b[|b| - 1];
    assert x in b && y in a;
    var i :| 0 <= i < |b| && b[i] == x;
    var j :| 0 <= j < |a| && a[j] == y;
    BeforeAsymmetric(x, y);
    hide Before;
  }

  lemma WithoutLast(a: seq<string>)
    requires Sorted(a) && a != []
    ensures Sorted(a[..|a| - 1])
    ensures forall p :: p in a[..|a| - 1] <==> p in a && p != a[|a| - 1]
  {
    var n := |a| - 1;
    BeforeAsymmetric(a[n], a[n]);
    forall p ensures p in a[..n] <==> p in a && p != a[n] {
      if p in a[..n] {
        var i :| 0 <= i < n && a[i] == p;
        assert Before(a[i], a[n]);
      }
      assert a == a[..n] + [a[n]];
    }
    hide Before;
  }

  lemma EmptyTogether(a: seq<string>, b: seq<string>)
    requires forall p :: p in a <==> p in b
    ensures a == [] <==> b == []
  {
    if a != [] { assert a[0] in a; }
    if b != [] { assert b[0] in b; }
  }

  /** A set of names has one sorted listing. */
  lemma {:induction false} SortedOnce(a: seq<string>, b: seq<string>)
    requires Sorted(a) && Sorted(b) && forall p :: p in a <==> p in b
    ensures a == b
  {
    hide Sorted;
    EmptyTogether(a, b);
    if a != [] {
      LastIsLast(a, b);
      WithoutLast(a);
      WithoutLast(b);
      var a', b' := a[..|a| - 1], b[..|b| - 1];
      forall p ensures p in a' <==> p in b' {
        assert p in a <==> p in b;
      }
      SortedOnce(a', b');
      assert a == a[..|a| - 1] + [a[|a| - 1]] && b == b[..|b| - 1] + [b[|b| - 1]];
    }
  }

  lemma NumbersAreSorted()
    ensures Sorted(NAMES)
  {
    forall i, j | 0 <= i < j < |NAMES|
      ensures Before(NAMES[i], NAMES[j])
    {
      FourthDecides(NAMES[i], NAMES[j]);
    }
  }

  lemma FourthDecides(a: string, b: string)
    requires |a| > 3 && |b| > 3 && a[0] == b[0] && a[1] == b[1] && a[2] == b[2] && a[3] < b[3]
    ensures Before(a, b)
  {
    assert Before(a[1..][1..][1..], b[1..][1..][1..]);
    assert Before(a[1..][1..], b[1..][1..]);
    assert Before(a[1..], b[1..]);
  }

  /** The sorted directory listing is the numbered order, whatever order the directory is read in. */
  lemma SortedIsNumbered(paths: seq<string>)
    requires Sorted(paths) && (forall p :: p in paths <==> p in NAMES)
    ensures paths == NAMES
  {
    NumbersAreSorted();
    SortedOnce(paths, NAMES);
  }

  /** The owner connection. */
  class Owner {
    var catalog: Catalog

    constructor (c: Catalog)
      ensures catalog == c
    {
      catalog := c;
    }

    /** One file in one round trip: an implicit transaction, all or nothing. */
    method ExecuteFile(sql: seq<Ddl>) returns (ok: bool)
      modifies this
      ensures ok == Execute(old(catalog), sql).Ok?
      ensures catalog == if ok then Execute(old(catalog), sql).value else old(catalog)
    {
      hide Apply;
      var current, i := catalog, 0;
      while i < |sql|
        invariant 0 <= i <= |sql| && catalog == old(catalog)
        invariant Execute(catalog, sql[..i]) == Ok(current)
      {
        var r := Apply(current, sql[i]);
        ExecuteOneMore(catalog, sql[..i], sql[i]);
        assert sql[..i] + [sql[i]] == sql[..i + 1];
        if r.Err? {
          assert Execute(catalog, sql).Err? by {
            if Execute(catalog, sql).Ok? { PrefixSucceeds(catalog, sql, i + 1); }
          }
          return false;
        }
        current, i := r.value, i + 1;
      }
      assert sql[..|sql|] == sql;
      catalog := current;
      return true;
    }

    /** The loop of the script: each file in sorted order, stopping at the first that fails. */
    method ApplyMigrations(paths: seq<string>, files: map<string, seq<Ddl>>) returns (applied: nat)
      requires Sorted(paths) && forall p :: p in paths <==> p in files
      modifies this
      ensures applied <= |paths|
      ensures Execute(old(catalog), Concat(paths[..applied], files)) == Ok(catalog)
      ensures applied < |paths| ==> Execute(catalog, ReadText(files, paths[applied])).Err?
    {
      applied := 0;
      while applied < |paths|
        invariant applied <= |paths|
        invariant Execute(old(catalog), Concat(paths[..applied], files)) == Ok(catalog)
      {
        ghost var before := catalog;
        assert paths[applied] in paths;
        var ok := ExecuteFile(ReadText(files, paths[applied]));
        if !ok {
          return;
        }
        ExecuteAppend(old(catalog), Concat(paths[..applied], files), ReadText(files, paths[applied]));
        assert paths[..applied + 1][..applied] == paths[..applied];
        applied := applied + 1;
      }
    }
  }

  function FileNo(k: nat): seq<Ddl> {
    if k == 0 then File0001() else if k == 1 then File0002() else if k == 2 then File0003() else File0004()
  }

  function Upto(k: nat): seq<Ddl> {
    if k == 0 then [] else Upto(k - 1) + FileNo(k - 1)
  }

  lemma FileAt(k: nat)
    requires k < 4
    ensures ReadText(Files(), NAMES[k]) == FileNo(k)
  {
    hide File0001, File0002, File0003, File0004;
  }

  lemma UptoIsScript()
    ensures Upto(4) == Script()
  {
    hide File0001, File0002, File0003, File0004;
    assert Upto(1) == FileNo(0) && Upto(2) == Upto(1) + FileNo(1) && Upto(3) == Upto(2) + FileNo(2);
  }

  lemma {:induction false} UptoGrows(j: nat, k: nat)
    requires j <= k
    ensures Upto(j) <= Upto(k)
  {
    hide FileNo;
    if j < k {
      UptoGrows(j, k - 1);
    }
  }

  lemma {:induction false} ConcatIsScript(k: nat)
    requires k <= 4
    ensures Concat(NAMES[..k], Files()) == Upto(k) && Upto(k) <= Script()
    ensures k == 4 ==> NAMES[..k] == NAMES && Upto(k) == Script()
  {
    hide Files, FileNo, Script;
    UptoIsScript();
    UptoGrows(k, 4);
    if k > 0 {
      assert NAMES[..k][..k - 1] == NAMES[..k - 1];
      ConcatIsScript(k - 1);
      FileAt(k - 1);
    }
  }

  lemma EveryFileApplies(c: Catalog, k: nat)
    requires k < 4 && Execute(c, Script()).Ok?
    ensures Execute(c, Concat(NAMES[..k], Files())).Ok?
    ensures Execute(Execute(c, Concat(NAMES[..k], Files())).value, ReadText(Files(), NAMES[k])).Ok?
  {
    var before, through := Concat(NAMES[..k], Files()), Concat(NAMES[..k + 1], Files());
    assert NAMES[..k + 1][..k] == NAMES[..k];
    assert through == before + ReadText(Files(), NAMES[k]);
    ConcatIsScript(k);
    ConcatIsScript(k + 1);
    assert Script()[..|before|] == before && Script()[..|through|] == through;
    PrefixSucceeds(c, Script(), |before|);
    PrefixSucceeds(c, Script(), |through|);
    ExecuteAppend(c, before, ReadText(Files(), NAMES[k]));
  }

  lemma DocumentsStop(c: Catalog)
    requires !TenantTableFits(c, DOCUMENTS_TABLE)
    ensures Execute(c, Upto(0)) == Ok(c) && Execute(c, Upto(1)) == Ok(WithRole(c)) && Execute(c, Upto(2)).Err?
    ensures Execute(c, ReadText(Files(), NAMES[0])).Ok?
  {
    StageFits(c);
    RolesOnAny(c);
    hide WithRole, WithTenantTable, TenantTableFits, File0001, TenantTableScript;
    FilesFit();
    TenantScriptOnAny(WithRole(c), DOCUMENTS_TABLE);
    ExecuteInTurn(c, File0001(), File0002());
    FileAt(0);
    assert Upto(1) == Upto(0) + File0001() == File0001() && Upto(2) == Upto(1) + File0002();
  }

  /** Where the runner stops over a `documents` table that does not fit. */
  lemma StopsAtDocuments(c: Catalog, k: nat, r: Catalog)
    requires k <= 4 && !TenantTableFits(c, DOCUMENTS_TABLE)
    requires Execute(c, Concat(NAMES[..k], Files())) == Ok(r)
    requires k < 4 ==> Execute(r, ReadText(Files(), NAMES[k])).Err?
    ensures k == 1 && r == WithRole(c)
  {
    hide Execute, WithRole, TenantTableFits, Upto, Files, Concat;
    DocumentsStop(c);
    ConcatIsScript(k);
    if k >= 2 {
      UptoGrows(2, k);
      assert Upto(k)[..|Upto(2)|] == Upto(2);
      PrefixSucceeds(c, Upto(k), |Upto(2)|);
    }
  }

  /** Running the repository's files over any database: all four apply exactly when what is there fits. From any point
      that earlier runs have reached they do, and end in the described schema with every row kept. Over a `documents`
      table that does not fit every table stays as it was, granted or open as it may be. */
  method MigrateRepository(owner: Owner, paths: seq<string>) returns (applied: nat)
    requires Sorted(paths) && forall p :: p in paths <==> p in NAMES
    modifies owner
    ensures applied == 4 <==> Fits(old(owner.catalog))
    ensures applied == 4 ==> owner.catalog == Migrated(old(owner.catalog))
    ensures !TenantTableFits(old(owner.catalog), DOCUMENTS_TABLE) ==> applied == 1 && owner.catalog == WithRole(old(owner.catalog))
    ensures forall events :: Replay(events) == Ok(old(owner.catalog)) ==>
              applied == 4
              && owner.catalog == Final(RowsIn(old(owner.catalog), "documents"), RowsIn(old(owner.catalog), "chunks"),
                                        RowsIn(old(owner.catalog), "widget_keys"))
  {
    hide Execute, Script, Concat, Files, Final, Migrated, Replay, TenantTableFits, WithRole;
    SortedIsNumbered(paths);
    ghost var before := owner.catalog;
    FullRunOnAny(before);
    if Fits(before) {
      forall k: nat | k < 4
        ensures Execute(before, Concat(NAMES[..k], Files())).Ok?
        ensures Execute(Execute(before, Concat(NAMES[..k], Files())).value, ReadText(Files(), NAMES[k])).Ok?
      {
        EveryFileApplies(before, k);
      }
    }
    applied := owner.ApplyMigrations(paths, Files());
    ConcatIsScript(4);
    if !TenantTableFits(before, DOCUMENTS_TABLE) {
      assert NAMES[..applied] == paths[..applied];
      StopsAtDocuments(before, applied, owner.catalog);
    }
    forall events | Replay(events) == Ok(before)
      ensures Fits(before) && Migrated(before) == Final(RowsIn(before, "documents"), RowsIn(before, "chunks"), RowsIn(before, "widget_keys"))
    {
      FullRunConverges(events);
    }
  }
}
