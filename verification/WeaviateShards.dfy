/** The chunk index: one shard per tenant, made explicitly, reached through tenant-bound handles. */
module WeaviateShards {
  import opened Wrappers

  type TenantId = string

  datatype Chunk = Chunk(documentId: string, chunkIndex: int, text: string, vector: seq<real>)

  /** tenant_id.replace("-", "_") */
  function Underscored(id: TenantId): (r: string)
    ensures |r| == |id| && forall i :: 0 <= i < |id| ==> r[i] == if id[i] == '-' then '_' else id[i]
  {
    seq(|id|, i requires 0 <= i < |id| => if id[i] == '-' then '_' else id[i])
  }

  function TenantName(id: TenantId): string {
    "tenant_" + Underscored(id)
  }

  /** Free of underscores, as every uuid is. */
  predicate Plain(id: TenantId) { '_' !in id }

  predicate Dash(c: char) { c == '-' || c == '_' }

  /** Two ids share a shard exactly when they differ only in hyphens against underscores. */
  lemma NamesCollideExactlyWhen(a: TenantId, b: TenantId)
    ensures TenantName(a) == TenantName(b) <==>
            |a| == |b| && forall i :: 0 <= i < |a| ==> a[i] == b[i] || (Dash(a[i]) && Dash(b[i]))
  {
    var u, v := Underscored(a), Underscored(b);
    assert TenantName(a)[7..] == u && TenantName(b)[7..] == v;
    if u == v {
      forall i | 0 <= i < |a|
        ensures a[i] == b[i] || (Dash(a[i]) && Dash(b[i]))
      {
        assert u[i] == v[i];
      }
    }
    if |a| == |b| && forall i :: 0 <= i < |a| ==> a[i] == b[i] || (Dash(a[i]) && Dash(b[i])) {
      assert u == v;
    }
  }

  /** So among uuids every tenant has its own shard. */
  lemma NamesAreInjective(a: TenantId, b: TenantId)
    requires Plain(a) && Plain(b) && TenantName(a) == TenantName(b)
    ensures a == b
  {
    NamesCollideExactlyWhen(a, b);
    forall i | 0 <= i < |a|
      ensures a[i] == b[i]
    {
      assert a[i] in a && b[i] in b;
    }
  }

  // ---- The index -----------------------------------------------------------------

  /** `created` is the collection; `shards` its tenants. */
  datatype Index = Index(created: bool, shards: map<string, seq<Chunk>>)

  const EMPTY := Index(false, map[])

  function Names(ids: seq<TenantId>): set<string> {
    set i | 0 <= i < |ids| :: TenantName(ids[i])
  }

  function AfterBootstrap(x: Index, ids: seq<TenantId>): Index {
    var present := if x.created then x.shards else map[];
    Index(true, map n | n in present.Keys + Names(ids) :: if n in present then present[n] else [])
  }

  /** None when the shard does not exist: tenants are never made by use. */
  function Chunks(x: Index, id: TenantId): Option<seq<Chunk>> {
    if x.created && TenantName(id) in x.shards then Some(x.shards[TenantName(id)]) else None
  }

  function AfterInsert(x: Index, id: TenantId, c: Chunk): Index {
    if Chunks(x, id).None? then x
    else x.(shards := x.shards[TenantName(id) := x.shards[TenantName(id)] + [c]])
  }

  class Client {
    var created: bool
    var shards: map<string, seq<Chunk>>

    ghost function Contents(): Index
      reads this
    {
      Index(created, shards)
    }

    constructor ()
      ensures Contents() == EMPTY
    {
      created, shards := false, map[];
    }

    /** bootstrap_chunks */
    method Bootstrap(ids: seq<TenantId>)
      modifies this
      ensures Contents() == AfterBootstrap(old(Contents()), ids)
    {
      if !created {
        created, shards := true, map[];
      }
      ghost var before := shards;
      var missing: seq<string>, i := [], 0;
      while i < |ids|
        invariant 0 <= i <= |ids| && shards == before
        invariant forall n :: n in missing <==> n in Names(ids[..i]) && n !in shards
      {
        var name := TenantName(ids[i]);
        assert Names(ids[..i + 1]) == Names(ids[..i]) + {name} by {
          NamesOneMore(ids, i);
        }
        if name !in shards {
          missing := missing + [name];
        }
        i := i + 1;
      }
      assert ids[..i] == ids;
      if missing != [] {
        shards := shards + map n | n in missing :: [];
      }
      assert shards.Keys == before.Keys + Names(ids);
    }

    /** TenantChunks(client, id).insert; false when the server refuses. */
    method Insert(id: TenantId, c: Chunk) returns (ok: bool)
      modifies this
      ensures ok == Chunks(old(Contents()), id).Some?
      ensures Contents() == AfterInsert(old(Contents()), id, c)
    {
      var name := TenantName(id);
      if !created || name !in shards {
        return false;
      }
      shards := shards[name := shards[name] + [c]];
      return true;
    }

    /** TenantChunks(client, id).count; None when the server refuses. */
    method Count(id: TenantId) returns (n: Option<nat>)
      ensures n == if Chunks(Contents(), id).Some? then Some(|Chunks(Contents(), id).value|) else None
    {
      var name := TenantName(id);
      if !created || name !in shards {
        return None;
      }
      return Some(|shards[name]|);
    }
  }

  lemma NamesOneMore(ids: seq<TenantId>, i: nat)
    requires i < |ids|
    ensures Names(ids[..i + 1]) == Names(ids[..i]) + {TenantName(ids[i])}
  {
    forall n
      ensures n in Names(ids[..i + 1]) <==> n in Names(ids[..i]) || n == TenantName(ids[i])
    {
      if n in Names(ids[..i]) {
        var k :| 0 <= k < i && n == TenantName(ids[..i][k]);
        assert ids[..i + 1][k] == ids[k];
      }
      if n == TenantName(ids[i]) {
        assert ids[..i + 1][i] == ids[i];
      }
      if n in Names(ids[..i + 1]) {
        var k :| 0 <= k < i + 1 && n == TenantName(ids[..i + 1][k]);
        assert k < i ==> ids[..i][k] == ids[k];
      }
    }
  }

  // ---- One store per tenant ------------------------------------------------------

  datatype Op = BootstrapOp(ids: seq<TenantId>) | InsertOp(id: TenantId, chunk: Chunk)

  function Run(ops: seq<Op>): Index {
    if ops == [] then EMPTY
    else
      var before := Run(ops[..|ops| - 1]);
      match ops[|ops| - 1]
      case BootstrapOp(ids) => AfterBootstrap(before, ids)
      case InsertOp(id, c) => AfterInsert(before, id, c)
  }

  /** A tenant's own store, which only hears of operations that name the tenant. */
  function PrivateRun(ops: seq<Op>, u: TenantId): Option<seq<Chunk>> {
    if ops == [] then None
    else
      var before := PrivateRun(ops[..|ops| - 1], u);
      match ops[|ops| - 1]
      case BootstrapOp(ids) => if u in ids && before.None? then Some([]) else before
      case InsertOp(id, c) => if id == u && before.Some? then Some(before.value + [c]) else before
  }

  predicate PlainOps(ops: seq<Op>) {
    forall i :: 0 <= i < |ops| ==>
      match ops[i]
      case BootstrapOp(ids) => forall j :: 0 <= j < |ids| ==> Plain(ids[j])
      case InsertOp(id, _) => Plain(id)
  }

  lemma BootstrapSeenBy(x: Index, ids: seq<TenantId>, u: TenantId)
    requires Plain(u) && forall j :: 0 <= j < |ids| ==> Plain(ids[j])
    ensures Chunks(AfterBootstrap(x, ids), u) == if Chunks(x, u).None? && u in ids then Some([]) else Chunks(x, u)
  {
    if TenantName(u) in Names(ids) {
      var i :| 0 <= i < |ids| && TenantName(u) == TenantName(ids[i]);
      NamesAreInjective(u, ids[i]);
    }
    if u in ids {
      var i :| 0 <= i < |ids| && ids[i] == u;
      assert TenantName(u) in Names(ids);
    }
  }

  lemma InsertSeenBy(x: Index, id: TenantId, c: Chunk, u: TenantId)
    requires Plain(u) && Plain(id)
    ensures Chunks(AfterInsert(x, id, c), u) ==
            if id == u && Chunks(x, u).Some? then Some(Chunks(x, u).value + [c]) else Chunks(x, u)
  {
    if TenantName(id) == TenantName(u) {
      NamesAreInjective(id, u);
    }
  }

  /** Over every run the shards are one private store per tenant: each holds what its own tenant inserted
      since it was made, in order, and nothing else. */
  lemma {:induction false} ShardsArePrivateStores(ops: seq<Op>, u: TenantId)
    requires PlainOps(ops) && Plain(u)
    ensures Chunks(Run(ops), u) == PrivateRun(ops, u)
  {
    if ops != [] {
      var n := |ops| - 1;
      assert forall i :: 0 <= i < n ==> ops[..n][i] == ops[i];
      ShardsArePrivateStores(ops[..n], u);
      match ops[n]
      case BootstrapOp(ids) => BootstrapSeenBy(Run(ops[..n]), ids, u);
      case InsertOp(id, c) => InsertSeenBy(Run(ops[..n]), id, c, u);
    }
  }

  /** Bootstrapping again changes nothing; the first time it adds exactly the missing shards and keeps every chunk. */
  lemma BootstrapIsIdempotent(x: Index, ids: seq<TenantId>)
    ensures AfterBootstrap(AfterBootstrap(x, ids), ids) == AfterBootstrap(x, ids)
    ensures var y := AfterBootstrap(x, ids);
            && (x.created ==> y.shards.Keys == x.shards.Keys + Names(ids))
            && (x.created ==> forall n :: n in x.shards ==> y.shards[n] == x.shards[n])
            && (forall n :: n in y.shards && !(x.created && n in x.shards) ==> y.shards[n] == [])
  {
    var y := AfterBootstrap(x, ids);
    assert AfterBootstrap(y, ids).shards == y.shards;
  }
}
