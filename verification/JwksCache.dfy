/** The signing-key cache of the owner door: one resolver used by one caller at a time. */
module JwksCache {
  import opened Wrappers

  /** A parsed public key. */
  type Key = string

  /** One entry of the published set. `kid` is None when it is missing, no string, or empty;
      `key` is None when PyJWK.from_dict raises on it. */
  datatype Entry = Entry(kid: Option<string>, key: Option<Key>)

  /** What a fetch brings: an error, or a complete response. */
  datatype Response = Unavailable | Published(entries: seq<Entry>)

  datatype Answer = Found(key: Key) | UnknownKid | FetchFailed

  type Keys = map<string, Key>

  /** The dictionary the entries fill in order; None when one of them raises. Entries without a kid
      are skipped unparsed, and a repeated kid takes its last key. */
  function ParseEntries(entries: seq<Entry>): Option<Keys> {
    if entries == [] then Some(map[])
    else
      var before, e := ParseEntries(entries[..|entries| - 1]), entries[|entries| - 1];
      if before.None? || e.kid.None? then before
      else if e.key.None? then None
      else Some(before.value[e.kid.value := e.key.value])
  }

  function Parse(r: Response): Option<Keys> {
    if r.Unavailable? then None else ParseEntries(r.entries)
  }

  /** The fetch came through and no entry that carries a kid is unusable. Entries without a kid do not matter. */
  predicate Complete(r: Response) {
    r.Published? && forall i :: 0 <= i < |r.entries| && r.entries[i].kid.Some? ==> r.entries[i].key.Some?
  }

  /** A complete response gives the kid this key: that of the last entry that carries it. */
  ghost predicate Binds(r: Response, kid: string, key: Key) {
    Complete(r) && exists i :: LastAt(r.entries, kid, i) && r.entries[i].key == Some(key)
  }

  lemma {:induction false} ParsesWhenUsable(entries: seq<Entry>)
    ensures ParseEntries(entries).Some? <==> forall i :: 0 <= i < |entries| && entries[i].kid.Some? ==> entries[i].key.Some?
  {
    if entries != [] {
      var n := |entries| - 1;
      ParsesWhenUsable(entries[..n]);
      assert forall i :: 0 <= i < n ==> entries[..n][i] == entries[i];
    }
  }

  lemma ParsesExactly(r: Response)
    ensures Parse(r).Some? <==> Complete(r)
    ensures forall kid, key :: Binds(r, kid, key) <==> Parse(r).Some? && kid in Parse(r).value && Parse(r).value[kid] == key
  {
    if r.Published? {
      ParsesWhenUsable(r.entries);
    }
    forall kid, key
      ensures Binds(r, kid, key) <==> Parse(r).Some? && kid in Parse(r).value && Parse(r).value[kid] == key
    {
      if Complete(r) {
        LastDuplicateWins(r.entries, kid);
        assert forall i, j :: LastAt(r.entries, kid, i) && LastAt(r.entries, kid, j) ==> i == j;
      }
    }
  }

  // ---- The specification of one call ---------------------------------------------

  function Lookup(keys: Keys, kid: string): Answer {
    if kid in keys then Found(keys[kid]) else UnknownKid
  }

  /** The cache after `get(kid)` when a fetch would bring `r`. */
  function KeysAfter(keys: Keys, kid: string, r: Response): Keys {
    if kid in keys || Parse(r).None? then keys else Parse(r).value
  }

  function AnswerTo(keys: Keys, kid: string, r: Response): Answer {
    if kid in keys then Found(keys[kid])
    else if Parse(r).None? then FetchFailed
    else Lookup(Parse(r).value, kid)
  }

  /** A resolver without a cache. */
  function AlwaysFetch(kid: string, r: Response): Answer {
    if Parse(r).None? then FetchFailed else Lookup(Parse(r).value, kid)
  }

  class JwksKeyResolver {
    var keys: Keys

    constructor ()
      ensures keys == map[]
    {
      keys := map[];
    }

    /** All or nothing: `keys` is replaced once, after every entry has parsed. */
    method Refresh(r: Response) returns (ok: bool)
      modifies this
      ensures ok == Parse(r).Some? == Complete(r)
      ensures keys == if ok then Parse(r).value else old(keys)
      ensures ok ==> forall kid, key :: (kid in keys && keys[kid] == key) <==> Binds(r, kid, key)
    {
      ParsesExactly(r);
      if r.Unavailable? {
        return false;
      }
      var gathered: Keys, i := map[], 0;
      while i < |r.entries|
        invariant 0 <= i <= |r.entries| && keys == old(keys)
        invariant ParseEntries(r.entries[..i]) == Some(gathered)
      {
        var e := r.entries[i];
        assert r.entries[..i + 1][..i] == r.entries[..i];
        if e.kid.Some? {
          if e.key.None? {
            ParseFailureSticks(r.entries, i + 1);
            return false;
          }
          gathered := gathered[e.kid.value := e.key.value];
        }
        i := i + 1;
      }
      assert r.entries[..|r.entries|] == r.entries;
      keys := gathered;
      return true;
    }

    method Get(kid: string, r: Response) returns (answer: Answer, fetched: bool)
      modifies this
      ensures answer == AnswerTo(old(keys), kid, r)
      ensures keys == KeysAfter(old(keys), kid, r)
      ensures fetched == (kid !in old(keys))
      ensures kid in old(keys) || !Complete(r) ==> keys == old(keys)
      ensures kid in old(keys) ==> answer == Found(old(keys)[kid])
      ensures kid !in old(keys) && !Complete(r) ==> answer == FetchFailed
      ensures kid !in old(keys) && Complete(r) ==> forall key :: answer == Found(key) <==> Binds(r, kid, key)
      ensures kid !in old(keys) && Complete(r) ==> !answer.FetchFailed?
    {
      ParsesExactly(r);
      if kid in keys {
        return Found(keys[kid]), false;
      }
      var ok := Refresh(r);
      if !ok {
        return FetchFailed, true;
      }
      if kid !in keys {
        return UnknownKid, true;
      }
      return Found(keys[kid]), true;
    }
  }

  lemma {:induction false} ParseFailureSticks(entries: seq<Entry>, k: nat)
    requires k <= |entries| && ParseEntries(entries[..k]).None?
    ensures ParseEntries(entries).None?
  {
    if k < |entries| {
      assert entries[..|entries| - 1][..k] == entries[..k];
      ParseFailureSticks(entries[..|entries| - 1], k);
    } else {
      assert entries[..k] == entries;
    }
  }

  /** Entry `i` is the last one that carries the kid. */
  predicate LastAt(entries: seq<Entry>, kid: string, i: int) {
    0 <= i < |entries| && entries[i].kid == Some(kid) && forall j :: i < j < |entries| ==> entries[j].kid != Some(kid)
  }

  /** The parse binds a kid exactly when some entry carries it, and then to the last such entry's key. */
  lemma {:induction false} LastDuplicateWins(entries: seq<Entry>, kid: string)
    requires ParseEntries(entries).Some?
    ensures var keys := ParseEntries(entries).value;
            if kid in keys then exists i :: LastAt(entries, kid, i) && entries[i].key == Some(keys[kid])
            else forall i :: 0 <= i < |entries| ==> entries[i].kid != Some(kid)
  {
    if entries != [] {
      var n, keys := |entries| - 1, ParseEntries(entries).value;
      var before := entries[..n];
      LastDuplicateWins(before, kid);
      assert forall i :: 0 <= i < n ==> before[i] == entries[i];
      if entries[n].kid == Some(kid) {
        assert LastAt(entries, kid, n);
      } else if kid in keys {
        var i :| LastAt(before, kid, i) && before[i].key == Some(ParseEntries(before).value[kid]);
        assert LastAt(entries, kid, i);
      }
    }
  }

  // ---- Whole runs ----------------------------------------------------------------

  /** One call, with what the publisher would serve at that moment. */
  datatype Call = Call(kid: string, response: Response)

  function CacheAfter(calls: seq<Call>): Keys {
    if calls == [] then map[]
    else
      var n := |calls| - 1;
      KeysAfter(CacheAfter(calls[..n]), calls[n].kid, calls[n].response)
  }

  /** The answer to the call at position `n`. */
  function AnswerAt(calls: seq<Call>, n: nat): Answer
    requires n < |calls|
  {
    AnswerTo(CacheAfter(calls[..n]), calls[n].kid, calls[n].response)
  }

  function Fetches(calls: seq<Call>): nat {
    if calls == [] then 0
    else
      var n := |calls| - 1;
      Fetches(calls[..n]) + if calls[n].kid in CacheAfter(calls[..n]) then 0 else 1
  }

  function Failures(calls: seq<Call>): nat {
    if calls == [] then 0
    else
      var n := |calls| - 1;
      Failures(calls[..n]) + if AnswerAt(calls, n).Found? then 0 else 1
  }

  function Resolved(calls: seq<Call>): set<string> {
    if calls == [] then {}
    else
      var n := |calls| - 1;
      Resolved(calls[..n]) + if AnswerAt(calls, n).Found? then {calls[n].kid} else {}
  }

  /** Complete responses never drop a kid. They may rebind one, and fetches may fail in between. */
  predicate NeverWithdraws(calls: seq<Call>) {
    forall i, j :: 0 <= i < j < |calls| && Parse(calls[i].response).Some? && Parse(calls[j].response).Some? ==>
      Parse(calls[i].response).value.Keys <= Parse(calls[j].response).value.Keys
  }

  /** Every response parses, and later ones only add kids. */
  predicate OnlyAdds(calls: seq<Call>) {
    && (forall i :: 0 <= i < |calls| ==> Parse(calls[i].response).Some?)
    && (forall i, j, kid :: 0 <= i < j < |calls| && kid in Parse(calls[i].response).value ==>
          kid in Parse(calls[j].response).value
          && Parse(calls[j].response).value[kid] == Parse(calls[i].response).value[kid])
  }

  /** A call that a fetch fails, or that finds an unusable entry, leaves the cache as it was and says so. */
  lemma FailedFetchKeepsCache(calls: seq<Call>, call: Call)
    requires !Complete(call.response)
    ensures CacheAfter(calls + [call]) == CacheAfter(calls)
    ensures AnswerAt(calls + [call], |calls|) ==
            if call.kid in CacheAfter(calls) then Found(CacheAfter(calls)[call.kid]) else FetchFailed
  {
    ParsesExactly(call.response);
    assert (calls + [call])[..|calls|] == calls;
  }

  /** Through an outage, from call `k` on, every cached kid keeps its answer and every other call fails. */
  lemma {:induction false} OutageKeepsAnswers(calls: seq<Call>, k: nat, n: nat)
    requires k <= n < |calls| && forall i :: k <= i < |calls| ==> !Complete(calls[i].response)
    ensures CacheAfter(calls[..n]) == CacheAfter(calls[..k])
    ensures AnswerAt(calls, n) ==
            if calls[n].kid in CacheAfter(calls[..k]) then Found(CacheAfter(calls[..k])[calls[n].kid]) else FetchFailed
  {
    ParsesExactly(calls[n].response);
    if k < n {
      OutageKeepsAnswers(calls, k, n - 1);
      ParsesExactly(calls[n - 1].response);
      assert calls[..n][..n - 1] == calls[..n - 1];
    }
  }

  /** The cache is empty, or is one earlier response, complete. */
  lemma {:induction false} CacheIsOneResponse(calls: seq<Call>)
    ensures CacheAfter(calls) == map[]
            || exists i :: 0 <= i < |calls| && Parse(calls[i].response) == Some(CacheAfter(calls))
  {
    if calls != [] {
      var n := |calls| - 1;
      CacheIsOneResponse(calls[..n]);
      if CacheAfter(calls) == CacheAfter(calls[..n]) {
        if CacheAfter(calls) != map[] {
          var i :| 0 <= i < n && Parse(calls[..n][i].response) == Some(CacheAfter(calls[..n]));
          assert Parse(calls[i].response) == Some(CacheAfter(calls));
        }
      } else {
        assert Parse(calls[n].response) == Some(CacheAfter(calls));
      }
    }
  }

  lemma {:induction false} ResolvedStayCached(calls: seq<Call>)
    requires NeverWithdraws(calls)
    ensures Resolved(calls) <= CacheAfter(calls).Keys
    ensures Fetches(calls) <= |Resolved(calls)| + Failures(calls)
  {
    if calls != [] {
      var n := |calls| - 1;
      var before, l := calls[..n], calls[n];
      assert forall i :: 0 <= i < n ==> before[i] == calls[i];
      ResolvedStayCached(before);
      CacheIsOneResponse(before);
      if l.kid !in CacheAfter(before) {
        if CacheAfter(before) != map[] && Parse(l.response).Some? {
          var i :| 0 <= i < n && Parse(before[i].response) == Some(CacheAfter(before));
          assert calls[i] == before[i];
          assert CacheAfter(before).Keys <= Parse(l.response).value.Keys;
        }
        assert l.kid !in Resolved(before);
      } else {
        assert Resolved(before) <= Resolved(calls);
        SubsetSize(Resolved(before), Resolved(calls));
      }
    }
  }

  lemma SubsetSize<T>(a: set<T>, b: set<T>)
    requires a <= b
    ensures |a| <= |b|
  {
    assert b == a + (b - a);
  }

  /** If the publisher never withdraws a kid, a run fetches at most once for each distinct kid it resolves
      and once for each call that fails. */
  lemma FetchBound(calls: seq<Call>)
    requires NeverWithdraws(calls)
    ensures Fetches(calls) <= |Resolved(calls)| + Failures(calls)
  {
    ResolvedStayCached(calls);
  }

  /** Only a miss can fail. */
  lemma {:induction false} FailuresFetch(calls: seq<Call>)
    ensures Failures(calls) <= Fetches(calls) <= |calls|
  {
    if calls != [] {
      FailuresFetch(calls[..|calls| - 1]);
    }
  }

  /** Two kids published in turn are fetched again on every call: the bound needs the publisher's patience. */
  lemma WithdrawalBreaksTheBound()
    ensures var a := Published([Entry(Some("a"), Some("ka"))]);
            var b := Published([Entry(Some("b"), Some("kb"))]);
            var calls := [Call("a", a), Call("b", b), Call("a", a)];
            Fetches(calls) == 3 && Resolved(calls) == {"a", "b"} && Failures(calls) == 0
  {
    var a := Published([Entry(Some("a"), Some("ka"))]);
    var b := Published([Entry(Some("b"), Some("kb"))]);
    var calls := [Call("a", a), Call("b", b), Call("a", a)];
    assert a.entries[..0] == [] && b.entries[..0] == [];
    assert Parse(a) == Some(map["a" := "ka"]) && Parse(b) == Some(map["b" := "kb"]);
    assert calls[..0] == [] && calls[..1] == [calls[0]] && calls[..2] == [calls[0], calls[1]] && calls[..3] == calls;
    assert calls[..1][..0] == [] && calls[..2][..1] == calls[..1];
    assert CacheAfter(calls[..1]) == map["a" := "ka"];
    assert CacheAfter(calls[..2]) == map["b" := "kb"];
    assert Fetches(calls[..1]) == 1 && Fetches(calls[..2]) == 2;
    assert Failures(calls[..1]) == 0 && Failures(calls[..2]) == 0;
    assert Resolved(calls[..1]) == {"a"} && Resolved(calls[..2]) == {"a", "b"};
  }

  // ---- Against a resolver without a cache ----------------------------------------

  /** One call answers as a fetch would exactly when the kid is not cached, or the publisher would still
      serve the cached key for it. */
  lemma AgreesExactlyWhen(keys: Keys, kid: string, r: Response)
    ensures AnswerTo(keys, kid, r) == AlwaysFetch(kid, r) <==>
            (kid in keys ==> Parse(r).Some? && kid in Parse(r).value && Parse(r).value[kid] == keys[kid])
  {
  }

  /** If the publisher only adds kids, the cache is invisible in every run. */
  lemma CacheIsInvisible(calls: seq<Call>, n: nat)
    requires n < |calls| && OnlyAdds(calls)
    ensures AnswerAt(calls, n) == AlwaysFetch(calls[n].kid, calls[n].response)
  {
    var keys := CacheAfter(calls[..n]);
    CacheIsOneResponse(calls[..n]);
    if keys != map[] {
      var i :| 0 <= i < n && Parse(calls[..n][i].response) == Some(keys);
      assert Parse(calls[i].response) == Some(keys);
    }
    AgreesExactlyWhen(keys, calls[n].kid, calls[n].response);
  }

  /** A withdrawn key is still accepted while it is cached. */
  lemma WithdrawnKeyIsStillAccepted()
    ensures var calls := [Call("a", Published([Entry(Some("a"), Some("ka"))])), Call("a", Published([]))];
            AnswerAt(calls, 1) == Found("ka") && AlwaysFetch("a", calls[1].response) == UnknownKid
  {
    var calls := [Call("a", Published([Entry(Some("a"), Some("ka"))])), Call("a", Published([]))];
    assert calls[0].response.entries[..0] == [];
    assert calls[..1][..0] == [] && calls[..1][0] == calls[0];
    assert CacheAfter(calls[..1]) == map["a" := "ka"];
  }
}
