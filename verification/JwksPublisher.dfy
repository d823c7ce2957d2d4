/** What the key cache needs of the publisher, exactly: for a given history of responses, over every run of calls. */
module JwksPublisher {
  import opened Wrappers
  import opened JwksCache

  /** The run that asks for the given kids while the publisher serves the given responses. */
  function Asked(kids: seq<string>, rs: seq<Response>): (calls: seq<Call>)
    requires |kids| == |rs|
    ensures |calls| == |rs| && forall i :: 0 <= i < |rs| ==> calls[i] == Call(kids[i], rs[i])
  {
    seq(|rs|, i requires 0 <= i < |rs| => Call(kids[i], rs[i]))
  }

  /** The response serves the kid. */
  predicate Serves(r: Response, kid: string) {
    Parse(r).Some? && kid in Parse(r).value
  }

  lemma OneMoreCall(calls: seq<Call>, n: nat)
    requires n < |calls|
    ensures CacheAfter(calls[..n + 1]) == KeysAfter(CacheAfter(calls[..n]), calls[n].kid, calls[n].response)
    ensures AnswerAt(calls[..n + 1], n) == AnswerAt(calls, n)
    ensures Fetches(calls[..n + 1]) == Fetches(calls[..n]) + if calls[n].kid in CacheAfter(calls[..n]) then 0 else 1
    ensures Failures(calls[..n + 1]) == Failures(calls[..n]) + if AnswerAt(calls, n).Found? then 0 else 1
    ensures Resolved(calls[..n + 1]) == Resolved(calls[..n]) + if AnswerAt(calls, n).Found? then {calls[n].kid} else {}
  {
    assert calls[..n + 1][..n] == calls[..n] && calls[..n + 1][n] == calls[n];
  }

  // ---- When the cache cannot be noticed ------------------------------------------

  predicate AgreesThroughout(calls: seq<Call>) {
    forall n :: 0 <= n < |calls| ==> AnswerAt(calls, n) == AlwaysFetch(calls[n].kid, calls[n].response)
  }

  /** What a response serves, every later one serves too, with the same key; and it parses. */
  ghost predicate KeepsBindings(rs: seq<Response>) {
    forall i, j, kid :: 0 <= i < j < |rs| && Serves(rs[i], kid) ==>
      Serves(rs[j], kid) && Parse(rs[j]).value[kid] == Parse(rs[i]).value[kid]
  }

  lemma KeptBindingsAgree(rs: seq<Response>, kids: seq<string>, n: nat)
    requires KeepsBindings(rs) && |kids| == |rs| && n < |rs|
    ensures AnswerAt(Asked(kids, rs), n) == AlwaysFetch(kids[n], rs[n])
  {
    var calls := Asked(kids, rs);
    var keys := CacheAfter(calls[..n]);
    CacheIsOneResponse(calls[..n]);
    if kids[n] in keys {
      var i :| 0 <= i < n && Parse(calls[..n][i].response) == Some(keys);
      assert Serves(rs[i], kids[n]);
    }
    AgreesExactlyWhen(keys, kids[n], rs[n]);
  }

  /** A run that always asks for one kid keeps the first cache that has it. */
  lemma {:induction false} OneKidStays(calls: seq<Call>, kid: string, i: nat, j: nat)
    requires i <= j <= |calls| && (forall x :: 0 <= x < |calls| ==> calls[x].kid == kid)
    requires kid in CacheAfter(calls[..i])
    ensures CacheAfter(calls[..j]) == CacheAfter(calls[..i])
  {
    if i < j {
      OneKidStays(calls, kid, i, j - 1);
      OneMoreCall(calls, j - 1);
    }
  }

  lemma AgreementKeepsBindings(rs: seq<Response>, kid: string, i: nat, j: nat)
    requires i < j < |rs| && Serves(rs[i], kid)
    requires AgreesThroughout(Asked(seq(|rs|, _ => kid), rs))
    ensures Serves(rs[j], kid) && Parse(rs[j]).value[kid] == Parse(rs[i]).value[kid]
  {
    var calls := Asked(seq(|rs|, _ => kid), rs);
    OneMoreCall(calls, i);
    assert AnswerAt(calls, i) == AlwaysFetch(calls[i].kid, calls[i].response);
    assert AnswerAt(calls, j) == AlwaysFetch(calls[j].kid, calls[j].response);
    OneKidStays(calls, kid, i + 1, j);
  }

  /** The cache answers every run over a history as a resolver that always fetches, exactly when the history only adds:
      whatever it has served for a kid it goes on serving. */
  lemma InvisibleExactlyWhen(rs: seq<Response>)
    ensures (forall kids: seq<string> :: |kids| == |rs| ==> AgreesThroughout(Asked(kids, rs))) <==> KeepsBindings(rs)
  {
    hide AnswerAt, AlwaysFetch;
    if forall kids: seq<string> :: |kids| == |rs| ==> AgreesThroughout(Asked(kids, rs)) {
      forall i, j, kid | 0 <= i < j < |rs| && Serves(rs[i], kid)
        ensures Serves(rs[j], kid) && Parse(rs[j]).value[kid] == Parse(rs[i]).value[kid]
      {
        var kids := seq(|rs|, _ => kid);
        assert AgreesThroughout(Asked(kids, rs));
        AgreementKeepsBindings(rs, kid, i, j);
      }
    }
    if KeepsBindings(rs) {
      forall kids: seq<string>, n | |kids| == |rs| && 0 <= n < |rs|
        ensures AnswerAt(Asked(kids, rs), n) == AlwaysFetch(kids[n], rs[n])
      {
        KeptBindingsAgree(rs, kids, n);
      }
    }
  }

  // ---- When the fetches are bounded ----------------------------------------------

  predicate Bounded(calls: seq<Call>) {
    Fetches(calls) <= |Resolved(calls)| + Failures(calls)
  }

  /** A kid that a complete response has dropped is never served again. */
  ghost predicate NoKidReturns(rs: seq<Response>) {
    forall i, j, n, kid :: 0 <= i < j < n < |rs| && Serves(rs[i], kid) && Parse(rs[j]).Some? && Serves(rs[n], kid) ==>
      Serves(rs[j], kid)
  }

  /** The position of the call that filled the cache, or -1. */
  function LastRefresh(calls: seq<Call>): int {
    if calls == [] then -1
    else
      var n := |calls| - 1;
      if calls[n].kid in CacheAfter(calls[..n]) || Parse(calls[n].response).None? then LastRefresh(calls[..n]) else n
  }

  lemma {:induction false} CacheIsLastRefresh(calls: seq<Call>)
    ensures -1 <= LastRefresh(calls) < |calls|
    ensures LastRefresh(calls) >= 0 ==> Parse(calls[LastRefresh(calls)].response).Some?
    ensures CacheAfter(calls) ==
            if LastRefresh(calls) < 0 then map[] else Parse(calls[LastRefresh(calls)].response).value
  {
    if calls != [] {
      CacheIsLastRefresh(calls[..|calls| - 1]);
    }
  }

  lemma {:induction false} RefreshesGrow(calls: seq<Call>, m: nat)
    requires m <= |calls|
    ensures LastRefresh(calls[..m]) <= LastRefresh(calls)
    decreases |calls|
  {
    if m == |calls| {
      assert calls[..m] == calls;
    } else {
      var before := calls[..|calls| - 1];
      RefreshesGrow(before, m);
      assert before[..m] == calls[..m];
      CacheIsLastRefresh(before);
    }
  }

  lemma {:induction false} ResolvedWasCached(calls: seq<Call>, kid: string) returns (m: nat)
    requires kid in Resolved(calls)
    ensures m <= |calls| && kid in CacheAfter(calls[..m])
  {
    var n := |calls| - 1;
    if kid in Resolved(calls[..n]) {
      m := ResolvedWasCached(calls[..n], kid);
      assert calls[..n][..m] == calls[..m];
    } else {
      m := |calls|;
      assert calls[..m] == calls;
    }
  }

  /** Without returns, a kid that was resolved and is still served is still cached. */
  lemma ServedStaysCached(calls: seq<Call>, n: nat, kid: string)
    requires n < |calls| && NoKidReturns(Responses(calls)) && Serves(calls[n].response, kid)
    requires kid in Resolved(calls[..n])
    ensures kid in CacheAfter(calls[..n])
  {
    hide CacheAfter, LastRefresh, Resolved, Parse;
    var before, rs := calls[..n], Responses(calls);
    var m := ResolvedWasCached(before, kid);
    CacheIsLastRefresh(before[..m]);
    CacheIsLastRefresh(before);
    RefreshesGrow(before, m);
    var i, j := LastRefresh(before[..m]), LastRefresh(before);
    assert before[..m][i] == calls[i] && before[j] == calls[j];
    assert Serves(rs[i], kid) && Parse(rs[j]).Some?;
    assert Serves(rs[j], kid);
  }

  function Responses(calls: seq<Call>): (rs: seq<Response>)
    ensures |rs| == |calls| && forall i :: 0 <= i < |calls| ==> rs[i] == calls[i].response
  {
    seq(|calls|, i requires 0 <= i < |calls| => calls[i].response)
  }

  lemma FoundIsServed(calls: seq<Call>, n: nat)
    requires n < |calls| && calls[n].kid !in CacheAfter(calls[..n]) && AnswerAt(calls, n).Found?
    ensures Serves(calls[n].response, calls[n].kid)
  {
    hide CacheAfter;
  }

  lemma {:induction false} NoReturnsBound(calls: seq<Call>, n: nat)
    requires n <= |calls| && NoKidReturns(Responses(calls))
    ensures Fetches(calls[..n]) <= |Resolved(calls[..n])| + Failures(calls[..n])
  {
    hide CacheAfter, AnswerAt, NoKidReturns, Serves, Responses;
    if n > 0 {
      hide Resolved, Fetches, Failures;
      NoReturnsBound(calls, n - 1);
      OneMoreCall(calls, n - 1);
      var kid, before := calls[n - 1].kid, calls[..n - 1];
      SubsetSize(Resolved(before), Resolved(calls[..n]));
      if kid !in CacheAfter(before) && AnswerAt(calls, n - 1).Found? {
        FoundIsServed(calls, n - 1);
        if kid in Resolved(before) { ServedStaysCached(calls, n - 1, kid); }
      }
    }
  }

  // ---- A run that shows the bound fail -------------------------------------------

  function AllKids(rs: seq<Response>): set<string> {
    if rs == [] then {}
    else AllKids(rs[..|rs| - 1]) + if Parse(rs[|rs| - 1]).Some? then Parse(rs[|rs| - 1]).value.Keys else {}
  }

  lemma {:induction false} AllKidsAreServed(rs: seq<Response>, i: nat, kid: string)
    requires i < |rs| && Serves(rs[i], kid)
    ensures kid in AllKids(rs)
  {
    if i < |rs| - 1 {
      AllKidsAreServed(rs[..|rs| - 1], i, kid);
    }
  }

  lemma {:induction false} LongerThanAll(s: set<string>) returns (n: nat)
    ensures forall x :: x in s ==> |x| < n
  {
    if s == {} {
      n := 0;
    } else {
      var x :| x in s;
      n := LongerThanAll(s - {x});
      n := if |x| < n then n else |x| + 1;
    }
  }

  /** Some kid is never served. */
  lemma UnknownToAll(rs: seq<Response>) returns (z: string)
    ensures forall i :: 0 <= i < |rs| ==> !Serves(rs[i], z)
  {
    var n := LongerThanAll(AllKids(rs));
    z := seq(n, _ => 'z');
    forall i | 0 <= i < |rs|
      ensures !Serves(rs[i], z)
    {
      if Serves(rs[i], z) { AllKidsAreServed(rs, i, z); }
    }
  }

  /** Ask for `k` when it is first served and when it returns, and otherwise for the unknown kid. */
  ghost predicate AsksTwice(calls: seq<Call>, k: string, z: string, m: int, j: int, n: int) {
    && 0 <= m < j < n < |calls| && k != z
    && (forall x :: 0 <= x < |calls| ==> calls[x].kid == (if x == m || x == n then k else z) && !Serves(calls[x].response, z))
    && Serves(calls[m].response, k) && Serves(calls[n].response, k) && Parse(calls[j].response).Some?
    && (forall x :: 0 <= x < m || j <= x < n ==> !Serves(calls[x].response, k))
  }

  lemma NeverCached(calls: seq<Call>, kid: string)
    requires forall x :: 0 <= x < |calls| ==> !Serves(calls[x].response, kid)
    ensures kid !in CacheAfter(calls)
  {
    CacheIsOneResponse(calls);
  }

  lemma {:induction false} GoneFrom(calls: seq<Call>, k: string, z: string, m: int, j: int, n: int, x: nat)
    requires AsksTwice(calls, k, z, m, j, n) && j < x <= n
    ensures k !in CacheAfter(calls[..x])
  {
    hide CacheAfter;
    OneMoreCall(calls, x - 1);
    NeverCached(calls[..x - 1], z);
    if x - 1 > j {
      GoneFrom(calls, k, z, m, j, n, x - 1);
    }
  }

  lemma {:induction false} OneFetchTooMany(calls: seq<Call>, k: string, z: string, m: int, j: int, n: int, p: nat)
    requires AsksTwice(calls, k, z, m, j, n) && p <= |calls|
    ensures Resolved(calls[..p]) == if p > m then {k} else {}
    ensures Fetches(calls[..p]) == Failures(calls[..p]) + |Resolved(calls[..p])| + if p > n then 1 else 0
  {
    hide CacheAfter, Resolved, Fetches, Failures;
    if p == 0 {
      assert calls[..0] == [];
      NothingAsked();
    } else {
      var x := p - 1;
      OneFetchTooMany(calls, k, z, m, j, n, x);
      OneMoreCall(calls, x);
      NeverCached(calls[..x], z);
      if x == m {
        NeverCached(calls[..x], k);
      } else if x == n {
        GoneFrom(calls, k, z, m, j, n, x);
      }
    }
  }

  lemma NothingAsked()
    ensures Resolved([]) == {} && Fetches([]) == 0 && Failures([]) == 0
  {
  }

  lemma {:induction false} FirstServed(rs: seq<Response>, k: string, from: nat, i: nat) returns (m: nat)
    requires from <= i < |rs| && Serves(rs[i], k)
    ensures from <= m <= i && Serves(rs[m], k) && forall x :: from <= x < m ==> !Serves(rs[x], k)
    decreases i - from
  {
    if Serves(rs[from], k) {
      m := from;
    } else {
      m := FirstServed(rs, k, from + 1, i);
    }
  }

  lemma AReturnBreaksTheBound(rs: seq<Response>, k: string, i: nat, j: nat, n: nat) returns (kids: seq<string>)
    requires i < j < n < |rs| && Serves(rs[i], k) && Parse(rs[j]).Some? && !Serves(rs[j], k) && Serves(rs[n], k)
    ensures |kids| == |rs| && !Bounded(Asked(kids, rs))
  {
    var z := UnknownToAll(rs);
    var m := FirstServed(rs, k, 0, i);
    var n' := FirstServed(rs, k, j, n);
    kids := seq(|rs|, x => if x == m || x == n' then k else z);
    var calls := Asked(kids, rs);
    hide Serves;
    assert AsksTwice(calls, k, z, m, j, n');
    OneFetchTooMany(calls, k, z, m, j, n', |calls|);
    assert calls[..|calls|] == calls;
  }

  /** Over a history of responses every run fetches at most once for each distinct kid it resolves and once for each call
      that fails, exactly when no kid that a complete response has dropped is ever served again. */
  lemma FetchBoundExactlyWhen(rs: seq<Response>)
    ensures (forall kids: seq<string> :: |kids| == |rs| ==> Bounded(Asked(kids, rs))) <==> NoKidReturns(rs)
  {
    hide Serves, Fetches, Failures, Resolved;
    if NoKidReturns(rs) {
      forall kids: seq<string> | |kids| == |rs|
        ensures Bounded(Asked(kids, rs))
      {
        var calls := Asked(kids, rs);
        assert Responses(calls) == rs && calls[..|calls|] == calls;
        NoReturnsBound(calls, |calls|);
      }
    } else {
      var i, j, n, kid :| 0 <= i < j < n < |rs| && Serves(rs[i], kid) && Parse(rs[j]).Some? && Serves(rs[n], kid)
                          && !Serves(rs[j], kid);
      var kids := AReturnBreaksTheBound(rs, kid, i, j, n);
      assert |kids| == |rs| && !Bounded(Asked(kids, rs));
    }
  }
}
