/** Logins over whole runs of the owner door: one caller at a time, and many threads. */
module OwnerLogins {
  import opened Wrappers
  import opened JwksCache
  import opened Tokens
  import JwksThreads

  /** The token is signed with the key that the complete response gives its kid. */
  ghost predicate SignedAsPublished(t: Jwt, r: Response) {
    && t.kid.Some? && t.signature.SignedWith? && t.signature.algorithm == ES256
    && Binds(r, t.kid.value, t.signature.key)
  }

  lemma SignedExactly(t: Jwt, r: Response)
    ensures SignedAsPublished(t, r) <==>
            && t.kid.Some? && Parse(r).Some? && t.kid.value in Parse(r).value
            && t.signature == SignedWith(ES256, Parse(r).value[t.kid.value])
  {
    ParsesExactly(r);
    hide Parse, Binds;
  }

  /** An accepted token is no MCP token, and what its user can edit had no say in it. */
  lemma OwnerTokenOnly(v: OwnerVerifier, t: Jwt, answer: Answer, now: real, mcp: McpVerifier, now': real, forged: Option<string>)
    requires VerifyWith(v, t, answer, now).Ok?
    ensures VerifyMcp(mcp, t, now').Err?
    ensures VerifyWith(v, t.(claims := t.claims.(userTenant := forged)), answer, now) == VerifyWith(v, t, answer, now)
  {
  }

  /** Over any run, whatever the publisher serves and when: a login is accepted only if it is signed with the key that
      some complete response so far binds to its kid. Its tenant is the one that the signed app_metadata names, and the
      MCP door would refuse it at any time under any secret. */
  lemma AcceptedWasPublished(v: OwnerVerifier, calls: seq<Call>, n: nat, t: Jwt, now: real)
    requires n < |calls| && t.kid == Some(calls[n].kid)
    requires VerifyOwner(v, CacheAfter(calls[..n]), calls[n].response, t, now).Ok?
    ensures exists i :: 0 <= i <= n && SignedAsPublished(t, calls[i].response)
    ensures Some(VerifyOwner(v, CacheAfter(calls[..n]), calls[n].response, t, now).value.tenantId) == t.claims.appTenant
    ensures forall mcp, now' :: VerifyMcp(mcp, t, now').Err?
  {
    var keys, r := CacheAfter(calls[..n]), calls[n].response;
    var context := VerifyOwner(v, keys, r, t, now).value;
    OwnerAcceptsExactly(v, keys, r, t, now, context.tenantId, context.userId);
    CacheIsOneResponse(calls[..n]);
    hide VerifyOwner;
    if calls[n].kid in keys {
      var i :| 0 <= i < n && Parse(calls[..n][i].response) == Some(keys);
      SignedExactly(t, calls[i].response);
    } else {
      assert SignedAsPublished(t, calls[n].response);
    }
  }

  /** In every interleaving of threads too: an accepted login is signed with the key that some response, fetched by
      some thread of the run, binds to its kid. */
  lemma AcceptedWasFetched(v: OwnerVerifier, labels: seq<JwksThreads.Label>, thread: JwksThreads.ThreadId, t: Jwt, now: real)
    requires JwksThreads.Run(JwksThreads.INITIAL, labels).Some?
    requires var s := JwksThreads.Run(JwksThreads.INITIAL, labels).value;
             && thread in s.threads && s.threads[thread].phase.Returned? && t.kid == Some(s.threads[thread].kid)
             && VerifyWith(v, t, s.threads[thread].phase.answer, now).Ok?
    ensures exists k :: JwksThreads.FetchedAt(labels, k) && SignedAsPublished(t, labels[k].action.response)
  {
    var s := JwksThreads.Run(JwksThreads.INITIAL, labels).value;
    var th := s.threads[thread];
    JwksThreads.EveryKeyWasPublished(labels);
    assert JwksThreads.ThreadInv(s, th);
    var i :| 0 <= i < |s.received| && th.kid in s.received[i] && s.received[i][th.kid] == th.phase.answer.key;
    JwksThreads.ReceivedWereFetched(labels, i);
    var k :| JwksThreads.FetchedAt(labels, k) && Parse(labels[k].action.response).value == s.received[i];
    SignedExactly(t, labels[k].action.response);
  }

  /** While the publisher only adds keys, a login that some response of the run bound is judged on its claims alone, at
      every later call: the cache neither forgets its key nor confuses it. */
  lemma PublishedStaysAccepted(v: OwnerVerifier, calls: seq<Call>, i: nat, n: nat, t: Jwt, now: real)
    requires i <= n < |calls| && OnlyAdds(calls) && t.kid == Some(calls[n].kid) && calls[n].kid != ""
    requires SignedAsPublished(t, calls[i].response)
    ensures VerifyOwner(v, CacheAfter(calls[..n]), calls[n].response, t, now)
            == VerifyWith(v, t, Found(t.signature.key), now)
  {
    SignedExactly(t, calls[i].response);
    CachedLoginsAgree(v, calls, n, t, now);
    assert i < n ==> Parse(calls[n].response).value[calls[n].kid] == Parse(calls[i].response).value[calls[n].kid];
  }
}
