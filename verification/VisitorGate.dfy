/** The visitor door: the size pre-check, the gate, and an arbitrary stateful rate limiter. */
module VisitorGate {
  import opened Wrappers
  import opened Text
  import opened Origins

  // ---- Requests ------------------------------------------------------------------

  datatype Json =
    | JNull | JBool(b: bool) | JNumber(n: real) | JString(s: string)
    | JArray(items: seq<Json>)
    | JObject(members: seq<(string, Json)>)

  /** What json.loads makes of the body: a decode error, another exception (bytes that are no UTF-8,
      nesting too deep), or a value. */
  datatype Body = Undecodable | Breaks | Decoded(json: Json)

  datatype Request = Request(
    path: string, declared: Option<string>, widgetKey: Option<string>, origin: Option<string>, referer: Option<string>,
    clientIp: Option<string>, size: nat, body: Body)

  /** A row of widget_keys. */
  datatype KeyRow = KeyRow(tenantId: string, allowedHosts: set<string>)

  /** 500 stands for an exception that is no AppError. */
  datatype Outcome = PassedBy | Admitted(tenantId: string, query: string) | Rejected(status: nat)

  datatype LimiterCall = LimiterCall(widgetKey: string, clientIp: Option<string>)

  // ---- The pre-check -------------------------------------------------------------

  /** str.isdigit accepts more than int() does; header text is Latin-1. */
  predicate IsDigit(s: string) {
    s != "" && forall i :: 0 <= i < |s| ==> Digit(s[i]) || s[i] == '\U{b2}' || s[i] == '\U{b3}' || s[i] == '\U{b9}'
  }

  const MAX_INT_DIGITS := 4300

  function DigitValue(c: char): nat
    requires Digit(c)
  {
    c as int - '0' as int
  }

  function DigitsValue(s: string): nat
    requires forall i :: 0 <= i < |s| ==> Digit(s[i])
  {
    if s == "" then 0 else 10 * DigitsValue(s[..|s| - 1]) + DigitValue(s[|s| - 1])
  }

  /** int() on a string that passed isdigit; None when it raises ValueError. */
  function ParseInt(s: string): Option<nat> {
    if |s| <= MAX_INT_DIGITS && forall i :: 0 <= i < |s| ==> Digit(s[i]) then Some(DigitsValue(s)) else None
  }

  /** None lets the request on. */
  function Precheck(declared: Option<string>, maxBody: nat): Option<nat> {
    if declared.None? || !IsDigit(declared.value) then None
    else if ParseInt(declared.value).None? then Some(500)
    else if ParseInt(declared.value).value > maxBody then Some(413)
    else None
  }

  // ---- The gate ------------------------------------------------------------------

  function Lookup(rows: map<string, KeyRow>, key: string): Option<KeyRow> {
    if key in rows then Some(KeyRow(rows[key].tenantId, RequestHosts(rows[key].allowedHosts))) else None
  }

  /** _check_origin: a present Origin decides alone. */
  predicate SourceAllowed(origin: Option<string>, referer: Option<string>, hosts: set<string>) {
    if origin.Some? then HostAllowed(origin.value, hosts)
    else referer.Some? && HostAllowed(referer.value, hosts)
  }

  /** payload.get("query"): the last member of that name. */
  function Get(members: seq<(string, Json)>, name: string): Option<Json> {
    if members == [] then None
    else
      var last := members[|members| - 1];
      if last.0 == name then Some(last.1) else Get(members[..|members| - 1], name)
  }

  /** _sanitize_query: the query, or the status of the rejection. */
  function Sanitize(body: Body): Result<string, nat> {
    match body
    case Undecodable => Err(400)
    case Breaks => Err(500)
    case Decoded(json) =>
      if !json.JObject? then Err(400)
      else
        var q := Get(json.members, "query");
        if q.None? || !q.value.JString? || Strip(q.value.s) == "" then Err(400) else Ok(q.value.s)
  }

  /** Everything before the limiter: the call to make and the tenant, or a rejection. */
  function Screen(rows: map<string, KeyRow>, maxBody: nat, r: Request): Result<(LimiterCall, string), nat> {
    if r.size > maxBody then Err(413)
    else if r.widgetKey.None? || r.widgetKey.value == "" then Err(401)
    else
      var row := Lookup(rows, r.widgetKey.value);
      if row.None? then Err(401)
      else if !SourceAllowed(r.origin, r.referer, row.value.allowedHosts) then Err(403)
      else Ok((LimiterCall(r.widgetKey.value, r.clientIp), row.value.tenantId))
  }

  function AfterLimiter(tenantId: string, allowed: bool, body: Body): Outcome {
    if !allowed then Rejected(429)
    else if Sanitize(body).Err? then Rejected(Sanitize(body).error)
    else Admitted(tenantId, Sanitize(body).value)
  }

  /** A limiter answers each call from its state, and moves on. */
  type Limiter<!L> = (L, LimiterCall) -> (L, bool)

  /** What VisitorGate.authorize does to the limiter and decides. */
  function Authorize<L>(limiter: Limiter<L>, state: L, rows: map<string, KeyRow>, maxBody: nat, r: Request): (L, Outcome) {
    var s := Screen(rows, maxBody, r);
    if s.Err? then (state, Rejected(s.error))
    else
      var (next, allowed) := limiter(state, s.value.0);
      (next, AfterLimiter(s.value.1, allowed, r.body))
  }

  const WIDGET_PATH_PREFIX := "/v1/widget"

  predicate OnWidgetPath(r: Request) { WIDGET_PATH_PREFIX <= r.path }

  function Middleware<L>(limiter: Limiter<L>, state: L, rows: map<string, KeyRow>, maxBody: nat, r: Request): (L, Outcome) {
    if !OnWidgetPath(r) then (state, PassedBy)
    else if Precheck(r.declared, maxBody).Some? then (state, Rejected(Precheck(r.declared, maxBody).value))
    else Authorize(limiter, state, rows, maxBody, r)
  }

  // ---- The stateful gate ---------------------------------------------------------

  /** The application: its limiter, and what reaches the handler as request.state.visitor_context. */
  class App<L> {
    const limiter: Limiter<L>
    const rows: map<string, KeyRow>
    const maxBody: nat
    var state: L
    var calls: seq<LimiterCall>
    var contexts: seq<(string, string)>

    constructor (limiter: Limiter<L>, state: L, rows: map<string, KeyRow>, maxBody: nat)
      ensures this.limiter == limiter && this.rows == rows && this.maxBody == maxBody
      ensures this.state == state && calls == [] && contexts == []
    {
      this.limiter, this.rows, this.maxBody := limiter, rows, maxBody;
      this.state, calls, contexts := state, [], [];
    }

    /** RateLimiter.check */
    method CheckRate(call: LimiterCall) returns (allowed: bool)
      modifies this`state, this`calls
      ensures (state, allowed) == limiter(old(state), call) && calls == old(calls) + [call]
    {
      var answer := limiter(state, call);
      state, allowed, calls := answer.0, answer.1, calls + [call];
    }

    method AuthorizeRequest(r: Request) returns (outcome: Outcome)
      modifies this`state, this`calls
      ensures (state, outcome) == Authorize(limiter, old(state), rows, maxBody, r)
      ensures calls == old(calls) + if Screen(rows, maxBody, r).Ok? then [Screen(rows, maxBody, r).value.0] else []
    {
      if r.size > maxBody {
        return Rejected(413);
      }
      if r.widgetKey.None? || r.widgetKey.value == "" {
        return Rejected(401);
      }
      var record := Lookup(rows, r.widgetKey.value);
      if record.None? {
        return Rejected(401);
      }
      if !SourceAllowed(r.origin, r.referer, record.value.allowedHosts) {
        return Rejected(403);
      }
      var allowed := CheckRate(LimiterCall(r.widgetKey.value, r.clientIp));
      if !allowed {
        return Rejected(429);
      }
      var query := Sanitize(r.body);
      if query.Err? {
        return Rejected(query.error);
      }
      return Admitted(record.value.tenantId, query.value);
    }

    /** visitor_gate_middleware */
    method Handle(r: Request) returns (outcome: Outcome)
      modifies this
      ensures (state, outcome) == Middleware(limiter, old(state), rows, maxBody, r)
      ensures calls == old(calls) + CallsOf(rows, maxBody, [r])
      ensures contexts == old(contexts) + if outcome.Admitted? then [(outcome.tenantId, outcome.query)] else []
    {
      hide SourceAllowed, FromListed;
      ScreenExactly(rows, maxBody, r);
      assert [r][..0] == [];
      assert CallsOf(rows, maxBody, []) == [];
      if !OnWidgetPath(r) {
        return PassedBy;
      }
      var early := Precheck(r.declared, maxBody);
      if early.Some? {
        return Rejected(early.value);
      }
      outcome := AuthorizeRequest(r);
      if outcome.Admitted? {
        contexts := contexts + [(outcome.tenantId, outcome.query)];
      }
    }

    /** Requests handled in turn. The limiter hears from exactly those that pass the path, size, key and origin
        checks, in their order, whatever it answers; and every context handed on is of a registered tenant. */
    method HandleAll(requests: seq<Request>) returns (outcomes: seq<Outcome>)
      modifies this
      ensures |outcomes| == |requests|
      ensures calls == old(calls) + CallsOf(rows, maxBody, requests)
      ensures forall i :: 0 <= i < |requests| && outcomes[i].Admitted? ==> AdmittedByItsKey(rows, requests[i], outcomes[i])
      ensures forall i :: 0 <= i < |requests| ==> (outcomes[i].PassedBy? <==> !("/v1/widget" <= requests[i].path))
      ensures (state, outcomes) == MiddlewareRun(limiter, old(state), rows, maxBody, requests)
    {
      hide Middleware, Sanitize, AdmittedByItsKey, CallsOf, MiddlewareRun;
      NoneYet(limiter, state, rows, maxBody);
      assert requests[..0] == [];
      outcomes := [];
      var i := 0;
      while i < |requests|
        invariant 0 <= i <= |requests| && |outcomes| == i
        invariant calls == old(calls) + CallsOf(rows, maxBody, requests[..i])
        invariant forall j :: 0 <= j < i && outcomes[j].Admitted? ==> AdmittedByItsKey(rows, requests[j], outcomes[j])
        invariant forall j :: 0 <= j < i ==> (outcomes[j].PassedBy? <==> !("/v1/widget" <= requests[j].path))
        invariant (state, outcomes) == MiddlewareRun(limiter, old(state), rows, maxBody, requests[..i])
      {
        ghost var before := state;
        var outcome := Handle(requests[i]);
        CallsOneMore(rows, maxBody, requests[..i], requests[i]);
        MiddlewareAdmits(limiter, before, rows, maxBody, requests[i]);
        assert requests[..i + 1] == requests[..i] + [requests[i]];
        RunOneMore(limiter, old(state), rows, maxBody, requests[..i], requests[i]);
        outcomes, i := outcomes + [outcome], i + 1;
      }
      assert requests[..i] == requests;
    }
  }

  function MiddlewareRun<L>(limiter: Limiter<L>, state: L, rows: map<string, KeyRow>, maxBody: nat, requests: seq<Request>)
    : (L, seq<Outcome>)
  {
    if requests == [] then (state, [])
    else
      var n := |requests| - 1;
      var before := MiddlewareRun(limiter, state, rows, maxBody, requests[..n]);
      var last := Middleware(limiter, before.0, rows, maxBody, requests[n]);
      (last.0, before.1 + [last.1])
  }

  /** The tenant of an admitted request is the one in the row of its key, and its query is the body's. */
  predicate AdmittedByItsKey(rows: map<string, KeyRow>, r: Request, o: Outcome) {
    o.Admitted? && r.widgetKey.Some? && r.widgetKey.value in rows && o.tenantId == rows[r.widgetKey.value].tenantId
    && Sanitize(r.body) == Ok(o.query)
  }

  lemma NoneYet<L>(limiter: Limiter<L>, state: L, rows: map<string, KeyRow>, maxBody: nat)
    ensures CallsOf(rows, maxBody, []) == [] && MiddlewareRun(limiter, state, rows, maxBody, []) == (state, [])
  {
  }

  lemma RunOneMore<L>(limiter: Limiter<L>, state: L, rows: map<string, KeyRow>, maxBody: nat, requests: seq<Request>, r: Request)
    ensures var before := MiddlewareRun(limiter, state, rows, maxBody, requests);
            var last := Middleware(limiter, before.0, rows, maxBody, r);
            MiddlewareRun(limiter, state, rows, maxBody, requests + [r]) == (last.0, before.1 + [last.1])
  {
    assert (requests + [r])[..|requests|] == requests;
    hide Middleware;
  }

  lemma MiddlewareAdmits<L>(limiter: Limiter<L>, state: L, rows: map<string, KeyRow>, maxBody: nat, r: Request)
    ensures var o := Middleware(limiter, state, rows, maxBody, r).1;
            && (o.Admitted? ==> AdmittedByItsKey(rows, r, o))
            && (o.PassedBy? <==> !("/v1/widget" <= r.path))
  {
    hide Precheck, SourceAllowed, Get;
  }

  // ---- What reaches the limiter --------------------------------------------------

  /** The value names a host of the row, up to case. */
  predicate NamesListed(value: string, row: KeyRow) {
    exists h :: h in row.allowedHosts && OriginHost(value) == Some(Lower(h))
  }

  /** Where the request comes from: Origin if there is one, whatever it says, and Referer only without it. */
  function Source(r: Request): Option<string> {
    if r.origin.Some? then r.origin else r.referer
  }

  predicate FromListed(r: Request, row: KeyRow) {
    Source(r).Some? && NamesListed(Source(r).value, row)
  }

  lemma SourceExactly(r: Request, row: KeyRow)
    ensures SourceAllowed(r.origin, r.referer, RequestHosts(row.allowedHosts)) <==> FromListed(r, row)
  {
    hide OriginHost, Lower;
  }

  predicate Known(rows: map<string, KeyRow>, r: Request) {
    r.widgetKey.Some? && r.widgetKey.value != "" && r.widgetKey.value in rows
  }

  /** The checks ahead of the limiter, each stated on its own. */
  predicate Passes(rows: map<string, KeyRow>, maxBody: nat, r: Request) {
    && "/v1/widget" <= r.path
    && (r.declared.Some? && IsDigit(r.declared.value) ==>
          ParseInt(r.declared.value).Some? && ParseInt(r.declared.value).value <= maxBody)
    && r.size <= maxBody
    && Known(rows, r) && FromListed(r, rows[r.widgetKey.value])
  }

  lemma ScreenExactly(rows: map<string, KeyRow>, maxBody: nat, r: Request)
    ensures Screen(rows, maxBody, r) ==
            if r.size > maxBody then Err(413)
            else if !Known(rows, r) then Err(401)
            else if !FromListed(r, rows[r.widgetKey.value]) then Err(403)
            else Ok((LimiterCall(r.widgetKey.value, r.clientIp), rows[r.widgetKey.value].tenantId))
  {
    hide SourceAllowed, FromListed, RequestHosts;
    if Known(rows, r) {
      SourceExactly(r, rows[r.widgetKey.value]);
    }
  }

  /** The requests that pass, in order, as calls. */
  function CallsOf(rows: map<string, KeyRow>, maxBody: nat, requests: seq<Request>): seq<LimiterCall> {
    if requests == [] then []
    else
      var r := requests[|requests| - 1];
      CallsOf(rows, maxBody, requests[..|requests| - 1])
      + if Passes(rows, maxBody, r) then [LimiterCall(r.widgetKey.value, r.clientIp)] else []
  }

  lemma CallsOneMore(rows: map<string, KeyRow>, maxBody: nat, requests: seq<Request>, r: Request)
    ensures CallsOf(rows, maxBody, requests + [r]) == CallsOf(rows, maxBody, requests) + CallsOf(rows, maxBody, [r])
  {
    assert (requests + [r])[..|requests|] == requests;
    assert [r][..0] == [];
  }

  // ---- The pre-check is only a shortcut ------------------------------------------

  /** A length that int() can read. */
  predicate PlainLength(declared: Option<string>) {
    declared.Some? && declared.value != "" && |declared.value| <= MAX_INT_DIGITS
    && forall i :: 0 <= i < |declared.value| ==> Digit(declared.value[i])
  }

  /** The middleware decides as the gate alone would, and leaves the limiter as it would, exactly when it does
      not turn away by its declared length a body that fits. */
  lemma PrecheckAgreesExactlyWhen<L>(limiter: Limiter<L>, state: L, rows: map<string, KeyRow>, maxBody: nat, r: Request)
    requires OnWidgetPath(r) && PlainLength(r.declared)
    ensures Middleware(limiter, state, rows, maxBody, r) == Authorize(limiter, state, rows, maxBody, r) <==>
            (DigitsValue(r.declared.value) > maxBody ==> r.size > maxBody)
  {
    var n := DigitsValue(r.declared.value);
    assert Precheck(r.declared, maxBody) == if n > maxBody then Some(413) else None;
    if n > maxBody && r.size <= maxBody {
      assert Authorize(limiter, state, rows, maxBody, r).1 != Rejected(413) by {
        var s := Screen(rows, maxBody, r);
        if s.Ok? { assert Sanitize(r.body).Ok? || Sanitize(r.body).error != 413; }
      }
    }
  }

  /** So an honest content-length changes nothing. */
  lemma PrecheckIsAShortcut<L>(limiter: Limiter<L>, state: L, rows: map<string, KeyRow>, maxBody: nat, r: Request)
    requires OnWidgetPath(r) && PlainLength(r.declared) && DigitsValue(r.declared.value) == r.size
    ensures Middleware(limiter, state, rows, maxBody, r) == Authorize(limiter, state, rows, maxBody, r)
  {
    PrecheckAgreesExactlyWhen(limiter, state, rows, maxBody, r);
  }

  /** The middleware itself raises exactly on lengths that isdigit() accepts and int() does not: a
      superscript digit, or more than 4300 digits. */
  lemma LengthCrashesExactlyWhen(declared: Option<string>, maxBody: nat)
    ensures Precheck(declared, maxBody) == Some(500) <==>
            declared.Some? && IsDigit(declared.value) && !PlainLength(declared)
    ensures Precheck(declared, maxBody) == Some(500) <==>
            && declared.Some? && IsDigit(declared.value)
            && (|declared.value| > 4300
                || exists i :: 0 <= i < |declared.value| && declared.value[i] in {'\U{b2}', '\U{b3}', '\U{b9}'})
    ensures Precheck(Some("\U{b2}"), maxBody) == Some(500)
  {
    assert "\U{b2}"[0] == '\U{b2}' && !Digit("\U{b2}"[0]);
  }

  // ---- Only the query counts -----------------------------------------------------

  lemma {:induction false} GetAround(a: seq<(string, Json)>, m: (string, Json), b: seq<(string, Json)>, name: string)
    requires m.0 != name
    ensures Get(a + [m] + b, name) == Get(a + b, name)
  {
    if b == [] {
      assert (a + [m] + b)[..|a|] == a && a + b == a;
    } else {
      var n := |b| - 1;
      assert (a + [m] + b)[..|a + [m] + b| - 1] == a + [m] + b[..n];
      assert (a + b)[..|a + b| - 1] == a + b[..n];
      GetAround(a, m, b[..n], name);
    }
  }

  lemma {:induction false} GetLast(a: seq<(string, Json)>, v: Json, b: seq<(string, Json)>, name: string)
    requires forall i :: 0 <= i < |b| ==> b[i].0 != name
    ensures Get(a + [(name, v)] + b, name) == Some(v)
  {
    var all := a + [(name, v)] + b;
    if b == [] {
      assert all[|all| - 1] == (name, v);
    } else {
      assert all[..|all| - 1] == a + [(name, v)] + b[..|b| - 1];
      GetLast(a, v, b[..|b| - 1], name);
    }
  }

  /** A member of any other name, anywhere in the object, changes nothing at all. */
  lemma SmuggledMembersAreDropped<L>(limiter: Limiter<L>, state: L, rows: map<string, KeyRow>, maxBody: nat, r: Request,
                                     a: seq<(string, Json)>, m: (string, Json), b: seq<(string, Json)>)
    requires m.0 != "query"
    ensures Middleware(limiter, state, rows, maxBody, r.(body := Decoded(JObject(a + [m] + b))))
            == Middleware(limiter, state, rows, maxBody, r.(body := Decoded(JObject(a + b))))
  {
    GetAround(a, m, b, "query");
  }

  /** Of several query members the last decides, whatever comes before it. */
  lemma LastQueryDecides<L>(limiter: Limiter<L>, state: L, rows: map<string, KeyRow>, maxBody: nat, r: Request,
                            a: seq<(string, Json)>, v: Json, b: seq<(string, Json)>)
    requires forall i :: 0 <= i < |b| ==> b[i].0 != "query"
    ensures Middleware(limiter, state, rows, maxBody, r.(body := Decoded(JObject(a + [("query", v)] + b))))
            == Middleware(limiter, state, rows, maxBody, r.(body := Decoded(JObject([("query", v)]))))
  {
    GetLast(a, v, b, "query");
    GetLast([], v, [], "query");
    assert [] + [("query", v)] + [] == [("query", v)];
  }

  predicate LastMember(members: seq<(string, Json)>, name: string, i: int) {
    0 <= i < |members| && members[i].0 == name && forall j :: i < j < |members| ==> members[j].0 != name
  }

  lemma {:induction false} GetIsLast(members: seq<(string, Json)>, name: string, v: Json)
    ensures Get(members, name) == Some(v) <==> exists i :: LastMember(members, name, i) && members[i].1 == v
  {
    if members != [] {
      var n := |members| - 1;
      GetIsLast(members[..n], name, v);
      if members[n].0 == name {
        assert LastMember(members, name, n);
      } else {
        forall i ensures LastMember(members, name, i) <==> LastMember(members[..n], name, i) {
        }
        assert forall i :: LastMember(members, name, i) ==> members[..n][i] == members[i];
      }
    }
  }

  /** A body yields a query exactly when it is an object whose last query member is text that is not all blanks. */
  lemma QueryExactly(body: Body, q: string)
    ensures Sanitize(body) == Ok(q) <==>
            && body.Decoded? && body.json.JObject? && !Blank(q)
            && exists i :: LastMember(body.json.members, "query", i) && body.json.members[i].1 == JString(q)
  {
    StripBlank(q);
    if body.Decoded? && body.json.JObject? {
      GetIsLast(body.json.members, "query", JString(q));
    }
  }

  // ---- One browser request from end to end ---------------------------------------

  /** The body holds a usable query. */
  ghost predicate HasQuery(body: Body) {
    && body.Decoded? && body.json.JObject?
    && exists i :: LastMember(body.json.members, "query", i) && body.json.members[i].1.JString?
                   && !Blank(body.json.members[i].1.s)
  }

  lemma HasQueryExactly(body: Body)
    ensures HasQuery(body) <==> Sanitize(body).Ok?
    ensures Sanitize(body).Err? ==> Sanitize(body).error == if body.Breaks? then 500 else 400
    ensures body.Breaks? ==> Sanitize(body).Err?
  {
    hide Get, Blank, Strip;
    if Sanitize(body).Ok? {
      QueryExactly(body, Sanitize(body).value);
    }
    if HasQuery(body) {
      var i :| LastMember(body.json.members, "query", i) && body.json.members[i].1.JString?
               && !Blank(body.json.members[i].1.s);
      QueryExactly(body, body.json.members[i].1.s);
    }
  }

  /** The whole answer to a request past the path and length checks, and what the limiter hears of it, when its source is
      `listed` or not: the first check that fails decides. */
  ghost predicate Answered<L>(limiter: Limiter<L>, state: L, rows: map<string, KeyRow>, maxBody: nat, r: Request, listed: bool) {
    var (after, o) := Middleware(limiter, state, rows, maxBody, r);
    var asks := r.size <= maxBody && Known(rows, r) && listed;
    var call := LimiterCall(if r.widgetKey.Some? then r.widgetKey.value else "", r.clientIp);
    var allowed := limiter(state, call).1;
    && (o == Rejected(413) <==> r.size > maxBody)
    && (o == Rejected(401) <==> r.size <= maxBody && !Known(rows, r))
    && (o == Rejected(403) <==> r.size <= maxBody && Known(rows, r) && !listed)
    && (o == Rejected(429) <==> asks && !allowed)
    && (o == Rejected(500) <==> asks && allowed && r.body.Breaks?)
    && (o == Rejected(400) <==> asks && allowed && !r.body.Breaks? && !HasQuery(r.body))
    && (o.Admitted? <==> asks && allowed && HasQuery(r.body))
    && (o.Admitted? ==> o.tenantId == rows[r.widgetKey.value].tenantId
                        && exists i :: LastMember(r.body.json.members, "query", i) && r.body.json.members[i].1 == JString(o.query))
    && after == (if asks then limiter(state, call).0 else state)
    && CallsOf(rows, maxBody, [r]) == if asks then [call] else []
  }

  lemma AnsweredExactly<L>(limiter: Limiter<L>, state: L, rows: map<string, KeyRow>, maxBody: nat, r: Request)
    requires "/v1/widget" <= r.path && Precheck(r.declared, maxBody).None?
    ensures Answered(limiter, state, rows, maxBody, r, Known(rows, r) && FromListed(r, rows[r.widgetKey.value]))
  {
    hide SourceAllowed, FromListed, Sanitize, HasQuery, Screen;
    ScreenExactly(rows, maxBody, r);
    HasQueryExactly(r.body);
    OneCall(rows, maxBody, r);
    if Sanitize(r.body).Ok? {
      QueryExactly(r.body, Sanitize(r.body).value);
    }
  }

  lemma OneCall(rows: map<string, KeyRow>, maxBody: nat, r: Request)
    requires "/v1/widget" <= r.path && Precheck(r.declared, maxBody).None?
    ensures CallsOf(rows, maxBody, [r]) ==
            if r.size <= maxBody && Known(rows, r) && FromListed(r, rows[r.widgetKey.value])
            then [LimiterCall(r.widgetKey.value, r.clientIp)] else []
  {
    hide FromListed;
    assert [r][..0] == [];
  }

  /** A request from a page with a host name, by its Origin or, without one, by its Referer, in any scheme, with any port,
      path and case: its source counts exactly when the host is listed up to case. A present Origin decides alone. */
  lemma BrowserRequestExactly<L>(limiter: Limiter<L>, state: L, rows: map<string, KeyRow>, maxBody: nat, r: Request, p: Printed)
    requires "/v1/widget" <= r.path && Precheck(r.declared, maxBody).None?
    requires WellPrinted(p) && (r.origin == Some(Print(p)) || (r.origin == None && r.referer == Some(Print(p))))
    ensures Answered(limiter, state, rows, maxBody, r,
                     Known(rows, r) && exists h :: h in rows[r.widgetKey.value].allowedHosts && Lower(h) == Lower(p.host))
  {
    hide Answered, OriginHost, Print, WellPrinted, Precheck;
    AnsweredExactly(limiter, state, rows, maxBody, r);
    PrintedHost(p);
    if Known(rows, r) {
      var row := rows[r.widgetKey.value];
      assert FromListed(r, row) <==> exists h :: h in row.allowedHosts && Lower(h) == Lower(p.host);
    }
  }

  /** Without Origin and Referer, or with an Origin that names no host (`null`, empty, or without a scheme), the source never
      counts, whatever the Referer says and whatever is listed: a known key gets 403 and the limiter hears nothing. */
  lemma NoSourceIsForbidden<L>(limiter: Limiter<L>, state: L, rows: map<string, KeyRow>, maxBody: nat, r: Request)
    requires "/v1/widget" <= r.path && Precheck(r.declared, maxBody).None?
    requires (r.origin == None && r.referer == None) || (r.origin.Some? && OriginHost(r.origin.value) == None)
    ensures Answered(limiter, state, rows, maxBody, r, false)
    ensures Known(rows, r) && r.size <= maxBody ==>
              Middleware(limiter, state, rows, maxBody, r) == (state, Rejected(403)) && CallsOf(rows, maxBody, [r]) == []
  {
    hide OriginHost, Precheck, Middleware, CallsOf, HasQuery;
    AnsweredExactly(limiter, state, rows, maxBody, r);
  }

  // ---- Lengths as text -----------------------------------------------------------

  function Numeral(d: nat): char
    requires d < 10
  {
    "0123456789"[d]
  }

  /** A number as HTTP writes it. */
  function Decimal(n: nat): string {
    (if n < 10 then "" else Decimal(n / 10)) + [Numeral(n % 10)]
  }

  lemma NumeralReadsBack(d: nat)
    requires d < 10
    ensures Digit(Numeral(d)) && DigitValue(Numeral(d)) == d
  {
    assert d == 0 || d == 1 || d == 2 || d == 3 || d == 4 || d == 5 || d == 6 || d == 7 || d == 8 || d == 9;
  }

  predicate AllDigits(s: string) {
    forall i :: 0 <= i < |s| ==> Digit(s[i])
  }

  lemma OneMoreDigit(s: string, c: char)
    requires AllDigits(s) && Digit(c)
    ensures AllDigits(s + [c]) && DigitsValue(s + [c]) == 10 * DigitsValue(s) + DigitValue(c)
  {
    var t := s + [c];
    assert t[..|t| - 1] == s && t[|t| - 1] == c;
  }

  lemma {:induction false} DecimalReadsBack(n: nat)
    ensures Decimal(n) != "" && AllDigits(Decimal(n)) && DigitsValue(Decimal(n)) == n
  {
    var q, d := n / 10, n % 10;
    assert n == 10 * q + d;
    NumeralReadsBack(d);
    hide Numeral, AllDigits;
    if n >= 10 {
      DecimalReadsBack(q);
      OneMoreDigit(Decimal(q), Numeral(d));
    } else {
      NoDigits();
      OneMoreDigit("", Numeral(d));
    }
    hide Digit, DigitValue, DigitsValue;
  }

  lemma NoDigits()
    ensures AllDigits("") && DigitsValue("") == 0
  {
  }

  /** A request that declares its true length, in decimal, is answered as the gate alone would answer it. */
  lemma HonestLengthIsAShortcut<L>(limiter: Limiter<L>, state: L, rows: map<string, KeyRow>, maxBody: nat, r: Request)
    requires "/v1/widget" <= r.path && r.declared == Some(Decimal(r.size)) && |Decimal(r.size)| <= 4300
    ensures Middleware(limiter, state, rows, maxBody, r) == Authorize(limiter, state, rows, maxBody, r)
  {
    DecimalReadsBack(r.size);
    PrecheckIsAShortcut(limiter, state, rows, maxBody, r);
    hide Middleware, Authorize, Decimal, DigitsValue;
  }

  /** What str.isdigit accepts of Latin-1 text: decimal digits and the three superscripts. */
  lemma IsDigitExactly(s: string)
    ensures IsDigit(s) <==> s != "" && forall i :: 0 <= i < |s| ==>
              s[i] in {'0', '1', '2', '3', '4', '5', '6', '7', '8', '9', '\U{b2}', '\U{b3}', '\U{b9}'}
  {
  }

  /** The answer depends on the key's row, the source headers, the size, the limiter's answer and the sanitized
      query, and on nothing else in the request. */
  lemma OutcomeDependsOnlyOn<L>(limiter: Limiter<L>, state: L, rows: map<string, KeyRow>, maxBody: nat, r: Request,
                                limiter': Limiter<L>, state': L, rows': map<string, KeyRow>, r': Request)
    requires r.widgetKey.Some? && r'.widgetKey.Some? && (r.widgetKey.value == "") == (r'.widgetKey.value == "")
    requires Lookup(rows, r.widgetKey.value) == Lookup(rows', r'.widgetKey.value)
    requires r.origin == r'.origin && r.referer == r'.referer && (r.size > maxBody) == (r'.size > maxBody)
    requires Sanitize(r.body) == Sanitize(r'.body)
    requires limiter(state, LimiterCall(r.widgetKey.value, r.clientIp)).1
             == limiter'(state', LimiterCall(r'.widgetKey.value, r'.clientIp)).1
    ensures Authorize(limiter, state, rows, maxBody, r).1 == Authorize(limiter', state', rows', maxBody, r').1
  {
  }
}
