/** The MCP middleware and its context variable, over any interleaving of requests and child tasks. */
module McpContext {
  import opened Wrappers
  import opened Text
  import opened Origins
  import opened Tokens

  type TaskId = nat
  type RequestId = nat
  type Caller = string

  datatype Scope = Http(headers: seq<(string, string)>) | OtherScope

  datatype Config = Config(verifier: McpVerifier, wire: map<string, Jwt>, originHosts: set<string>, requestHosts: set<string>)

  datatype Rejection = Forbidden403 | Unauthorized401

  /** The header dictionary: names in lower case, the last of equal names kept. */
  function Header(headers: seq<(string, string)>, name: string): Option<string> {
    if headers == [] then None
    else
      var last := headers[|headers| - 1];
      if Lower(last.0) == name then Some(last.1) else Header(headers[..|headers| - 1], name)
  }

  /** Host, then Origin when present, then token. */
  function Check(c: Config, headers: seq<(string, string)>, now: real): Result<Caller, Rejection> {
    var host, origin := Header(headers, "host"), Header(headers, "origin");
    if host.None? || !AuthorityAllowed(host.value, c.requestHosts) then Err(Forbidden403)
    else if origin.Some? && !HostAllowed(origin.value, c.originHosts) then Err(Forbidden403)
    else
      var caller := McpCaller(c.verifier, c.wire, Header(headers, "authorization"), now);
      if caller.Err? then Err(Unauthorized401) else Ok(caller.value)
  }

  /** A header has a value exactly when some line carries it under that name in any case, and none after it does. */
  lemma {:induction false} HeaderIsLast(headers: seq<(string, string)>, name: string, v: string)
    ensures Header(headers, name) == Some(v) <==> exists i :: LastLine(headers, name, i) && headers[i].1 == v
  {
    if headers != [] {
      var n := |headers| - 1;
      HeaderIsLast(headers[..n], name, v);
      if Lower(headers[n].0) == name {
        assert LastLine(headers, name, n);
      } else {
        forall i ensures LastLine(headers, name, i) <==> LastLine(headers[..n], name, i) {
        }
        assert forall i :: LastLine(headers, name, i) ==> headers[..n][i] == headers[i];
      }
    }
  }

  predicate LastLine(headers: seq<(string, string)>, name: string, i: int) {
    && 0 <= i < |headers| && Lower(headers[i].0) == name
    && forall j :: i < j < |headers| ==> Lower(headers[j].0) != name
  }

  /** A caller with a minted token, on a named host and from a named origin or none, is let in exactly when the
      host and the origin are on their lists and the token opens the door. A bad host or origin is named first. */
  lemma MintedCallerAdmittedExactly(c: Config, headers: seq<(string, string)>, t: real,
                                    host: string, dots: nat, port: Option<string>, origin: Option<string>,
                                    bearer: string, text: string, secret: string, issuer: string, audience: string,
                                    tenant: string, ttl: int, clock: real)
    requires DnsHost(host) && (port.Some? ==> DigitsOnly(port.value)) && (origin.Some? ==> DnsHost(origin.value))
    requires Lower(bearer) == "bearer" && text != "" && !Space(text[0]) && !Space(text[|text| - 1])
    requires text in c.wire && c.wire[text] == Mint(secret, issuer, audience, tenant, ttl, clock)
    requires Header(headers, "host") == Some(Authority(None, host, dots, port))
    requires Header(headers, "origin") == if origin.Some? then Some("https://" + origin.value) else None
    requires Header(headers, "authorization") == Some(bearer + " " + text)
    ensures Check(c, headers, t) == Ok(tenant) <==>
            (&& Lower(host) in c.requestHosts && Lower(Authority(None, host, dots, port)) != "null"
             && (origin.Some? ==> Lower(origin.value) in c.originHosts)
             && secret == c.verifier.secret && issuer == c.verifier.issuer && audience == c.verifier.audience
             && tenant != "" && Truncate(clock) as real <= t + 10.0 && t < (Truncate(clock) + ttl) as real + 10.0)
    ensures Check(c, headers, t).Ok? ==> Check(c, headers, t) == Ok(tenant)
    ensures Check(c, headers, t) == Err(Forbidden403) <==>
            !(Lower(host) in c.requestHosts && Lower(Authority(None, host, dots, port)) != "null"
              && (origin.Some? ==> Lower(origin.value) in c.originHosts))
  {
    hide Header, Authority, McpCaller, OriginHost, AuthorityHost, Mint, DnsHost, Lower;
    AuthorityRoundTrip(host, dots, port);
    MintedTokenOpensExactly(c.verifier, c.wire, bearer, text, secret, issuer, audience, tenant, ttl, clock, t);
    if origin.Some? {
      PlainOrigin(origin.value, c.originHosts);
    }
  }

  // ---- Who is let in -------------------------------------------------------------

  /** The last Host line names a listed host. */
  ghost predicate NamesHost(headers: seq<(string, string)>, hosts: set<string>) {
    exists i, h :: LastLine(headers, "host", i) && AuthorityHost(headers[i].1) == Some(h) && h in hosts
  }

  /** The last Origin line, if there is one, names a listed host. */
  ghost predicate NamesOrigin(headers: seq<(string, string)>, hosts: set<string>) {
    forall i :: LastLine(headers, "origin", i) ==> exists h :: OriginHost(headers[i].1) == Some(h) && h in hosts
  }

  /** The last Authorization line carries a genuine token of the door for the tenant. */
  ghost predicate Presents(c: Config, headers: seq<(string, string)>, now: real, tenant: Caller) {
    exists i :: LastLine(headers, "authorization", i) && Carries(c.verifier, c.wire, headers[i].1, now, tenant)
  }

  ghost predicate Admits(c: Config, headers: seq<(string, string)>, now: real, tenant: Caller) {
    NamesHost(headers, c.requestHosts) && NamesOrigin(headers, c.originHosts) && Presents(c, headers, now, tenant)
  }

  lemma OneLastLine(headers: seq<(string, string)>, name: string, i: int, j: int)
    requires LastLine(headers, name, i) && LastLine(headers, name, j)
    ensures i == j
  {
  }

  lemma HeaderExactly(headers: seq<(string, string)>, name: string)
    ensures Header(headers, name).Some? <==> exists i :: LastLine(headers, name, i)
    ensures forall i :: LastLine(headers, name, i) ==> Header(headers, name) == Some(headers[i].1)
  {
    hide Header;
    if Header(headers, name).Some? {
      HeaderIsLast(headers, name, Header(headers, name).value);
    }
    forall i | LastLine(headers, name, i)
      ensures Header(headers, name) == Some(headers[i].1)
    {
      HeaderIsLast(headers, name, headers[i].1);
    }
  }

  /** For every list of headers: let in as a tenant exactly when Host, Origin and Authorization allow it; 403 exactly when
      Host is missing or not listed or Origin is there and not listed; 401 exactly when those are fine and no last
      Authorization line carries a genuine token. */
  lemma CheckExactly(c: Config, headers: seq<(string, string)>, now: real)
    ensures forall tenant :: Check(c, headers, now) == Ok(tenant) <==> Admits(c, headers, now, tenant)
    ensures Check(c, headers, now) == Err(Forbidden403) <==>
            !NamesHost(headers, c.requestHosts) || !NamesOrigin(headers, c.originHosts)
    ensures Check(c, headers, now) == Err(Unauthorized401) <==>
            NamesHost(headers, c.requestHosts) && NamesOrigin(headers, c.originHosts)
            && forall tenant :: !Presents(c, headers, now, tenant)
  {
    hide Header, AuthorityHost, OriginHost, McpCaller, Carries, NamesHost, NamesOrigin, Presents;
    HostExactly(headers, c.requestHosts);
    OriginExactly(headers, c.originHosts);
    forall tenant
      ensures McpCaller(c.verifier, c.wire, Header(headers, "authorization"), now) == Ok(tenant) <==> Presents(c, headers, now, tenant)
    {
      PresentsExactly(c, headers, now, tenant);
    }
  }

  lemma HostExactly(headers: seq<(string, string)>, hosts: set<string>)
    ensures NamesHost(headers, hosts) <==>
            Header(headers, "host").Some? && AuthorityAllowed(Header(headers, "host").value, hosts)
  {
    hide Header, AuthorityHost, LastLine;
    HeaderExactly(headers, "host");
  }

  lemma OriginExactly(headers: seq<(string, string)>, hosts: set<string>)
    ensures NamesOrigin(headers, hosts) <==>
            (Header(headers, "origin").Some? ==> HostAllowed(Header(headers, "origin").value, hosts))
  {
    hide Header, OriginHost, LastLine;
    HeaderExactly(headers, "origin");
  }

  lemma PresentsExactly(c: Config, headers: seq<(string, string)>, now: real, tenant: Caller)
    ensures McpCaller(c.verifier, c.wire, Header(headers, "authorization"), now) == Ok(tenant) <==> Presents(c, headers, now, tenant)
  {
    hide Header, McpCaller, Carries, LastLine;
    HeaderExactly(headers, "authorization");
    McpCallerExactly(c.verifier, c.wire, Header(headers, "authorization"), now, tenant);
  }

  /** Without a Host line a request is forbidden; with its host and origin in order but without an Authorization line, or
      with a token under another algorithm or none, it is unauthenticated. */
  lemma RefusedOutright(c: Config, headers: seq<(string, string)>, now: real)
    ensures (forall i :: !LastLine(headers, "host", i)) ==> Check(c, headers, now) == Err(Forbidden403)
    ensures NamesHost(headers, c.requestHosts) && NamesOrigin(headers, c.originHosts)
            && (forall i :: LastLine(headers, "authorization", i) ==>
                  forall scheme, rest :: headers[i].1 == scheme + " " + rest && Strip(rest) in c.wire ==>
                    c.wire[Strip(rest)].algorithm != HS256) ==>
            Check(c, headers, now) == Err(Unauthorized401)
  {
    CheckExactly(c, headers, now);
    hide Check, Header, Strip, LastLine, InTime;
  }

  // ---- The middleware on one task ------------------------------------------------

  /** A task's own copy of the context variable. */
  class ContextVar {
    var value: Option<Caller>

    constructor (v: Option<Caller>)
      ensures value == v
    {
      value := v;
    }

    /** Returns the token that undoes it. */
    method Set(v: Option<Caller>) returns (token: Option<Caller>)
      modifies this
      ensures value == v && token == old(value)
    {
      token := value;
      value := v;
    }

    method Reset(token: Option<Caller>)
      modifies this
      ensures value == token
    {
      value := token;
    }
  }

  datatype Outcome = Refused(rejection: Rejection) | Returned | Raised

  /** What the inner application does: it sees the variable, may leave anything in it, and returns or raises. */
  method InnerApp(ctx: ContextVar, leaves: Option<Caller>, raises: bool) returns (seen: Option<Caller>, outcome: Outcome)
    modifies ctx
    ensures seen == old(ctx.value) && ctx.value == leaves && outcome == if raises then Raised else Returned
  {
    seen := ctx.value;
    ctx.value := leaves;
    outcome := if raises then Raised else Returned;
  }

  /** McpSecurityMiddleware.__call__. `seen` is what the inner application saw, None if it never ran. */
  method Call(ctx: ContextVar, c: Config, scope: Scope, now: real, leaves: Option<Caller>, raises: bool)
    returns (outcome: Outcome, seen: Option<Option<Caller>>)
    modifies ctx
    ensures scope.Http? ==> ctx.value == old(ctx.value)
    ensures scope.Http? && Check(c, scope.headers, now).Err? ==>
              outcome == Refused(Check(c, scope.headers, now).error) && seen == None
    ensures scope.Http? && Check(c, scope.headers, now).Ok? ==>
              outcome == (if raises then Raised else Returned) && seen == Some(Some(Check(c, scope.headers, now).value))
    ensures scope.OtherScope? ==> seen == Some(old(ctx.value)) && ctx.value == leaves && !outcome.Refused?
    ensures scope.Http? ==> forall tenant :: seen == Some(Some(tenant)) <==> Admits(c, scope.headers, now, tenant)
    ensures scope.Http? ==> (outcome == Refused(Forbidden403) <==>
              !NamesHost(scope.headers, c.requestHosts) || !NamesOrigin(scope.headers, c.originHosts))
    ensures scope.Http? ==> (outcome.Refused? <==> seen == None)
  {
    hide Check, Admits, NamesHost, NamesOrigin;
    if scope.Http? {
      CheckExactly(c, scope.headers, now);
    }
    if scope.OtherScope? {
      var s, o := InnerApp(ctx, leaves, raises);
      return o, Some(s);
    }
    var checked := Check(c, scope.headers, now);
    if checked.Err? {
      return Refused(checked.error), None;
    }
    var token := ctx.Set(Some(checked.value));
    var s, o := InnerApp(ctx, leaves, raises);
    ctx.Reset(token);
    return o, Some(s);
  }

  // ---- Interleaved requests and child tasks --------------------------------------

  datatype Request = Request(scope: Scope, now: real)

  /** A call of the middleware in progress on a task. `saved` is the reset token. */
  datatype Frame = Guarded(request: RequestId, saved: Option<Caller>) | Passed(request: RequestId)

  /** `value` is the task's copy of the variable. `born` lists the calls in progress around the spawning task
      when this task was made; `frames` those begun on the task itself, innermost last. */
  datatype Task = Task(value: Option<Caller>, born: seq<RequestId>, frames: seq<Frame>)

  /** One run of the tool: on behalf of which request, and as which tenant, None if it refused to answer. */
  datatype ToolRun = ToolRun(request: Option<RequestId>, tenant: Option<Caller>)

  datatype State = State(tasks: map<TaskId, Task>, requests: map<RequestId, Request>, reached: set<RequestId>, runs: seq<ToolRun>)

  datatype Action =
    | Start
    | Receive(request: RequestId, content: Request)
    | Spawn(child: TaskId)
    | Tool
    | Leave

  datatype Label = Label(task: TaskId, action: Action)

  const INITIAL := State(map[], map[], {}, [])

  /** The verified request whose work the task is doing, by where it was called and spawned, innermost first.
      Calls that passed through unchecked do not count. */
  function Own(t: Task): Option<RequestId> {
    OwnFrame(t.born, t.frames)
  }

  function OwnFrame(born: seq<RequestId>, frames: seq<Frame>): Option<RequestId> {
    if frames == [] then if born == [] then None else Some(born[|born| - 1])
    else
      var top := frames[|frames| - 1];
      if top.Guarded? then Some(top.request) else OwnFrame(born, frames[..|frames| - 1])
  }

  function GuardedRequests(frames: seq<Frame>): seq<RequestId> {
    if frames == [] then []
    else
      var top := frames[|frames| - 1];
      GuardedRequests(frames[..|frames| - 1]) + if top.Guarded? then [top.request] else []
  }

  predicate Enabled(s: State, l: Label) {
    match l.action
    case Start => l.task !in s.tasks
    case Receive(r, _) => l.task in s.tasks && r !in s.requests
    case Spawn(child) => l.task in s.tasks && child !in s.tasks
    case Tool => l.task in s.tasks
    case Leave => l.task in s.tasks && s.tasks[l.task].frames != []
  }

  function Next(c: Config, s: State, l: Label): State
    requires Enabled(s, l)
  {
    match l.action
    case Start => s.(tasks := s.tasks[l.task := Task(None, [], [])])
    case Receive(r, content) =>
      var t, known := s.tasks[l.task], s.(requests := s.requests[r := content]);
      if content.scope.OtherScope? then
        known.(tasks := s.tasks[l.task := t.(frames := t.frames + [Passed(r)])], reached := s.reached + {r})
      else
        var checked := Check(c, content.scope.headers, content.now);
        if checked.Err? then known
        else known.(tasks := s.tasks[l.task := t.(value := Some(checked.value), frames := t.frames + [Guarded(r, t.value)])],
                    reached := s.reached + {r})
    case Spawn(child) =>
      var t := s.tasks[l.task];
      s.(tasks := s.tasks[child := Task(t.value, t.born + GuardedRequests(t.frames), [])])
    case Tool =>
      var t := s.tasks[l.task];
      s.(runs := s.runs + [ToolRun(Own(t), t.value)])
    case Leave =>
      var t := s.tasks[l.task];
      var n := |t.frames| - 1;
      s.(tasks := s.tasks[l.task := t.(value := if t.frames[n].Guarded? then t.frames[n].saved else t.value,
                                       frames := t.frames[..n])])
  }

  function Run(c: Config, labels: seq<Label>): Option<State> {
    if labels == [] then Some(INITIAL)
    else
      var before, l := Run(c, labels[..|labels| - 1]), labels[|labels| - 1];
      if before.None? || !Enabled(before.value, l) then None else Some(Next(c, before.value, l))
  }

  /** The request is a verified one, and this is its tenant. */
  predicate VerifiedAs(c: Config, requests: map<RequestId, Request>, r: RequestId, caller: Caller) {
    r in requests && requests[r].scope.Http? && Check(c, requests[r].scope.headers, requests[r].now) == Ok(caller)
  }

  /** A value of the variable fits a request: the tenant verified for it, or nothing when there is none. */
  predicate Fits(c: Config, requests: map<RequestId, Request>, r: Option<RequestId>, value: Option<Caller>) {
    match r
    case None => value == None
    case Some(id) => value.Some? && VerifiedAs(c, requests, id, value.value)
  }

  predicate TaskInv(c: Config, requests: map<RequestId, Request>, t: Task) {
    && Fits(c, requests, Own(t), t.value)
    && (forall k :: 0 <= k < |t.frames| && t.frames[k].Guarded? ==>
          Fits(c, requests, OwnFrame(t.born, t.frames[..k]), t.frames[k].saved))
  }

  predicate Inv(c: Config, s: State) {
    && (forall t :: t in s.tasks ==> TaskInv(c, s.requests, s.tasks[t]))
    && (forall i :: 0 <= i < |s.runs| ==> Fits(c, s.requests, s.runs[i].request, s.runs[i].tenant))
    && (forall r :: r in s.reached && r in s.requests && s.requests[r].scope.Http? ==>
          Check(c, s.requests[r].scope.headers, s.requests[r].now).Ok?)
    && s.reached <= s.requests.Keys
    && (forall r :: r in s.requests && r !in s.reached ==>
          s.requests[r].scope.Http? && Check(c, s.requests[r].scope.headers, s.requests[r].now).Err?)
  }

  lemma {:induction false} OwnAfterSpawn(born: seq<RequestId>, frames: seq<Frame>)
    ensures OwnFrame(born + GuardedRequests(frames), []) == OwnFrame(born, frames)
  {
    if frames == [] {
      assert born + [] == born;
    } else {
      var n := |frames| - 1;
      OwnAfterSpawn(born, frames[..n]);
      if frames[n].Passed? {
        assert GuardedRequests(frames) == GuardedRequests(frames[..n]);
      }
    }
  }

  lemma TaskInvLater(c: Config, requests: map<RequestId, Request>, r: RequestId, content: Request, t: Task)
    requires TaskInv(c, requests, t) && r !in requests
    ensures TaskInv(c, requests[r := content], t)
  {
  }

  lemma PushKeeps(c: Config, requests: map<RequestId, Request>, t: Task, f: Frame, value: Option<Caller>)
    requires TaskInv(c, requests, t)
    requires f.Guarded? ==> f.saved == t.value && Fits(c, requests, Some(f.request), value)
    requires f.Passed? ==> value == t.value
    ensures TaskInv(c, requests, t.(value := value, frames := t.frames + [f]))
  {
    var t' := t.(value := value, frames := t.frames + [f]);
    assert t'.frames[..|t.frames|] == t.frames;
    forall k | 0 <= k < |t'.frames| && t'.frames[k].Guarded?
      ensures Fits(c, requests, OwnFrame(t'.born, t'.frames[..k]), t'.frames[k].saved)
    {
      assert t'.frames[..k] == t.frames[..k];
      assert k == |t.frames| ==> t.frames[..k] == t.frames;
    }
  }

  lemma PopKeeps(c: Config, requests: map<RequestId, Request>, t: Task)
    requires TaskInv(c, requests, t) && t.frames != []
    ensures var n := |t.frames| - 1;
            TaskInv(c, requests, t.(value := if t.frames[n].Guarded? then t.frames[n].saved else t.value,
                                    frames := t.frames[..n]))
  {
    var n := |t.frames| - 1;
    forall k | 0 <= k < n
      ensures t.frames[..n][..k] == t.frames[..k]
    {
    }
  }

  lemma ReceiveKeepsInv(c: Config, s: State, l: Label)
    requires Inv(c, s) && Enabled(s, l) && l.action.Receive?
    ensures Inv(c, Next(c, s, l))
  {
    hide Check, TaskInv;
    var s', r, content := Next(c, s, l), l.action.request, l.action.content;
    forall t | t in s.tasks
      ensures TaskInv(c, s'.requests, s.tasks[t])
    {
      TaskInvLater(c, s.requests, r, content, s.tasks[t]);
    }
    if content.scope.OtherScope? {
      PushKeeps(c, s'.requests, s.tasks[l.task], Passed(r), s.tasks[l.task].value);
    } else if Check(c, content.scope.headers, content.now).Ok? {
      PushKeeps(c, s'.requests, s.tasks[l.task], Guarded(r, s.tasks[l.task].value),
                Some(Check(c, content.scope.headers, content.now).value));
    }
  }

  lemma InvKept(c: Config, s: State, l: Label)
    requires Inv(c, s) && Enabled(s, l)
    ensures Inv(c, Next(c, s, l))
  {
    hide Check;
    match l.action
    case Receive(_, _) => ReceiveKeepsInv(c, s, l);
    case Spawn(child) => OwnAfterSpawn(s.tasks[l.task].born, s.tasks[l.task].frames);
    case Leave => PopKeeps(c, s.requests, s.tasks[l.task]);
    case _ =>
  }

  lemma {:induction false} RunInv(c: Config, labels: seq<Label>)
    requires Run(c, labels).Some?
    ensures Inv(c, Run(c, labels).value)
  {
    if labels != [] {
      RunInv(c, labels[..|labels| - 1]);
      InvKept(c, Run(c, labels[..|labels| - 1]).value, labels[|labels| - 1]);
    }
  }

  /** In every interleaving the tool reaches the core only as the tenant verified from the token of the request
      it runs for, and refuses when there is no such request. */
  lemma ToolRunsAsItsOwnCaller(c: Config, labels: seq<Label>, i: nat)
    requires Run(c, labels).Some? && i < |Run(c, labels).value.runs|
    ensures var s := Run(c, labels).value;
            match s.runs[i].request
            case None => s.runs[i].tenant == None
            case Some(r) => s.runs[i].tenant.Some? && r in s.requests && s.requests[r].scope.Http?
                            && Admits(c, s.requests[r].scope.headers, s.requests[r].now, s.runs[i].tenant.value)
  {
    RunInv(c, labels);
    var run := Run(c, labels).value.runs[i];
    if run.request.Some? && run.request.value in Run(c, labels).value.requests {
      var request := Run(c, labels).value.requests[run.request.value];
      if request.scope.Http? {
        CheckExactly(c, request.scope.headers, request.now);
      }
    }
    hide Check, Admits;
    var s := Run(c, labels).value;
    assert Fits(c, s.requests, s.runs[i].request, s.runs[i].tenant);
  }

  /** A rejected request never reaches the inner application. */
  lemma RejectedNeverReached(c: Config, labels: seq<Label>, r: RequestId)
    requires Run(c, labels).Some?
    requires var s := Run(c, labels).value;
             r in s.requests && s.requests[r].scope.Http? && Check(c, s.requests[r].scope.headers, s.requests[r].now).Err?
    ensures r !in Run(c, labels).value.reached
  {
    RunInv(c, labels);
    hide Check;
  }

  /** A request reaches the inner application exactly when it is no HTTP request, which passes unchecked, or some tenant
      is admitted by it. */
  lemma ReachedExactlyWhen(c: Config, labels: seq<Label>, r: RequestId)
    requires Run(c, labels).Some? && r in Run(c, labels).value.requests
    ensures var s := Run(c, labels).value;
            r in s.reached <==>
            (s.requests[r].scope.Http? ==> exists tenant :: Admits(c, s.requests[r].scope.headers, s.requests[r].now, tenant))
  {
    RunInv(c, labels);
    var request := Run(c, labels).value.requests[r];
    hide Check, Admits, Run;
    if request.scope.Http? {
      CheckExactly(c, request.scope.headers, request.now);
      if Check(c, request.scope.headers, request.now).Ok? {
        assert Admits(c, request.scope.headers, request.now, Check(c, request.scope.headers, request.now).value);
      }
    }
  }

  /** Requests keep their content. */
  lemma {:induction false} RequestsStay(c: Config, labels: seq<Label>, k: nat, r: RequestId)
    requires k <= |labels| && Run(c, labels).Some?
    ensures Run(c, labels[..k]).Some?
    ensures r in Run(c, labels[..k]).value.requests ==>
              r in Run(c, labels).value.requests && Run(c, labels).value.requests[r] == Run(c, labels[..k]).value.requests[r]
    decreases |labels|
  {
    if k < |labels| {
      assert labels[..|labels| - 1][..k] == labels[..k];
      RequestsStay(c, labels[..|labels| - 1], k, r);
    } else {
      assert labels[..k] == labels;
    }
  }

  /** Whenever a task is back under the same calls, on return or after an exception, the variable holds what it
      held before, however many requests were served on it or on its children in between. */
  lemma SameCallsSameContext(c: Config, labels: seq<Label>, k: nat, task: TaskId)
    requires k <= |labels| && Run(c, labels).Some? && Run(c, labels[..k]).Some?
    requires task in Run(c, labels[..k]).value.tasks && task in Run(c, labels).value.tasks
    requires Own(Run(c, labels[..k]).value.tasks[task]) == Own(Run(c, labels).value.tasks[task])
    ensures Run(c, labels[..k]).value.tasks[task].value == Run(c, labels).value.tasks[task].value
  {
    var s, s' := Run(c, labels[..k]).value, Run(c, labels).value;
    RunInv(c, labels);
    RunInv(c, labels[..k]);
    assert TaskInv(c, s.requests, s.tasks[task]) && TaskInv(c, s'.requests, s'.tasks[task]);
    var own := Own(s.tasks[task]);
    if own.Some? {
      RequestsStay(c, labels, k, own.value);
    }
  }

  // ---- Which tool run belongs to which request, read off the labels --------------

  /** Between two moments of a run the task itself only runs the tool and spawns children. */
  predicate Quiet(labels: seq<Label>, k: nat, n: nat, task: TaskId) {
    k <= n <= |labels| && forall i :: k <= i < n && labels[i].task == task ==> labels[i].action.Tool? || labels[i].action.Spawn?
  }

  lemma {:induction false} QuietKeepsTask(c: Config, labels: seq<Label>, k: nat, n: nat, task: TaskId)
    requires Quiet(labels, k, n, task) && Run(c, labels[..n]).Some?
    ensures Run(c, labels[..k]).Some?
    ensures var s, s' := Run(c, labels[..k]).value, Run(c, labels[..n]).value;
            task in s.tasks ==> task in s'.tasks && s'.tasks[task] == s.tasks[task]
    decreases n
  {
    if k < n {
      assert labels[..n][..n - 1] == labels[..n - 1];
      QuietKeepsTask(c, labels, k, n - 1, task);
      hide Check;
    }
  }

  lemma ToolRecords(c: Config, labels: seq<Label>, n: nat, task: TaskId)
    requires n < |labels| && labels[n] == Label(task, Tool) && Run(c, labels[..n + 1]).Some?
    ensures Run(c, labels[..n]).Some? && task in Run(c, labels[..n]).value.tasks
    ensures var s, s' := Run(c, labels[..n]).value, Run(c, labels[..n + 1]).value;
            s'.runs == s.runs + [ToolRun(Own(s.tasks[task]), s.tasks[task].value)]
  {
    assert labels[..n + 1][..n] == labels[..n];
    hide Check;
  }

  lemma AcceptedEnters(c: Config, labels: seq<Label>, k: nat, task: TaskId, r: RequestId, request: Request, tenant: Caller)
    requires k < |labels| && labels[k] == Label(task, Receive(r, request)) && Run(c, labels[..k + 1]).Some?
    requires request.scope.Http? && Admits(c, request.scope.headers, request.now, tenant)
    ensures var s := Run(c, labels[..k + 1]).value;
            task in s.tasks && s.tasks[task].value == Some(tenant) && Own(s.tasks[task]) == Some(r)
  {
    assert labels[..k + 1][..k] == labels[..k];
    CheckExactly(c, request.scope.headers, request.now);
    hide Check, Admits;
  }

  /** A tool run inside an accepted request, while its task has received no other and not left, is recorded for that
      request and its tenant: not as nobody's, nor as anybody else's. */
  lemma ToolUnderRequest(c: Config, labels: seq<Label>, k: nat, n: nat, task: TaskId, r: RequestId, request: Request, tenant: Caller)
    requires k < n < |labels| && labels[k] == Label(task, Receive(r, request)) && labels[n] == Label(task, Tool)
    requires Quiet(labels, k + 1, n, task) && Run(c, labels[..n + 1]).Some?
    requires request.scope.Http? && Admits(c, request.scope.headers, request.now, tenant)
    ensures Run(c, labels[..n]).Some?
    ensures Run(c, labels[..n + 1]).value.runs == Run(c, labels[..n]).value.runs + [ToolRun(Some(r), Some(tenant))]
  {
    hide Run, Admits, Own;
    ToolRecords(c, labels, n, task);
    QuietKeepsTask(c, labels, k + 1, n, task);
    AcceptedEnters(c, labels, k, task, r, request, tenant);
  }

  lemma ChildInherits(c: Config, labels: seq<Label>, m: nat, task: TaskId, child: TaskId)
    requires m < |labels| && labels[m] == Label(task, Spawn(child)) && Run(c, labels[..m + 1]).Some?
    ensures Run(c, labels[..m]).Some? && task in Run(c, labels[..m]).value.tasks
    ensures var t, s' := Run(c, labels[..m]).value.tasks[task], Run(c, labels[..m + 1]).value;
            child in s'.tasks && s'.tasks[child].value == t.value && Own(s'.tasks[child]) == Own(t)
  {
    assert labels[..m + 1][..m] == labels[..m];
    var t := Run(c, labels[..m]).value.tasks[task];
    OwnAfterSpawn(t.born, t.frames);
    hide Check;
  }

  /** And so is a tool run on a child task spawned inside it, even after the request itself has returned. */
  lemma ToolInChild(c: Config, labels: seq<Label>, k: nat, m: nat, n: nat, task: TaskId, child: TaskId,
                    r: RequestId, request: Request, tenant: Caller)
    requires k < m < n < |labels| && labels[k] == Label(task, Receive(r, request))
    requires labels[m] == Label(task, Spawn(child)) && labels[n] == Label(child, Tool)
    requires Quiet(labels, k + 1, m, task) && Quiet(labels, m + 1, n, child) && Run(c, labels[..n + 1]).Some?
    requires request.scope.Http? && Admits(c, request.scope.headers, request.now, tenant)
    ensures Run(c, labels[..n]).Some?
    ensures Run(c, labels[..n + 1]).value.runs == Run(c, labels[..n]).value.runs + [ToolRun(Some(r), Some(tenant))]
  {
    hide Run, Admits, Own;
    ToolRecords(c, labels, n, child);
    QuietKeepsTask(c, labels, m + 1, n, child);
    ChildInherits(c, labels, m, task, child);
    QuietKeepsTask(c, labels, k + 1, m, task);
    AcceptedEnters(c, labels, k, task, r, request, tenant);
  }

  /** A tool run on a task of its own, under no request, is refused. */
  lemma ToolOnItsOwn(c: Config, labels: seq<Label>, k: nat, n: nat, task: TaskId)
    requires k < n < |labels| && labels[k] == Label(task, Start) && labels[n] == Label(task, Tool)
    requires Quiet(labels, k + 1, n, task) && Run(c, labels[..n + 1]).Some?
    ensures Run(c, labels[..n]).Some?
    ensures Run(c, labels[..n + 1]).value.runs == Run(c, labels[..n]).value.runs + [ToolRun(None, None)]
  {
    ToolRecords(c, labels, n, task);
    QuietKeepsTask(c, labels, k + 1, n, task);
    assert labels[..k + 1][..k] == labels[..k];
    hide Check, Admits;
  }
}
