/** The same resolver called from many threads: `get` is a look-up, a fetch, a store and a second look-up. */
module JwksThreads {
  import opened Wrappers
  import opened JwksCache

  type ThreadId = nat

  datatype Phase =
    | Entered
    | Missed
    | Fetched(parsed: Keys)
    | Stored(parsed: Keys)
    | Returned(answer: Answer)

  datatype Thread = Thread(kid: string, phase: Phase)

  /** `received` lists every complete response any thread has parsed so far. */
  datatype State = State(keys: Keys, threads: map<ThreadId, Thread>, received: seq<Keys>)

  datatype Action =
    | Enter(kid: string)
    | Look
    | Fetch(response: Response)
    | Store
    | LookAgain

  datatype Label = Label(thread: ThreadId, action: Action)

  const INITIAL := State(map[], map[], [])

  function Move(s: State, t: ThreadId, phase: Phase): State
    requires t in s.threads
  {
    s.(threads := s.threads[t := s.threads[t].(phase := phase)])
  }

  predicate Enabled(s: State, l: Label) {
    if l.action.Enter? then l.thread !in s.threads
    else
      l.thread in s.threads &&
      match l.action
      case Look => s.threads[l.thread].phase.Entered?
      case Fetch(_) => s.threads[l.thread].phase.Missed?
      case Store => s.threads[l.thread].phase.Fetched?
      case LookAgain => s.threads[l.thread].phase.Stored?
      case Enter(_) => false
  }

  function Next(s: State, l: Label): State
    requires Enabled(s, l)
  {
    match l.action
    case Enter(kid) => s.(threads := s.threads[l.thread := Thread(kid, Entered)])
    case Look =>
      var kid := s.threads[l.thread].kid;
      Move(s, l.thread, if kid in s.keys then Returned(Found(s.keys[kid])) else Missed)
    case Fetch(r) =>
      if Parse(r).None? then Move(s, l.thread, Returned(FetchFailed))
      else Move(s, l.thread, Fetched(Parse(r).value)).(received := s.received + [Parse(r).value])
    case Store =>
      var parsed := s.threads[l.thread].phase.parsed;
      Move(s, l.thread, Stored(parsed)).(keys := parsed)
    case LookAgain => Move(s, l.thread, Returned(Lookup(s.keys, s.threads[l.thread].kid)))
  }

  /** The state after an interleaving, None if some step is not possible. */
  function Run(s: State, labels: seq<Label>): Option<State> {
    if labels == [] then Some(s)
    else
      var before := Run(s, labels[..|labels| - 1]);
      var l := labels[|labels| - 1];
      if before.None? || !Enabled(before.value, l) then None else Some(Next(before.value, l))
  }

  predicate Backed(received: seq<Keys>, kid: string, key: Key) {
    exists i :: 0 <= i < |received| && kid in received[i] && received[i][kid] == key
  }

  predicate ThreadInv(s: State, t: Thread) {
    match t.phase
    case Fetched(parsed) => parsed in s.received
    case Stored(parsed) => parsed in s.received
    case Returned(answer) => answer.Found? ==> Backed(s.received, t.kid, answer.key)
    case _ => true
  }

  /** The cache is empty or one complete response, never a half-filled or mixed one. */
  predicate Inv(s: State) {
    && (s.keys == map[] || s.keys in s.received)
    && (forall t :: t in s.threads ==> ThreadInv(s, s.threads[t]))
  }

  lemma BackedLater(received: seq<Keys>, more: seq<Keys>, kid: string, key: Key)
    requires Backed(received, kid, key)
    ensures Backed(received + more, kid, key)
  {
    var i :| 0 <= i < |received| && kid in received[i] && received[i][kid] == key;
    assert (received + more)[i] == received[i];
  }

  lemma InvKept(s: State, l: Label)
    requires Inv(s) && Enabled(s, l)
    ensures Inv(Next(s, l))
    ensures l.action.Fetch? && Parse(l.action.response).None? ==> Next(s, l).keys == s.keys
  {
    var s' := Next(s, l);
    forall t | t in s'.threads
      ensures ThreadInv(s', s'.threads[t])
    {
      if t == l.thread {
        if s'.threads[t].phase.Returned? && s'.threads[t].phase.answer.Found? {
          var i :| 0 <= i < |s.received| && s.received[i] == s.keys;
          assert Backed(s'.received, s'.threads[t].kid, s'.threads[t].phase.answer.key);
        }
      } else {
        assert ThreadInv(s, s.threads[t]);
        if s.threads[t].phase.Returned? && s.threads[t].phase.answer.Found? {
          BackedLater(s.received, s'.received[|s.received|..], s.threads[t].kid, s.threads[t].phase.answer.key);
          assert s.received + s'.received[|s.received|..] == s'.received;
        }
      }
    }
  }

  /** In every interleaving: the cache is empty or one complete response, and a key handed out for a kid is
      that kid's binding in some complete response. */
  lemma {:induction false} EveryKeyWasPublished(labels: seq<Label>)
    requires Run(INITIAL, labels).Some?
    ensures Inv(Run(INITIAL, labels).value)
  {
    if labels != [] {
      EveryKeyWasPublished(labels[..|labels| - 1]);
      InvKept(Run(INITIAL, labels[..|labels| - 1]).value, labels[|labels| - 1]);
    }
  }

  /** Every complete response came from the publisher: some thread fetched it. */
  lemma {:induction false} ReceivedWereFetched(labels: seq<Label>, i: nat)
    requires Run(INITIAL, labels).Some? && i < |Run(INITIAL, labels).value.received|
    ensures exists k :: FetchedAt(labels, k) && Parse(labels[k].action.response).value == Run(INITIAL, labels).value.received[i]
  {
    var n := |labels| - 1;
    if labels != [] {
      var before := Run(INITIAL, labels[..n]).value;
      if i < |before.received| {
        ReceivedWereFetched(labels[..n], i);
        var k :| FetchedAt(labels[..n], k) && Parse(labels[..n][k].action.response).value == before.received[i];
        assert FetchedAt(labels, k);
      } else {
        assert FetchedAt(labels, n);
      }
    }
  }

  predicate FetchedAt(labels: seq<Label>, k: int) {
    0 <= k < |labels| && labels[k].action.Fetch? && Parse(labels[k].action.response).Some?
  }

  /** If no two responses bind a kid differently, no two threads are ever given different keys for it. */
  lemma NoTwoKeysForOneKid(labels: seq<Label>, t: ThreadId, t': ThreadId)
    requires Run(INITIAL, labels).Some?
    requires var s := Run(INITIAL, labels).value;
             && (forall i, j, kid ::
                   (0 <= i < |s.received| && 0 <= j < |s.received| && kid in s.received[i] && kid in s.received[j])
                   ==> s.received[i][kid] == s.received[j][kid])
             && t in s.threads && t' in s.threads && s.threads[t].kid == s.threads[t'].kid
             && s.threads[t].phase.Returned? && s.threads[t].phase.answer.Found?
             && s.threads[t'].phase.Returned? && s.threads[t'].phase.answer.Found?
    ensures var s := Run(INITIAL, labels).value;
            s.threads[t].phase.answer == s.threads[t'].phase.answer
  {
    EveryKeyWasPublished(labels);
    var s := Run(INITIAL, labels).value;
    assert ThreadInv(s, s.threads[t]) && ThreadInv(s, s.threads[t']);
  }

  // ---- The lost refresh ----------------------------------------------------------

  /** A thread that has just stored a response keeps its place, and the cache its content, while only
      other threads move and none of them stores. */
  lemma {:induction false} QuietSteps(s: State, labels: seq<Label>, t: ThreadId)
    requires Run(s, labels).Some? && t in s.threads
    requires forall l :: l in labels ==> l.thread != t && !l.action.Store?
    ensures Run(s, labels).value.keys == s.keys
    ensures t in Run(s, labels).value.threads && Run(s, labels).value.threads[t] == s.threads[t]
  {
    if labels != [] {
      assert labels[|labels| - 1] in labels;
      QuietSteps(s, labels[..|labels| - 1], t);
    }
  }

  /** A refresh answers from the thread's own response, as long as no other thread stores between its
      store and its second look-up. */
  lemma UndisturbedRefreshAnswers(s: State, t: ThreadId, others: seq<Label>)
    requires t in s.threads && s.threads[t].phase.Fetched?
    requires var stored := Next(s, Label(t, Store)); Run(stored, others).Some?
    requires forall l :: l in others ==> l.thread != t && !l.action.Store?
    ensures var before := Run(Next(s, Label(t, Store)), others).value;
            && Enabled(before, Label(t, LookAgain))
            && Next(before, Label(t, LookAgain)).threads[t].phase
               == Returned(Lookup(s.threads[t].phase.parsed, s.threads[t].kid))
  {
    QuietSteps(Next(s, Label(t, Store)), others, t);
  }

  /** In general the second look-up reads what was stored last, by whichever thread. It finds the kid exactly
      when that response has it. */
  lemma RefreshAnswersFromTheLastStore(s: State, t: ThreadId, u: ThreadId, others: seq<Label>)
    requires t in s.threads && s.threads[t].phase.Stored? && u in s.threads && u != t && s.threads[u].phase.Fetched?
    requires Run(Next(s, Label(u, Store)), others).Some?
    requires forall l :: l in others ==> l.thread != t && !l.action.Store?
    ensures var before := Run(Next(s, Label(u, Store)), others).value;
            && Enabled(before, Label(t, LookAgain))
            && (Next(before, Label(t, LookAgain)).threads[t].phase.answer.Found?
                <==> s.threads[t].kid in s.threads[u].phase.parsed)
  {
    QuietSteps(Next(s, Label(u, Store)), others, t);
  }

  /** Thread 1 has fetched a response without kid `b`, thread 2 a later one with it; neither has stored. */
  lemma BothFetched() returns (labels: seq<Label>, s: State)
    ensures |labels| == 6 && Run(INITIAL, labels) == Some(s)
    ensures var ka: Keys, kab: Keys := map["a" := "ka"], map["a" := "ka", "b" := "kb"];
            s == State(map[], map[1 := Thread("a", Fetched(ka)), 2 := Thread("b", Fetched(kab))], [ka, kab])
  {
    var ea, eb := Entry(Some("a"), Some("ka")), Entry(Some("b"), Some("kb"));
    var earlier, later := Published([ea]), Published([ea, eb]);
    var ka: Keys, kab: Keys := map["a" := "ka"], map["a" := "ka", "b" := "kb"];
    assert [ea][..0] == [] && [ea, eb][..1] == [ea];
    assert ParseEntries([ea][..0]) == Some(map[]) && ParseEntries([ea]) == Some(map["a" := "ka"]);
    assert Parse(earlier) == Some(ka) && Parse(later) == Some(kab);
    hide Parse, ParseEntries, Run;
    labels, s := TakeStep([], INITIAL, Label(1, Enter("a")));
    labels, s := TakeStep(labels, s, Label(1, Look));
    labels, s := TakeStep(labels, s, Label(1, Fetch(earlier)));
    assert s == State(map[], map[1 := Thread("a", Fetched(ka))], [ka]);
    labels, s := TakeStep(labels, s, Label(2, Enter("b")));
    labels, s := TakeStep(labels, s, Label(2, Look));
    labels, s := TakeStep(labels, s, Label(2, Fetch(later)));
  }

  /** So a valid token can be rejected: an older response stored late hides the key the thread itself
      has just fetched, although the publisher only ever added keys. */
  lemma LateStoreLosesAKey()
    ensures exists labels :: |labels| == 9 && Run(INITIAL, labels).Some? &&
              var s := Run(INITIAL, labels).value;
              && s.received == [map["a" := "ka"], map["a" := "ka", "b" := "kb"]]
              && 2 in s.threads && s.threads[2] == Thread("b", Returned(UnknownKid))
  {
    hide Run;
    var ka: Keys, kab: Keys := map["a" := "ka"], map["a" := "ka", "b" := "kb"];
    var labels, s := BothFetched();
    labels, s := TakeStep(labels, s, Label(2, Store));
    labels, s := TakeStep(labels, s, Label(1, Store));
    assert s == State(ka, map[1 := Thread("a", Stored(ka)), 2 := Thread("b", Stored(kab))], [ka, kab]);
    labels, s := TakeStep(labels, s, Label(2, LookAgain));
    assert |labels| == 9;
  }

  lemma TakeStep(labels: seq<Label>, s: State, l: Label) returns (labels': seq<Label>, s': State)
    requires Run(INITIAL, labels) == Some(s) && Enabled(s, l)
    ensures s' == Next(s, l) && labels' == labels + [l] && Run(INITIAL, labels') == Some(s')
  {
    labels', s' := labels + [l], Next(s, l);
    assert labels'[..|labels|] == labels;
  }

  // ---- One thread on its own -----------------------------------------------------

  /** A thread whose fetch fails, or finds an unusable entry, gives up; nothing else changes. */
  lemma FailedFetchStep(s: State, l: Label)
    requires Enabled(s, l) && l.action.Fetch? && !Complete(l.action.response)
    ensures Next(s, l).keys == s.keys && Next(s, l).received == s.received
    ensures Next(s, l).threads == s.threads[l.thread := Thread(s.threads[l.thread].kid, Returned(FetchFailed))]
  {
    ParsesExactly(l.action.response);
  }

  /** The steps of one call that nobody disturbs. */
  function Alone(s: State, t: ThreadId, kid: string, r: Response): seq<Label> {
    if kid in s.keys then [Label(t, Enter(kid)), Label(t, Look)]
    else if Complete(r) then
      [Label(t, Enter(kid)), Label(t, Look), Label(t, Fetch(r)), Label(t, Store), Label(t, LookAgain)]
    else [Label(t, Enter(kid)), Label(t, Look), Label(t, Fetch(r))]
  }

  /** Undisturbed, a thread answers and leaves the cache as a call of the resolver does, and fetches only on a miss. */
  lemma AloneIsACall(s: State, t: ThreadId, kid: string, r: Response)
    requires t !in s.threads
    ensures Run(s, Alone(s, t, kid, r)).Some?
    ensures var s' := Run(s, Alone(s, t, kid, r)).value;
            && s'.keys == KeysAfter(s.keys, kid, r)
            && t in s'.threads && s'.threads[t] == Thread(kid, Returned(AnswerTo(s.keys, kid, r)))
    ensures (exists l :: l in Alone(s, t, kid, r) && l.action.Fetch?) <==> kid !in s.keys
  {
    ParsesExactly(r);
    var all := Alone(s, t, kid, r);
    hide Parse, Complete, Run;
    var two := TwoSteps(s, all[0], all[1]);
    if kid in s.keys {
      assert all == [all[0], all[1]];
    } else {
      assert all[2] in all;
      var three := OneStep(s, [all[0], all[1]], two, all[2]);
      assert [all[0], all[1]] + [all[2]] == [all[0], all[1], all[2]];
      if Parse(r).Some? {
        var four := OneStep(s, [all[0], all[1], all[2]], three, all[3]);
        assert [all[0], all[1], all[2]] + [all[3]] == [all[0], all[1], all[2], all[3]];
        var five := OneStep(s, [all[0], all[1], all[2], all[3]], four, all[4]);
        assert [all[0], all[1], all[2], all[3]] + [all[4]] == all;
      } else {
        assert all == [all[0], all[1], all[2]];
      }
    }
  }

  lemma OneStep(s: State, labels: seq<Label>, now: State, l: Label) returns (after: State)
    requires Run(s, labels) == Some(now) && Enabled(now, l)
    ensures after == Next(now, l) && Run(s, labels + [l]) == Some(after)
  {
    after := Next(now, l);
    assert (labels + [l])[..|labels|] == labels;
  }

  lemma TwoSteps(s: State, l: Label, l': Label) returns (after: State)
    requires Enabled(s, l) && Enabled(Next(s, l), l')
    ensures after == Next(Next(s, l), l') && Run(s, [l, l']) == Some(after)
  {
    assert Run(s, []) == Some(s);
    var one := OneStep(s, [], s, l);
    assert [] + [l] == [l] && [l] + [l'] == [l, l'];
    after := OneStep(s, [l], one, l');
  }
}
