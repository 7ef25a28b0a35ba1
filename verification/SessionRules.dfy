/**
 Which calls the session guard lets through, which notifications take effect, and what its
 answers say: each stated exactly, over whole sessions, in terms of what was received and
 sent.
 */
module SessionRules {
  import Runs
  import opened SessionGuard

  // ---------------------------------------------------------------------
  // What the flags stand for
  // ---------------------------------------------------------------------

  /** A successful response to some initialize call is on the wire. */
  predicate InitializeAnswered(s: State) {
    exists x :: 0 <= x < |s.sent| && AnswersInitialize(s, x)
  }

  predicate AnswersInitialize(s: State, x: nat)
    requires x < |s.sent|
  {
    var r := s.sent[x];
    r.Response? && r.success && r.serial < |s.g.admitted| && s.g.admitted[r.serial].verb == Initialize
  }

  predicate InitializePending(g: Table) {
    exists k :: k in g.pending && IsInitialize(g, k)
  }

  /** The flags mean what they are called, and only initialize and ping get through before
      the session is ready. */
  predicate Meant(s: State) {
    && (s.g.initSent <==> InitializeAnswered(s))
    && (s.g.initializing <==> InitializePending(s.g))
    && (forall n :: 0 <= n < |s.g.admitted| ==> Admissible(s.g.admitted[n].verb) && (Early(s.g.admitted[n].verb) || s.g.ready))
    && (forall k :: k in s.g.pending && s.g.pending[k].cancelled ==> s.g.pending[k].serial in s.cancels)
  }

  predicate Early(verb: Verb) {
    verb.Initialize? || verb.Ping?
  }

  predicate Admissible(verb: Verb) {
    !verb.NoVerb? && !verb.ServerDiscover?
  }

  /** What a line changes, when it is let through at all. */
  lemma ReadCases(g: Table, line: Line)
    ensures var (h, action) := Receive(g, line);
      || (h == g && !action.DeliverCancel?)
      || (line.Message? && line.id.None? && line.verb == Initialized && g.initSent && !action.DeliverCancel? && h == g.(ready := true))
      || (action.DeliverCancel? && action.open in g.pending
          && h == g.(pending := g.pending[action.open := g.pending[action.open].(cancelled := true)]))
      || (line.Message? && line.id.Some? && KeyOf(line.id.value).Some? && !action.DeliverCancel?
          && Admits(g, line.id.value, KeyOf(line.id.value).value, line.verb) && !line.verb.NoVerb?
          && h == Request(g, line.id.value, KeyOf(line.id.value).value, line.verb).0)
  {}

  /** What is on the wire says the same after more calls were admitted. */
  lemma SameAnswers(s: State, t: State)
    requires Inv(s) && t.sent == s.sent && s.g.admitted <= t.g.admitted
    ensures InitializeAnswered(t) <==> InitializeAnswered(s)
  {
    assert forall x :: 0 <= x < |s.sent| ==> AnswersInitialize(t, x) == AnswersInitialize(s, x);
  }

  lemma SameInitialize(g: Table, h: Table)
    requires g.pending.Keys == h.pending.Keys
    requires forall k :: k in g.pending ==> IsInitialize(h, k) == IsInitialize(g, k)
    ensures InitializePending(h) <==> InitializePending(g)
  {
    if k :| k in g.pending && IsInitialize(g, k) {
      assert k in h.pending && IsInitialize(h, k);
    }
  }

  /** A table with the same calls, one of them marked as cancelled. */
  lemma MarkedMeant(s: State, t: State, key: Key)
    requires Inv(s) && Meant(s) && key in s.g.pending && t.sent == s.sent
    requires t.g == s.g.(pending := s.g.pending[key := s.g.pending[key].(cancelled := true)])
    requires t.cancels == s.cancels + [s.g.pending[key].serial]
    ensures Meant(t)
  {
    SameAnswers(s, t);
    SameInitialize(s.g, t.g);
    hide Inv, InitializeAnswered, InitializePending, Admissible, Early, IsInitialize;
    forall k | k in t.g.pending && t.g.pending[k].cancelled ensures t.g.pending[k].serial in t.cancels {
      assert k != key ==> t.g.pending[k] == s.g.pending[k];
    }
  }

  lemma AdmittedMeant(s: State, t: State, wire: RawId, key: Key, verb: Verb)
    requires Inv(s) && Meant(s) && Admits(s.g, wire, key, verb) && !verb.NoVerb?
    requires t.g == Request(s.g, wire, key, verb).0 && t.sent == s.sent && t.cancels == s.cancels
    ensures Meant(t)
  {
    SameAnswers(s, t);
    hide Inv, InitializeAnswered, InitializePending, Admissible, Early;
    AdmittedPending(s.g, t.g, wire, key, verb);
  }

  lemma AdmittedPending(g: Table, h: Table, wire: RawId, key: Key, verb: Verb)
    requires Admits(g, wire, key, verb) && h == Request(g, wire, key, verb).0
    ensures InitializePending(h) <==> InitializePending(g) || verb == Initialize
  {
    assert h.pending == g.pending[key := Pending(verb, wire, false, |g.admitted|)];
    assert IsInitialize(h, key) <==> verb == Initialize;
    if k :| k in g.pending && IsInitialize(g, k) {
      assert k in h.pending && IsInitialize(h, k);
    }
    if k :| k in h.pending && IsInitialize(h, k) {
      assert k != key ==> k in g.pending && IsInitialize(g, k);
    }
  }

  /** The call that a write is about. */
  lemma WrittenCall(s: State)
    requires Inv(s) && s.writing.Some?
    ensures var w := s.writing.value;
      && w.key in s.g.pending && w.call.verb == s.g.pending[w.key].verb && w.call.serial == s.g.pending[w.key].serial
      && w.call.serial < |s.g.admitted| && s.g.admitted[w.call.serial] == Call(w.key, w.call.wire, w.call.verb)
  {
    var w := s.writing.value;
    assert w.call.(cancelled := s.g.pending[w.key].cancelled) == s.g.pending[w.key];
  }

  lemma RetiredFlags(g: Table, key: Key, p: Pending, success: bool)
    requires FlagsOk(g) && key in g.pending && p.verb == g.pending[key].verb && (g.initializing <==> InitializePending(g))
    ensures var h := Retire(g, key, p, success); h.initializing <==> InitializePending(h)
  {
    var h := Retire(g, key, p, success);
    if k :| k in h.pending && IsInitialize(h, k) {
      assert k in g.pending && k != key && IsInitialize(g, k);
      assert !IsInitialize(g, key);
    }
    if !IsInitialize(g, key) {
      if k :| k in g.pending && IsInitialize(g, k) {
        assert k in h.pending && IsInitialize(h, k);
      }
    }
  }

  lemma RetiredAnswers(s: State, t: State, success: bool)
    requires Inv(s) && s.writing.Some? && t.g.admitted == s.g.admitted
    requires t.sent == s.sent + [Response(s.writing.value.call.wire, s.writing.value.call.serial, success)]
    ensures InitializeAnswered(t) <==> InitializeAnswered(s) || (success && s.writing.value.call.verb == Initialize)
  {
    WrittenCall(s);
    hide Inv;
    assert forall x :: 0 <= x < |s.sent| ==> AnswersInitialize(t, x) == AnswersInitialize(s, x);
    assert AnswersInitialize(t, |s.sent|) <==> success && s.writing.value.call.verb == Initialize;
  }

  /** Retiring a call with its response. */
  lemma RetiredMeant(s: State, t: State, success: bool)
    requires Inv(s) && Meant(s) && s.writing.Some?
    requires var w := s.writing.value;
      t.g == Retire(s.g, w.key, w.call, success) && t.cancels == s.cancels
      && t.sent == s.sent + [Response(w.call.wire, w.call.serial, success)]
    ensures Meant(t)
  {
    var w := s.writing.value;
    WrittenCall(s);
    RetiredFlags(s.g, w.key, w.call, success);
    RetiredAnswers(s, t, success);
    assert IsInitialize(s.g, w.key) <==> w.call.verb == Initialize;
    assert IsInitialize(s.g, w.key) ==> s.g.initializing && !s.g.initSent;
    hide Inv, InitializeAnswered, InitializePending;
  }

  /** Other lines on the wire answer nothing. */
  lemma SentMeant(s: State, t: State, extra: Sent)
    requires Meant(s) && t.g == s.g && t.cancels == s.cancels
    requires t.sent == s.sent || (t.sent == s.sent + [extra] && !extra.Response?)
    ensures Meant(t)
  {
    assert forall x :: 0 <= x < |s.sent| ==> AnswersInitialize(t, x) == AnswersInitialize(s, x);
  }

  lemma ReadyMeant(s: State, t: State)
    requires Inv(s) && Meant(s) && t.g == s.g.(ready := true) && t.sent == s.sent && t.cancels == s.cancels
    ensures Meant(t)
  {
    SameAnswers(s, t);
    SameInitialize(s.g, t.g);
  }

  lemma ReadMeant(s: State, line: Line)
    requires Inv(s) && Meant(s) && Enabled(s, ReadLine(line))
    ensures Meant(After(s, ReadLine(line)))
  {
    var t := After(s, ReadLine(line));
    var (h, action) := Receive(s.g, line);
    ReadCases(s.g, line);
    hide Inv, Meant, Receive, Request, Admits;
    if action.DeliverCancel? {
      MarkedMeant(s, t, action.open);
    } else {
      assert t.cancels == s.cancels + [] == s.cancels;
      if h == s.g {
        SentMeant(s, t, ServerNotification);
      } else if line.id.None? {
        ReadyMeant(s, t);
      } else {
        AdmittedMeant(s, t, line.id.value, KeyOf(line.id.value).value, line.verb);
      }
    }
  }

  lemma MeantKept(s: State, e: Event)
    requires Inv(s) && Meant(s) && Enabled(s, e)
    ensures Meant(After(s, e))
  {
    hide Inv, Meant, Retire;
    match e {
      case ReadLine(line) => ReadMeant(s, line);
      case SendRefusal => SentMeant(s, After(s, e), Refusal(s.refusal.value));
      case WriteBegin(_, _) => SentMeant(s, After(s, e), ServerNotification);
      case WriteEnd(encodes, fallbackEncodes) =>
        if encodes || fallbackEncodes {
          RetiredMeant(s, After(s, e), encodes && !s.writing.value.failed);
        } else {
          SentMeant(s, After(s, e), ServerNotification);
        }
      case Notify => SentMeant(s, After(s, e), ServerNotification);
    }
  }

  predicate Sound(s: State) {
    Inv(s) && Meant(s)
  }

  lemma SoundAlways(states: seq<State>, events: seq<Event>, i: nat)
    requires Run(states, events) && i < |states|
    ensures Inv(states[i]) && Meant(states[i])
  {
    hide Inv, Meant;
    forall s, e, t | Sound(s) && Step(s, e, t) ensures Sound(t) {
      InvKept(s, e);
      MeantKept(s, e);
    }
    assert Sound(START) by {
      StepKeepsInv();
      StartMeant();
    }
    Runs.Invariant(START, Step, Sound, states, events, i);
  }

  lemma StartMeant()
    ensures Meant(START)
  {}

  // ---------------------------------------------------------------------
  // Which calls are let through
  // ---------------------------------------------------------------------

  /** The call with this serial arrived in step k. */
  predicate Arrives(states: seq<State>, k: nat, n: nat) {
    k + 1 < |states| && |states[k].g.admitted| == n < |states[k + 1].g.admitted|
  }

  /** Every call that was let through, other than initialize and ping, arrived when the
      session was ready. */
  lemma {:induction false} ArrivedReady(states: seq<State>, events: seq<Event>, i: nat, n: nat) returns (k: nat)
    requires Run(states, events) && i < |states| && n < |states[i].g.admitted|
    ensures k < i && Arrives(states, k, n)
    ensures var verb := states[i].g.admitted[n].verb;
      Admissible(verb) && (Early(verb) || (states[k].g.ready && InitializeAnswered(states[k])))
    decreases i
  {
    hide Inv, Meant, Receive, Request, Retire;
    SoundAlways(states, events, i);
    AdmittedVerbs(states[i], n);
    k := i - 1;
    SoundAlways(states, events, k);
    assert Step(states[k], events[k], states[k + 1]);
    ArrivalStep(states[k], events[k]);
    if n < |states[k].g.admitted| {
      k := ArrivedReady(states, events, k, n);
    }
  }

  lemma AdmittedVerbs(s: State, n: nat)
    requires Meant(s) && n < |s.g.admitted|
    ensures Admissible(s.g.admitted[n].verb)
  {}

  /** A step adds at most one call, and that one is early or finds the session ready. */
  lemma ArrivalStep(s: State, e: Event)
    requires Inv(s) && Meant(s) && Enabled(s, e)
    ensures var before, after := s.g.admitted, After(s, e).g.admitted;
      && |before| <= |after| <= |before| + 1 && after[..|before|] == before
      && (|after| > |before| ==> Early(after[|before|].verb) || (s.g.ready && InitializeAnswered(s)))
  {
    hide TableOk, Settled, WritingOk, CancelsOk, Conserved, InitializeAnswered;
    if e.ReadLine? {
      ReadCases(s.g, e.line);
    }
  }

  /** Whether a session in this state takes a call of this kind at all. */
  predicate Takes(s: State, verb: Verb) {
    match verb {
      case NoVerb => false
      case ServerDiscover => false
      case Initialize => !InitializeAnswered(s) && !InitializePending(s.g)
      case Ping => true
      case _ => s.g.ready
    }
  }

  /** A request reaches the SDK exactly when no pending call has its ID, fewer than sixteen
      are pending, and the session takes such calls; then it is the next call, under that ID,
      and otherwise the table stays as it is. An initialize that failed can be repeated. */
  lemma AdmittedExactly(states: seq<State>, events: seq<Event>, i: nat, id: RawId, verb: Verb, paramsOk: bool, target: Option<RawId>)
    requires Run(states, events) && i < |events| && events[i] == ReadLine(Message(Some(id), verb, paramsOk, target))
    requires KeyOf(id).Some?
    ensures var key, s, t := KeyOf(id).value, states[i], states[i + 1];
      if key !in s.g.pending && |s.g.pending| < 16 && Takes(s, verb) then
        && Receive(s.g, events[i].line).1 == Deliver(Some(key), verb)
        && t.g.admitted == s.g.admitted + [Call(key, id, verb)]
        && t.g.pending == s.g.pending[key := Pending(verb, id, false, |s.g.admitted|)]
      else
        t.g == s.g && (Receive(s.g, events[i].line).1.Drop? || Receive(s.g, events[i].line).1.Reject?)
  {
    SoundAlways(states, events, i);
    hide InitializeAnswered, InitializePending, Settled, FlagsOk, CancelsOk, WritingOk, Conserved;
    assert Step(states[i], events[i], states[i + 1]);
  }

  // ---------------------------------------------------------------------
  // Notifications
  // ---------------------------------------------------------------------

  predicate IsConfirmation(line: Line) {
    line.Message? && line.id.None? && line.verb == Initialized && line.paramsOk
  }

  /** The client's valid confirmation, after initialize was answered. */
  predicate Confirms(states: seq<State>, events: seq<Event>, k: nat)
    requires k < |events| < |states|
  {
    events[k].ReadLine? && IsConfirmation(events[k].line) && InitializeAnswered(states[k])
  }

  lemma ReadyStep(s: State, e: Event)
    requires Enabled(s, e)
    ensures After(s, e).g.ready <==> s.g.ready || (e.ReadLine? && IsConfirmation(e.line) && s.g.initSent)
  {}

  /** The session is ready exactly when the client confirmed at some earlier moment at which
      initialize had been answered. */
  lemma {:induction false} ReadyExactly(states: seq<State>, events: seq<Event>, i: nat)
    requires Run(states, events) && i < |states|
    ensures states[i].g.ready <==> exists k :: 0 <= k < i && Confirms(states, events, k)
    decreases i
  {
    hide After, Enabled, InitializeAnswered, Inv, IsConfirmation;
    if i > 0 {
      var s, e := states[i - 1], events[i - 1];
      ReadyExactly(states, events, i - 1);
      assert Step(s, e, states[i]);
      ReadyStep(s, e);
      SoundAlways(states, events, i - 1);
      assert states[i].g.ready <==> states[i - 1].g.ready || Confirms(states, events, i - 1);
    }
  }

  /** The pending call that a cancellation is for, unless it was cancelled before. */
  function Target(s: State, target: Option<RawId>): Option<Key> {
    if target.Some? && KeyOf(target.value).Some? && KeyOf(target.value).value in s.g.pending
       && s.g.pending[KeyOf(target.value).value].serial !in s.cancels
    then KeyOf(target.value) else None
  }

  /** A notification reaches the SDK exactly when it is the first confirmation after initialize
      was answered, or cancels a pending call of a ready session for the first time; all
      others are dropped, and none is ever answered. */
  lemma NotifiedExactly(states: seq<State>, events: seq<Event>, i: nat, verb: Verb, paramsOk: bool, target: Option<RawId>)
    requires Run(states, events) && i < |events| && events[i] == ReadLine(Message(None, verb, paramsOk, target))
    ensures var s, t := states[i], states[i + 1];
      var action := Receive(s.g, events[i].line).1;
      && t.refusal.None? && t.g.admitted == s.g.admitted && t.g.pending.Keys == s.g.pending.Keys
      && if verb == Initialized && paramsOk && InitializeAnswered(s) && !s.g.ready then
           action == Deliver(None, Initialized) && t.cancels == s.cancels
         else if verb == Cancelled && paramsOk && s.g.ready && Target(s, target).Some? then
           action == DeliverCancel(Target(s, target).value)
           && t.cancels == s.cancels + [s.g.pending[Target(s, target).value].serial]
         else action == Drop && t.cancels == s.cancels
  {
    SoundAlways(states, events, i);
    hide InitializeAnswered, InitializePending, Settled, FlagsOk, WritingOk, Conserved;
    assert Step(states[i], events[i], states[i + 1]);
    assert states[i].cancels + [] == states[i].cancels;
  }

  // ---------------------------------------------------------------------
  // Refusals
  // ---------------------------------------------------------------------

  /** What a line is answered with directly: a line that is no message, or whose ID is not
      usable, without an ID; a request that is neither delivered nor a repetition under its
      own; blank lines, responses and notifications not at all. */
  function Reply(s: State, line: Line): Option<Sent> {
    match line {
      case Blank => None
      case BadJson => Some(Rejection(None, -32700))
      case BadMessage => Some(Rejection(None, -32600))
      case NoMethod(isResponse) => if isResponse then None else Some(Rejection(None, -32600))
      case Message(id, verb, _, _) =>
        if id.None? then None
        else if KeyOf(id.value).None? then Some(Rejection(None, -32600))
        else if verb.NoVerb? then Some(Rejection(id, -32600))
        else if KeyOf(id.value).value in s.g.pending then None
        else if verb.ServerDiscover? then Some(Rejection(id, -32601))
        else if !Takes(s, verb) then Some(Rejection(id, -32600))
        else if |s.g.pending| >= 16 then Some(if verb.ToolsCall? then BusyResult(id) else Rejection(id, -32000))
        else None
    }
  }

  lemma CodeMeans(s: State, verb: Verb)
    requires Inv(s) && Meant(s) && !verb.NoVerb?
    ensures RefusalCode(s.g, verb) ==
      if verb.ServerDiscover? then -32601
      else if !Takes(s, verb) then -32600
      else if |s.g.pending| >= 16 then -32000
      else 0
  {
    hide InitializeAnswered, InitializePending, TableOk, Settled, FlagsOk, CancelsOk, WritingOk, Conserved;
  }

  lemma RequestReply(s: State, id: RawId, verb: Verb, line: Line)
    requires Inv(s) && Meant(s) && !verb.NoVerb? && KeyOf(id).Some?
    requires line.Message? && line.id == Some(id) && line.verb == verb
    ensures var action := Request(s.g, id, KeyOf(id).value, verb).1;
      if action.Reject? then Reply(s, line) == Some(Refusal(action)) else Reply(s, line).None?
  {
    CodeMeans(s, verb);
    hide Inv, Meant, RefusalCode, Takes;
  }

  lemma LineReply(s: State, line: Line)
    requires Inv(s) && Meant(s)
    ensures var action := Receive(s.g, line).1;
      if action.Reject? then Reply(s, line) == Some(Refusal(action)) else Reply(s, line).None?
  {
    hide Inv, Meant, Takes, Request;
    if line.Message? && line.id.Some? && KeyOf(line.id.value).Some? && !line.verb.NoVerb? {
      RequestReply(s, line.id.value, line.verb, line);
    }
  }

  lemma RefusedExactly(states: seq<State>, events: seq<Event>, i: nat, line: Line)
    requires Run(states, events) && i < |events| && events[i] == ReadLine(line)
    ensures var s, t := states[i], states[i + 1];
      && (t.refusal.Some? <==> Reply(s, line).Some?)
      && (t.refusal.Some? ==> t.refusal.value.Reject? && Some(Refusal(t.refusal.value)) == Reply(s, line))
  {
    SoundAlways(states, events, i);
    LineReply(states[i], line);
    hide Inv, Meant, Receive, Reply, Refusal;
    assert Step(states[i], events[i], states[i + 1]);
  }

  /** Nothing is read while an answer waits, so what goes out is the answer to the last line. */
  lemma {:induction false} RefusalSent(states: seq<State>, events: seq<Event>, i: nat) returns (k: nat)
    requires Run(states, events) && i < |states| && states[i].refusal.Some?
    ensures k < i && events[k].ReadLine? && (forall j :: k < j < i ==> !events[j].ReadLine?)
    ensures states[i].refusal.value.Reject? && Some(Refusal(states[i].refusal.value)) == Reply(states[k], events[k].line)
    ensures i < |events| && events[i].SendRefusal? ==> states[i + 1].sent == states[i].sent + [Reply(states[k], events[k].line).value]
    decreases i
  {
    hide Receive, Reply, Refusal, Retire, Takes;
    assert Step(states[i - 1], events[i - 1], states[i]);
    if events[i - 1].ReadLine? {
      k := i - 1;
      RefusedExactly(states, events, k, events[k].line);
    } else {
      k := RefusalSent(states, events, i - 1);
    }
    assert i < |events| ==> Step(states[i], events[i], states[i + 1]);
  }

  // ---------------------------------------------------------------------
  // What answers say
  // ---------------------------------------------------------------------

  /** Step k began the write that step j ended with a response of this success. */
  predicate Written(events: seq<Event>, k: nat, j: nat, key: Key, success: bool) {
    && k < j < |events|
    && events[k].WriteBegin? && events[k].key == key
    && events[j].WriteEnd? && (events[j].encodes || events[j].fallbackEncodes)
    && success == (events[j].encodes && !events[k].failed)
  }

  lemma {:induction false} WritingBegan(states: seq<State>, events: seq<Event>, i: nat) returns (k: nat)
    requires Run(states, events) && i < |states| && states[i].writing.Some?
    ensures k < i && events[k] == WriteBegin(states[i].writing.value.key, states[i].writing.value.failed)
    decreases i
  {
    assert Step(states[i - 1], events[i - 1], states[i]);
    if states[i - 1].writing.Some? {
      k := WritingBegan(states, events, i - 1);
    } else {
      k := i - 1;
    }
  }

  /** A response reports success exactly when the SDK gave a result for that call and the
      result could be encoded; otherwise the client is told of a failure. */
  lemma {:induction false} AnswersTruthfully(states: seq<State>, events: seq<Event>, i: nat, x: nat) returns (k: nat, j: nat)
    requires Run(states, events) && i < |states| && x < |states[i].sent| && states[i].sent[x].Response?
    ensures j < i && states[i].sent[x].serial < |states[i].g.admitted|
    ensures Written(events, k, j, states[i].g.admitted[states[i].sent[x].serial].key, states[i].sent[x].success)
    decreases i
  {
    hide After, Enabled, Inv;
    var s, e := states[i - 1], events[i - 1];
    InvAlways(states, events, i - 1);
    assert Step(s, e, states[i]);
    Extends(s, e);
    if x < |s.sent| {
      k, j := AnswersTruthfully(states, events, i - 1, x);
    } else {
      k := WritingBegan(states, events, i - 1);
      j := i - 1;
    }
  }

  lemma Extends(s: State, e: Event)
    requires Inv(s) && Enabled(s, e)
    ensures var t := After(s, e);
      && |s.sent| <= |t.sent| <= |s.sent| + 1 && t.sent[..|s.sent|] == s.sent
      && |s.g.admitted| <= |t.g.admitted| && t.g.admitted[..|s.g.admitted|] == s.g.admitted
      && (|t.sent| > |s.sent| && t.sent[|s.sent|].Response? ==>
            && e.WriteEnd? && s.writing.Some? && (e.encodes || e.fallbackEncodes)
            && t.sent[|s.sent|].success == (e.encodes && !s.writing.value.failed)
            && t.sent[|s.sent|].serial < |s.g.admitted|
            && s.g.admitted[t.sent[|s.sent|].serial].key == s.writing.value.key)
  {
    hide TableOk, FlagsOk, Settled, CancelsOk, Conserved;
    if e.ReadLine? {
      ReadCases(s.g, e.line);
    }
    if e.WriteEnd? {
      WrittenCall(s);
    }
  }
}
