/**
 The guard of one MCP session: a JSON-RPC 2.0 request/response table (sections 4
 and 5 of the JSON-RPC 2.0 specification) between the wire and the SDK.

 The reader goroutine and the SDK's writers interleave at every mutex section;
 `writeMu` serialises writes, `mu` protects the table and the flags.
 */
module SessionGuard {
  import Runs

  datatype Option<T> = None | Some(value: T)

  const MAX_PENDING := 16

  // ---------------------------------------------------------------------
  // Request identifiers
  // ---------------------------------------------------------------------

  /** An "id" member as the peer spelled it, with the JSON value it denotes. */
  datatype RawId =
    | Text(raw: string, value: string)
    | Number(raw: string, n: int)
    | OtherJson(raw: string)  // null, fractions, exponents, objects, ...

  function Digits(n: nat): string {
    if n < 10 then [DigitOf(n)] else Digits(n / 10) + [DigitOf(n % 10)]
  }

  function DigitOf(d: nat): char
    requires d < 10
  {
    "0123456789"[d]
  }

  function Decimal(n: int): string {
    if n < 0 then "-" + Digits(-n) else Digits(n)
  }

  /** The private identifier under which the SDK knows a request. */
  datatype Key = Key(text: string)

  /** Strings and 64-bit integers, in separate namespaces; every other id is invalid. */
  function KeyOf(id: RawId): Option<Key> {
    match id {
      case Text(_, value) => Some(Key("string:" + value))
      case Number(_, n) =>
        if -0x8000_0000_0000_0000 <= n < 0x8000_0000_0000_0000 then Some(Key("number:" + Decimal(n))) else None
      case OtherJson(_) => None
    }
  }

  /** The two ids are the same JSON string or the same JSON integer. */
  predicate SameId(a: RawId, b: RawId) {
    (a.Text? && b.Text? && a.value == b.value) || (a.Number? && b.Number? && a.n == b.n)
  }

  lemma {:induction false} DigitsShape(n: nat)
    ensures |Digits(n)| > 0 && forall i :: 0 <= i < |Digits(n)| ==> '0' <= Digits(n)[i] <= '9'
  {
    if n >= 10 {
      DigitsShape(n / 10);
    }
  }

  lemma DigitsUnfold(n: nat)
    ensures n < 10 ==> Digits(n) == [DigitOf(n)]
    ensures n >= 10 ==> Digits(n) == Digits(n / 10) + [DigitOf(n % 10)] && Digits(n / 10) != ""
  {
    DigitsShape(n / 10);
  }

  lemma DigitOfInjective(a: nat, b: nat)
    requires a < 10 && b < 10 && DigitOf(a) == DigitOf(b)
    ensures a == b
  {}

  lemma {:induction false} DigitsInjective(m: nat, n: nat)
    requires Digits(m) == Digits(n)
    ensures m == n
  {
    DigitsUnfold(m);
    DigitsUnfold(n);
    hide Digits, DigitOf;
    if m < 10 && n < 10 {
      DigitOfInjective(m, n);
    } else {
      var s := Digits(m);
      assert m < 10 || n < 10 ==> |s| == 1;
      assert s[..|s| - 1] == Digits(m / 10) && s[..|s| - 1] == Digits(n / 10);
      assert s[|s| - 1] == DigitOf(m % 10) == DigitOf(n % 10);
      DigitOfInjective(m % 10, n % 10);
      DigitsInjective(m / 10, n / 10);
    }
  }

  lemma SignShows(n: int)
    ensures |Decimal(n)| > 0 && (Decimal(n)[0] == '-' <==> n < 0)
  {
    DigitsShape(if n < 0 then -n else n);
  }

  lemma DecimalInjective(m: int, n: int)
    requires Decimal(m) == Decimal(n)
    ensures m == n
  {
    SignShows(m);
    SignShows(n);
    if m < 0 {
      SamePrefix("-", Digits(-m), Digits(-n));
      DigitsInjective(-m, -n);
    } else {
      DigitsInjective(m, n);
    }
  }

  lemma SamePrefix(prefix: string, a: string, b: string)
    requires prefix + a == prefix + b
    ensures a == b
  {
    assert a == (prefix + a)[|prefix|..] == (prefix + b)[|prefix|..] == b;
  }

  lemma NamespacesApart(a: string, b: string)
    ensures "string:" + a != "number:" + b
  {
    assert ("string:" + a)[0] != ("number:" + b)[0];
  }

  /** Two valid ids get the same key exactly when they denote the same JSON value. */
  lemma KeysSeparate(a: RawId, b: RawId)
    requires KeyOf(a).Some? && KeyOf(b).Some?
    ensures KeyOf(a) == KeyOf(b) <==> SameId(a, b)
  {
    if KeyOf(a) == KeyOf(b) {
      match (a, b) {
        case (Text(_, v), Text(_, w)) => SamePrefix("string:", v, w);
        case (Number(_, m), Number(_, n)) =>
          SamePrefix("number:", Decimal(m), Decimal(n));
          DecimalInjective(m, n);
        case (Text(_, v), Number(_, n)) => NamespacesApart(v, Decimal(n));
        case (Number(_, m), Text(_, w)) => NamespacesApart(w, Decimal(m));
      }
    }
  }

  // ---------------------------------------------------------------------
  // The table
  // ---------------------------------------------------------------------

  /** The "method" member of a message. */
  datatype Verb =
    | NoVerb | Initialize | Ping | ServerDiscover | ToolsCall
    | Initialized | Cancelled  // notifications/initialized, notifications/cancelled
    | OtherVerb(name: string)

  datatype Pending = Pending(verb: Verb, wire: RawId, cancelled: bool, serial: nat)

  /** A line from the peer, as far as the guard decodes it. */
  datatype Line =
    | Blank
    | BadJson                             // not JSON
    | BadMessage                          // duplicate keys, wrong envelope or version
    | NoMethod(isResponse: bool)
    | Message(id: Option<RawId>, verb: Verb, paramsOk: bool, target: Option<RawId>)

  /** What the SDK receives, or what the peer is told directly. */
  datatype Action =
    | Drop
    | Deliver(key: Option<Key>, verb: Verb)
    | DeliverCancel(open: Key)
    | Reject(wire: Option<RawId>, code: int, verb: Verb)

  const PARSE_ERROR := -32700
  const INVALID_REQUEST := -32600
  const METHOD_NOT_FOUND := -32601
  const BUSY := -32000

  datatype Table = Table(pending: map<Key, Pending>, initSent: bool, initializing: bool, ready: bool, admitted: seq<Call>)

  /** History: a call the guard let through to the SDK. */
  datatype Call = Call(key: Key, wire: RawId, verb: Verb)

  function Notification(g: Table, m: Line): (Table, Action)
    requires m.Message?
  {
    if m.verb == Initialized then
      if g.initSent && !g.ready && m.paramsOk then (g.(ready := true), Deliver(None, m.verb)) else (g, Drop)
    else if m.verb == Cancelled then
      if g.ready && m.paramsOk && m.target.Some? && KeyOf(m.target.value).Some? then
        var key := KeyOf(m.target.value).value;
        if key in g.pending && !g.pending[key].cancelled then
          (g.(pending := g.pending[key := g.pending[key].(cancelled := true)]), DeliverCancel(key))
        else (g, Drop)
      else (g, Drop)
    else (g, Drop)
  }

  function RefusalCode(g: Table, verb: Verb): int {
    if verb == ServerDiscover then METHOD_NOT_FOUND
    else if verb == Initialize && (g.initSent || g.initializing) then INVALID_REQUEST
    else if verb != Initialize && verb != Ping && !g.ready then INVALID_REQUEST
    else if |g.pending| >= MAX_PENDING then BUSY
    else 0
  }

  function Request(g: Table, wire: RawId, key: Key, verb: Verb): (Table, Action) {
    if key in g.pending then (g, Drop)
    else
      var code := RefusalCode(g, verb);
      if code != 0 then (g, Reject(Some(wire), code, verb))
      else
        (g.(pending := g.pending[key := Pending(verb, wire, false, |g.admitted|)],
            initializing := g.initializing || verb == Initialize,
            admitted := g.admitted + [Call(key, wire, verb)]),
         Deliver(Some(key), verb))
  }

  /** One line under `mu`. */
  function Receive(g: Table, line: Line): (Table, Action) {
    match line {
      case Blank => (g, Drop)
      case BadJson => (g, Reject(None, PARSE_ERROR, NoVerb))
      case BadMessage => (g, Reject(None, INVALID_REQUEST, NoVerb))
      case NoMethod(isResponse) => (g, if isResponse then Drop else Reject(None, INVALID_REQUEST, NoVerb))
      case Message(id, verb, _, _) =>
        if id.Some? && KeyOf(id.value).None? then (g, Reject(None, INVALID_REQUEST, NoVerb))
        else if verb.NoVerb? then (g, if id.Some? then Reject(id, INVALID_REQUEST, NoVerb) else Drop)
        else if id.None? then Notification(g, line)
        else Request(g, id.value, KeyOf(id.value).value, verb)
    }
  }

  /** The second section of a Write: the call is retired before its bytes leave. */
  function Retire(g: Table, key: Key, p: Pending, success: bool): Table {
    var flags := if p.verb == Initialize then g.(initializing := false, initSent := success) else g;
    flags.(pending := flags.pending - {key})
  }

  // ---------------------------------------------------------------------
  // All interleavings
  // ---------------------------------------------------------------------

  /** What goes out on the socket. */
  datatype Sent =
    | Response(wire: RawId, serial: nat, success: bool)
    | Rejection(to: Option<RawId>, code: int)
    | BusyResult(to: Option<RawId>)  // a tool result that reports the full table
    | ServerNotification

  /** The direct answer to a refused line. */
  function Refusal(a: Action): Sent
    requires a.Reject?
  {
    if a.code == BUSY && a.verb == ToolsCall then BusyResult(a.wire) else Rejection(a.wire, a.code)
  }

  datatype Writing = Writing(key: Key, call: Pending, failed: bool)

  datatype State = State(
    g: Table,
    refusal: Option<Action>,      // the reader's rejection that waits for writeMu
    writing: Option<Writing>,     // the response whose Write is between its two sections
    sent: seq<Sent>,
    cancels: seq<nat>)            // history: serials of the calls whose cancellation was delivered

  datatype Event =
    | ReadLine(line: Line)
    | SendRefusal
    | WriteBegin(key: Key, failed: bool)
    | WriteEnd(encodes: bool, fallbackEncodes: bool)
    | Notify

  predicate Enabled(s: State, e: Event) {
    match e {
      case ReadLine(_) => s.refusal.None?
      case SendRefusal => s.refusal.Some? && s.refusal.value.Reject? && s.writing.None?
      case WriteBegin(_, _) => s.writing.None?
      case WriteEnd(_, _) => s.writing.Some?
      case Notify => s.writing.None?
    }
  }

  function After(s: State, e: Event): State
    requires Enabled(s, e)
  {
    match e {
      case ReadLine(line) =>
        var (g, action) := Receive(s.g, line);
        s.(g := g,
           refusal := if action.Reject? then Some(action) else None,
           cancels := s.cancels + if action.DeliverCancel? && action.open in g.pending then [g.pending[action.open].serial] else [])
      case SendRefusal =>
        s.(refusal := None, sent := s.sent + [Refusal(s.refusal.value)])
      case WriteBegin(key, failed) =>
        if key in s.g.pending then s.(writing := Some(Writing(key, s.g.pending[key], failed))) else s
      case WriteEnd(encodes, fallbackEncodes) =>
        var w := s.writing.value;
        if !encodes && !fallbackEncodes then s.(writing := None)
        else
          var success := encodes && !w.failed;
          s.(g := Retire(s.g, w.key, w.call, success), writing := None,
             sent := s.sent + [Response(w.call.wire, w.call.serial, success)])
      case Notify => s.(sent := s.sent + [ServerNotification])
    }
  }

  ghost predicate Step(s: State, e: Event, t: State) {
    Enabled(s, e) && t == After(s, e)
  }

  const START := State(Table(map[], false, false, false, []), None, None, [], [])

  ghost predicate Run(states: seq<State>, events: seq<Event>) {
    Runs.Run(START, Step, states, events)
  }

  // ---------------------------------------------------------------------
  // Invariants
  // ---------------------------------------------------------------------

  /** Every pending entry is the admitted call of its serial, under its own key. */
  predicate TableOk(g: Table) {
    && |g.pending| <= MAX_PENDING
    && (forall k :: k in g.pending ==>
          && g.pending[k].serial < |g.admitted|
          && g.admitted[g.pending[k].serial] == Call(k, g.pending[k].wire, g.pending[k].verb)
          && KeyOf(g.pending[k].wire) == Some(k))
  }

  predicate IsInitialize(g: Table, k: Key)
    requires k in g.pending
  {
    g.pending[k].verb == Initialize
  }

  predicate FlagsOk(g: Table) {
    && (g.ready ==> g.initSent)
    && (g.initializing ==> !g.initSent)
    && (forall k :: k in g.pending && IsInitialize(g, k) ==> g.initializing)
    && (forall j, k :: j in g.pending && k in g.pending && IsInitialize(g, j) && IsInitialize(g, k) ==> j == k)
  }

  predicate IsPending(g: Table, serial: nat) {
    exists k :: k in g.pending && g.pending[k].serial == serial
  }

  predicate Answered(sent: seq<Sent>, serial: nat) {
    exists i :: 0 <= i < |sent| && sent[i].Response? && sent[i].serial == serial
  }

  /** Every admitted call is pending or answered, not both, and answered once. */
  predicate Settled(g: Table, sent: seq<Sent>) {
    && (forall n :: 0 <= n < |g.admitted| ==> IsPending(g, n) != Answered(sent, n))
    && (forall i :: 0 <= i < |sent| && sent[i].Response? ==>
          sent[i].serial < |g.admitted| && sent[i].wire == g.admitted[sent[i].serial].wire)
    && (forall i, j :: 0 <= i < j < |sent| && sent[i].Response? && sent[j].Response? ==> sent[i].serial != sent[j].serial)
  }

  /** A Write in progress is about a call that is still pending. */
  predicate WritingOk(s: State) {
    s.writing.Some? ==>
      var w := s.writing.value;
      w.key in s.g.pending && w.call.(cancelled := s.g.pending[w.key].cancelled) == s.g.pending[w.key]
  }

  /** A call's cancellation is delivered at most once, and only to an open call. */
  predicate CancelsOk(s: State) {
    && (forall i :: 0 <= i < |s.cancels| ==> s.cancels[i] < |s.g.admitted|)
    && (forall k, i :: k in s.g.pending && !s.g.pending[k].cancelled && 0 <= i < |s.cancels| ==>
          s.cancels[i] != s.g.pending[k].serial)
    && (forall i, j :: 0 <= i < j < |s.cancels| ==> s.cancels[i] != s.cancels[j])
  }

  function Responses(sent: seq<Sent>): nat {
    if sent == [] then 0
    else Responses(sent[..|sent| - 1]) + if sent[|sent| - 1].Response? then 1 else 0
  }

  /** No call is lost: the admitted calls are the pending ones and the answered ones. */
  predicate Conserved(s: State) {
    |s.g.admitted| == |s.g.pending| + Responses(s.sent)
  }

  predicate Inv(s: State) {
    TableOk(s.g) && FlagsOk(s.g) && Settled(s.g, s.sent) && WritingOk(s) && CancelsOk(s) && Conserved(s)
  }

  /** A table with the same calls, flags that kept their meaning, and possibly one
      more cancellation mark. */
  predicate SameCalls(g: Table, h: Table) {
    && h.pending.Keys == g.pending.Keys && h.admitted == g.admitted
    && h.initSent == g.initSent && h.initializing == g.initializing
    && (h.ready ==> h.initSent)
    && forall k :: k in g.pending ==> h.pending[k].(cancelled := g.pending[k].cancelled) == g.pending[k]
  }

  lemma SameKeysSameSize(m: map<Key, Pending>, n: map<Key, Pending>)
    requires m.Keys == n.Keys
    ensures |m| == |n|
  {
    assert |m| == |m.Keys| && |n| == |n.Keys|;
  }

  lemma OneMore(m: map<Key, Pending>, k: Key, p: Pending)
    requires k !in m
    ensures |m[k := p]| == |m| + 1
  {
    assert m[k := p].Keys == m.Keys + {k};
  }

  lemma OneLess(m: map<Key, Pending>, k: Key)
    requires k in m
    ensures |m - {k}| == |m| - 1
  {
    assert m.Keys == (m - {k}).Keys + {k};
  }

  /** The same serials are pending. */
  lemma SamePending(g: Table, h: Table, n: nat)
    requires forall k :: k in g.pending && g.pending[k].serial == n ==> k in h.pending && h.pending[k].serial == n
    requires forall k :: k in h.pending && h.pending[k].serial == n ==> k in g.pending && g.pending[k].serial == n
    ensures IsPending(g, n) == IsPending(h, n)
  {
  }

  lemma SameCall(g: Table, h: Table, k: Key)
    requires SameCalls(g, h) && k in h.pending
    ensures k in g.pending && h.pending[k].serial == g.pending[k].serial && h.pending[k].wire == g.pending[k].wire
    ensures IsInitialize(h, k) == IsInitialize(g, k) && h.pending[k].verb == g.pending[k].verb
  {
    var kept := h.pending[k].(cancelled := g.pending[k].cancelled);
    assert kept == g.pending[k] && kept.serial == h.pending[k].serial && kept.wire == h.pending[k].wire;
  }

  lemma SameCallsKeepTable(g: Table, h: Table)
    requires TableOk(g) && FlagsOk(g) && SameCalls(g, h)
    ensures TableOk(h) && FlagsOk(h)
  {
    SameKeysSameSize(g.pending, h.pending);
    assert h.admitted == g.admitted && (h.ready ==> h.initSent);
    assert h.initSent == g.initSent && h.initializing == g.initializing;
    forall k | k in h.pending
      ensures k in g.pending && h.pending[k].serial == g.pending[k].serial && h.pending[k].wire == g.pending[k].wire
      ensures IsInitialize(h, k) == IsInitialize(g, k) && h.pending[k].verb == g.pending[k].verb
    {
      SameCall(g, h, k);
    }
    hide SameCalls;
  }

  lemma SameCallsKeepSettled(g: Table, h: Table, sent: seq<Sent>)
    requires Settled(g, sent) && SameCalls(g, h)
    ensures Settled(h, sent)
  {
    forall n | 0 <= n < |h.admitted| ensures IsPending(h, n) != Answered(sent, n) {
      SamePending(g, h, n);
    }
  }

  /** Admission: one more call, with the next serial, under a key that was free. */
  predicate Admits(g: Table, wire: RawId, key: Key, verb: Verb) {
    key !in g.pending && KeyOf(wire) == Some(key) && RefusalCode(g, verb) == 0
  }

  lemma AdmissionKeepsTable(g: Table, wire: RawId, key: Key, verb: Verb)
    requires TableOk(g) && Admits(g, wire, key, verb)
    ensures TableOk(Request(g, wire, key, verb).0)
  {
    OneMore(g.pending, key, Pending(verb, wire, false, |g.admitted|));
  }

  lemma AdmissionKeepsFlags(g: Table, wire: RawId, key: Key, verb: Verb)
    requires FlagsOk(g) && Admits(g, wire, key, verb)
    ensures FlagsOk(Request(g, wire, key, verb).0)
  {
    var h := Request(g, wire, key, verb).0;
    forall k | k in h.pending && IsInitialize(h, k) ensures h.initializing && (k != key ==> k in g.pending && IsInitialize(g, k)) {
    }
  }

  lemma AdmissionKeepsSettled(g: Table, wire: RawId, key: Key, verb: Verb, sent: seq<Sent>)
    requires TableOk(g) && Settled(g, sent) && Admits(g, wire, key, verb)
    ensures Settled(Request(g, wire, key, verb).0, sent)
  {
    var h := Request(g, wire, key, verb).0;
    forall n | 0 <= n < |h.admitted| ensures IsPending(h, n) != Answered(sent, n) {
      if n == |g.admitted| {
        assert h.pending[key].serial == n;
      } else {
        SamePending(g, h, n);
      }
    }
  }

  lemma NotificationKeeps(g: Table, m: Line)
    requires m.Message? && FlagsOk(g)
    ensures var (h, action) := Notification(g, m);
      && SameCalls(g, h) && !action.Reject?
      && (action.DeliverCancel? ==>
            action.open in g.pending && !g.pending[action.open].cancelled
            && h.pending == g.pending[action.open := g.pending[action.open].(cancelled := true)])
      && (!action.DeliverCancel? ==> h.pending == g.pending)
  {
  }

  /** How one line may change the table. */
  ghost predicate Received(g: Table, line: Line, h: Table, action: Action) {
    || (h == g && !action.DeliverCancel?)
    || (line.Message? && line.id.None? && (h, action) == Notification(g, line))
    || (line.Message? && line.id.Some? && KeyOf(line.id.value).Some?
        && KeyOf(line.id.value).value !in g.pending && RefusalCode(g, line.verb) == 0
        && (h, action) == Request(g, line.id.value, KeyOf(line.id.value).value, line.verb))
  }

  lemma ReceiveCases(g: Table, line: Line)
    ensures Received(g, line, Receive(g, line).0, Receive(g, line).1)
  {
  }

  lemma ReadKeepsTable(s: State, line: Line)
    requires Inv(s) && Enabled(s, ReadLine(line))
    ensures var t := After(s, ReadLine(line)); TableOk(t.g) && FlagsOk(t.g) && Settled(t.g, t.sent)
  {
    var (h, action) := Receive(s.g, line);
    ReceiveCases(s.g, line);
    if h != s.g {
      if line.id.None? {
        NotificationKeeps(s.g, line);
        SameCallsKeepTable(s.g, h);
        SameCallsKeepSettled(s.g, h, s.sent);
      } else {
        var wire, key := line.id.value, KeyOf(line.id.value).value;
        AdmissionKeepsTable(s.g, wire, key, line.verb);
        AdmissionKeepsFlags(s.g, wire, key, line.verb);
        AdmissionKeepsSettled(s.g, wire, key, line.verb, s.sent);
      }
    }
  }

  lemma ReadKeepsWriting(s: State, line: Line)
    requires Inv(s) && Enabled(s, ReadLine(line))
    ensures WritingOk(After(s, ReadLine(line)))
  {
    ReceiveCases(s.g, line);
    if line.Message? && line.id.None? {
      NotificationKeeps(s.g, line);
    }
  }

  lemma CancelKeepsCancels(s: State, line: Line)
    requires Inv(s) && Enabled(s, ReadLine(line))
    requires line.Message? && line.id.None? && Notification(s.g, line).1.DeliverCancel?
    requires Receive(s.g, line) == Notification(s.g, line)
    ensures CancelsOk(After(s, ReadLine(line)))
  {
    hide FlagsOk, Settled, WritingOk, Conserved, Request;
    var (h, action) := Notification(s.g, line);
    var t := After(s, ReadLine(line));
    NotificationKeeps(s.g, line);
    assert t.g == h && t.cancels == s.cancels + [s.g.pending[action.open].serial];
    forall k | k in h.pending && !h.pending[k].cancelled
      ensures h.pending[k].serial != s.g.pending[action.open].serial
    {
      assert s.g.admitted[h.pending[k].serial].key == k;
    }
  }

  lemma ReadKeepsCancels(s: State, line: Line)
    requires Inv(s) && Enabled(s, ReadLine(line))
    ensures CancelsOk(After(s, ReadLine(line)))
  {
    var (h, action) := Receive(s.g, line);
    ReceiveCases(s.g, line);
    if action.DeliverCancel? {
      CancelKeepsCancels(s, line);
    } else {
      assert After(s, ReadLine(line)).cancels == s.cancels;
      if line.Message? && line.id.None? {
        NotificationKeeps(s.g, line);
      }
    }
  }

  lemma RetireKeepsTable(g: Table, key: Key, p: Pending, success: bool)
    requires TableOk(g) && key in g.pending
    ensures TableOk(Retire(g, key, p, success))
  {
    OneLess(g.pending, key);
  }

  lemma RetireKeepsFlags(g: Table, key: Key, p: Pending, success: bool)
    requires FlagsOk(g) && key in g.pending && p.verb == g.pending[key].verb
    ensures FlagsOk(Retire(g, key, p, success))
  {
    var h := Retire(g, key, p, success);
    forall k | k in h.pending && IsInitialize(h, k) ensures k in g.pending && IsInitialize(g, k) && k != key {
    }
    if IsInitialize(g, key) {
      forall k | k in h.pending ensures !IsInitialize(h, k) {
        assert k in g.pending && k != key;
        assert !IsInitialize(g, k);
      }
    }
  }

  /** Retirement turns one pending call into one answered call. */
  lemma RetireKeepsSettled(g: Table, key: Key, p: Pending, success: bool, sent: seq<Sent>)
    requires TableOk(g) && Settled(g, sent)
    requires key in g.pending && p.(cancelled := g.pending[key].cancelled) == g.pending[key]
    ensures Settled(Retire(g, key, p, success), sent + [Response(p.wire, p.serial, success)])
  {
    var h, more := Retire(g, key, p, success), sent + [Response(p.wire, p.serial, success)];
    assert IsPending(g, p.serial);
    assert forall i :: 0 <= i < |sent| && sent[i].Response? ==> sent[i].serial != p.serial by {
      assert !Answered(sent, p.serial);
    }
    forall n | 0 <= n < |h.admitted| ensures IsPending(h, n) != Answered(more, n) {
      if n == p.serial {
        assert more[|sent|].serial == n;
        forall k | k in h.pending ensures h.pending[k].serial != n {
          assert k != key && g.admitted[g.pending[k].serial].key == k && g.admitted[n].key == key;
        }
      } else {
        assert Answered(more, n) == Answered(sent, n) by {
          if Answered(sent, n) {
            var i :| 0 <= i < |sent| && sent[i].Response? && sent[i].serial == n;
            assert more[i] == sent[i];
          }
          if Answered(more, n) {
            var i :| 0 <= i < |more| && more[i].Response? && more[i].serial == n;
            assert more[i] == sent[i];
          }
        }
        assert IsPending(h, n) == IsPending(g, n) by {
          if IsPending(g, n) {
            var k :| k in g.pending && g.pending[k].serial == n;
            assert k in h.pending && h.pending[k].serial == n;
          }
        }
      }
    }
  }

  lemma OtherSent(g: Table, sent: seq<Sent>, extra: Sent)
    requires Settled(g, sent) && !extra.Response?
    ensures Settled(g, sent + [extra])
  {
    var more := sent + [extra];
    forall n | 0 <= n < |g.admitted| ensures IsPending(g, n) != Answered(more, n) {
      assert Answered(more, n) == Answered(sent, n) by {
        if Answered(sent, n) {
          var i :| 0 <= i < |sent| && sent[i].Response? && sent[i].serial == n;
          assert more[i] == sent[i];
        }
      }
    }
  }

  lemma ReadConserves(s: State, line: Line)
    requires Inv(s) && Enabled(s, ReadLine(line))
    ensures Conserved(After(s, ReadLine(line)))
  {
    hide TableOk, Settled, WritingOk, CancelsOk, Responses;
    var t := After(s, ReadLine(line));
    ReceiveCases(s.g, line);
    if t.g.admitted != s.g.admitted {
      OneMore(s.g.pending, KeyOf(line.id.value).value, Pending(line.verb, line.id.value, false, |s.g.admitted|));
    } else if line.Message? && line.id.None? {
      NotificationKeeps(s.g, line);
      SameKeysSameSize(s.g.pending, t.g.pending);
    }
  }

  lemma OneSent(sent: seq<Sent>, extra: Sent)
    ensures Responses(sent + [extra]) == Responses(sent) + if extra.Response? then 1 else 0
  {
    assert (sent + [extra])[..|sent|] == sent;
  }

  lemma EndConserves(s: State, e: Event)
    requires Inv(s) && Enabled(s, e) && e.WriteEnd?
    ensures Conserved(After(s, e))
  {
    hide TableOk, FlagsOk, Settled, CancelsOk, Responses;
    if e.encodes || e.fallbackEncodes {
      var w := s.writing.value;
      OneLess(s.g.pending, w.key);
      OneSent(s.sent, Response(w.call.wire, w.call.serial, e.encodes && !w.failed));
    }
  }

  lemma OtherConserves(s: State, e: Event)
    requires Inv(s) && Enabled(s, e) && !e.ReadLine? && !e.WriteEnd?
    ensures Conserved(After(s, e))
  {
    hide TableOk, FlagsOk, Settled, CancelsOk, WritingOk, Responses;
    OneSent(s.sent, ServerNotification);
    if e.SendRefusal? {
      OneSent(s.sent, Refusal(s.refusal.value));
    }
  }

  lemma ConservedKept(s: State, e: Event)
    requires Inv(s) && Enabled(s, e)
    ensures Conserved(After(s, e))
  {
    hide Inv, Conserved, After, Enabled;
    if e.ReadLine? {
      ReadConserves(s, e.line);
    } else {
      if e.WriteEnd? {
        EndConserves(s, e);
      } else {
        OtherConserves(s, e);
      }
    }
  }

  lemma InvKept(s: State, e: Event)
    requires Inv(s) && Enabled(s, e)
    ensures Inv(After(s, e))
  {
    ConservedKept(s, e);
    match e {
      case ReadLine(line) =>
        ReadKeepsTable(s, line);
        ReadKeepsWriting(s, line);
        ReadKeepsCancels(s, line);
      case SendRefusal => OtherSent(s.g, s.sent, Refusal(s.refusal.value));
      case WriteBegin(_, _) =>
      case WriteEnd(encodes, fallbackEncodes) =>
        if encodes || fallbackEncodes {
          var w := s.writing.value;
          RetireKeepsTable(s.g, w.key, w.call, encodes && !w.failed);
          RetireKeepsFlags(s.g, w.key, w.call, encodes && !w.failed);
          RetireKeepsSettled(s.g, w.key, w.call, encodes && !w.failed, s.sent);
        }
      case Notify => OtherSent(s.g, s.sent, ServerNotification);
    }
  }

  lemma StepKeepsInv()
    ensures Inv(START)
    ensures forall s, e, t :: Inv(s) && Step(s, e, t) ==> Inv(t)
  {
    forall s, e, t | Inv(s) && Step(s, e, t) ensures Inv(t) {
      InvKept(s, e);
    }
  }

  lemma InvAlways(states: seq<State>, events: seq<Event>, i: nat)
    requires Run(states, events) && i < |states|
    ensures Inv(states[i])
  {
    StepKeepsInv();
    Runs.Invariant(START, Step, Inv, states, events, i);
  }

  // ---------------------------------------------------------------------
  // Every session run
  // ---------------------------------------------------------------------

  /** At most sixteen calls are pending, and no two of them carry the same id. */
  lemma PendingBounded(states: seq<State>, events: seq<Event>, i: nat, j: Key, k: Key)
    requires Run(states, events) && i < |states|
    requires j in states[i].g.pending && k in states[i].g.pending && j != k
    ensures |states[i].g.pending| <= 16
    ensures !SameId(states[i].g.pending[j].wire, states[i].g.pending[k].wire)
  {
    InvAlways(states, events, i);
    KeysSeparate(states[i].g.pending[j].wire, states[i].g.pending[k].wire);
  }

  /** No admitted call is lost: each is still pending or has its one response. */
  lemma NoCallLost(states: seq<State>, events: seq<Event>, i: nat, serial: nat)
    requires Run(states, events) && i < |states| && serial < |states[i].g.admitted|
    ensures IsPending(states[i].g, serial) != Answered(states[i].sent, serial)
    ensures |states[i].g.admitted| == |states[i].g.pending| + Responses(states[i].sent)
  {
    InvAlways(states, events, i);
  }

  /** Every SDK response on the wire answers an admitted call with that call's own
      id, and no call is answered twice or while it is still pending. */
  lemma AnsweredOnce(states: seq<State>, events: seq<Event>, i: nat, x: nat, y: nat)
    requires Run(states, events) && i < |states| && x < |states[i].sent| && y < |states[i].sent|
    requires states[i].sent[x].Response? && states[i].sent[y].Response?
    ensures states[i].sent[x].serial < |states[i].g.admitted|
    ensures states[i].sent[x].wire == states[i].g.admitted[states[i].sent[x].serial].wire
    ensures !IsPending(states[i].g, states[i].sent[x].serial)
    ensures states[i].sent[x].serial == states[i].sent[y].serial ==> x == y
  {
    InvAlways(states, events, i);
    assert Answered(states[i].sent, states[i].sent[x].serial);
  }

  /** The session is ready only after its initialization was answered, and no initialize
      call is in flight once it was. */
  lemma InitializationOrder(states: seq<State>, events: seq<Event>, i: nat)
    requires Run(states, events) && i < |states|
    ensures states[i].g.ready ==> states[i].g.initSent
    ensures states[i].g.initSent ==> forall k <- states[i].g.pending :: !IsInitialize(states[i].g, k)
  {
    InvAlways(states, events, i);
  }

  /** At most one initialize call is in flight. */
  lemma OneInitialize(states: seq<State>, events: seq<Event>, i: nat, j: Key, k: Key)
    requires Run(states, events) && i < |states| && j in states[i].g.pending && k in states[i].g.pending
    requires IsInitialize(states[i].g, j) && IsInitialize(states[i].g, k)
    ensures j == k
  {
    InvAlways(states, events, i);
  }

  lemma InitSentStays(s: State, e: Event)
    requires Inv(s) && Enabled(s, e) && s.g.initSent
    ensures After(s, e).g.initSent
  {
    if e.WriteEnd? {
      assert !IsInitialize(s.g, s.writing.value.key);
    }
  }

  /** A session that has been initialized never becomes uninitialized. */
  lemma InitializedForGood(states: seq<State>, events: seq<Event>, i: nat, j: nat)
    requires Run(states, events) && i <= j < |states| && states[i].g.initSent
    ensures states[j].g.initSent
  {
    StepKeepsInv();
    forall s, e, t | Inv(s) && s.g.initSent && Step(s, e, t) ensures t.g.initSent {
      InitSentStays(s, e);
    }
    Runs.Persists(START, Step, Inv, (s: State) => s.g.initSent, states, events, i, j);
  }

  /** A call's cancellation reaches the SDK at most once. */
  lemma CancelledOnce(states: seq<State>, events: seq<Event>, i: nat, x: nat, y: nat)
    requires Run(states, events) && i < |states| && x < |states[i].cancels| && y < |states[i].cancels|
    requires states[i].cancels[x] == states[i].cancels[y]
    ensures x == y
  {
    InvAlways(states, events, i);
  }

  /** A repeated id is silently dropped while its call is pending, except on a line
      with an empty method, which is refused with that id: direct refusals are not
      part of the uniqueness claim. */
  lemma RepeatedId(g: Table, id: RawId, verb: Verb, paramsOk: bool)
    requires KeyOf(id).Some? && KeyOf(id).value in g.pending
    ensures Receive(g, Message(Some(id), verb, paramsOk, None)) ==
      (g, if verb.NoVerb? then Reject(Some(id), INVALID_REQUEST, NoVerb) else Drop)
  {
  }

  // ---------------------------------------------------------------------
  // The guard object
  // ---------------------------------------------------------------------

  class Guard {
    var pending: map<Key, Pending>
    var initSent: bool
    var initializing: bool
    var ready: bool
    var admitted: seq<Call>  // history; serials are its lengths

    function Snapshot(): Table
      reads this
    {
      Table(pending, initSent, initializing, ready, admitted)
    }

    constructor ()
      ensures Snapshot() == START.g
    {
      pending, initSent, initializing, ready, admitted := map[], false, false, false, [];
    }

    method ReceiveNotification(verb: Verb, paramsOk: bool, target: Option<RawId>) returns (action: Action)
      modifies this
      ensures (Snapshot(), action) == Notification(old(Snapshot()), Message(None, verb, paramsOk, target))
    {
      var valid := false;
      action := Drop;
      if verb == Initialized {
        valid := initSent && !ready && paramsOk;
        if valid {
          ready := true;
          action := Deliver(None, verb);
        }
      } else if verb == Cancelled {
        if ready && paramsOk && target.Some? && KeyOf(target.value).Some? {
          var key := KeyOf(target.value).value;
          valid := key in pending && !pending[key].cancelled;
          if valid {
            var p := pending[key].(cancelled := true);
            pending := pending[key := p];
            action := DeliverCancel(key);
          }
        }
      }
    }

    method ReceiveCall(wire: RawId, key: Key, verb: Verb) returns (action: Action)
      modifies this
      ensures (Snapshot(), action) == Request(old(Snapshot()), wire, key, verb)
    {
      if key in pending {
        return Drop;  // the original call keeps its one response
      }
      var code := 0;
      if verb == ServerDiscover {
        code := METHOD_NOT_FOUND;
      } else if verb == Initialize && (initSent || initializing) {
        code := INVALID_REQUEST;
      } else if verb != Initialize && verb != Ping && !ready {
        code := INVALID_REQUEST;
      } else if |pending| >= MAX_PENDING {
        code := BUSY;
      }
      if code != 0 {
        return Reject(Some(wire), code, verb);
      }
      pending := pending[key := Pending(verb, wire, false, |admitted|)];
      admitted := admitted + [Call(key, wire, verb)];
      if verb == Initialize {
        initializing := true;
      }
      return Deliver(Some(key), verb);
    }

    /** One line from the peer. */
    method Read(line: Line) returns (action: Action)
      modifies this
      ensures (Snapshot(), action) == Receive(old(Snapshot()), line)
    {
      match line {
        case Blank => action := Drop;
        case BadJson => action := Reject(None, PARSE_ERROR, NoVerb);
        case BadMessage => action := Reject(None, INVALID_REQUEST, NoVerb);
        case NoMethod(isResponse) => action := if isResponse then Drop else Reject(None, INVALID_REQUEST, NoVerb);
        case Message(id, verb, paramsOk, target) =>
          if id.Some? && KeyOf(id.value).None? {
            return Reject(None, INVALID_REQUEST, NoVerb);
          }
          if verb == NoVerb {
            return if id.Some? then Reject(id, INVALID_REQUEST, NoVerb) else Drop;
          }
          if id.None? {
            action := ReceiveNotification(verb, paramsOk, target);
          } else {
            action := ReceiveCall(id.value, KeyOf(id.value).value, verb);
          }
      }
    }

    /** The second section of a Write: retire the call before its bytes leave. */
    method FinishWrite(key: Key, p: Pending, success: bool)
      modifies this
      ensures Snapshot() == Retire(old(Snapshot()), key, p, success)
    {
      if p.verb == Initialize {
        initializing := false;
        initSent := success;
      }
      pending := pending - {key};
    }
  }
}
