/**
 The read-query guard: an explicit task stack walks a parse tree. Every SELECT
 owns a table of visible CTE names; its descendants share that table by
 reference, and "bind" tasks update it in the middle of the walk.

 The walk is proved equivalent to ordinary recursive lexical scoping of WITH and
 WITH RECURSIVE (PostgreSQL 16 manual, section 7.8).
 */
module SqlGuard {

  /** A protobuf message of the parse tree, reduced to what the guard looks at.
      `fields` holds the message-valued fields in the order the walk meets them,
      without the WITH clause of a SELECT. */
  datatype Message = Message(unknown: bool, kind: Kind, fields: seq<Message>)

  datatype Kind =
    | Node(dml: bool)  // the oneof wrapper; dml for INSERT, UPDATE, DELETE, MERGE
    | Select(into: bool, locking: bool, with: With)
    | RangeVar(schema: string, relation: string)
    | Other

  datatype With =
    | NoWith
    | With(recursive: bool, ctes: seq<CteItem>)

  /** One list entry of a WITH clause: a CTE, or a node of some other type. */
  datatype CteItem =
    | NotCte
    | Cte(name: string, queryIsSelect: bool, body: Message)

  /** The statement kinds that matter at the top of a parse. */
  datatype Statement = SelectStmt | ShowStmt | ExplainStmt(query: Statement) | OtherStmt

  datatype Parse =
    | ParseError
    | Parsed(stmts: seq<Statement>, tree: Message)

  datatype Verdict = Accept | InvalidSql | NotReadOnly | Unqualified | Crash

  // ---------------------------------------------------------------------
  // The reference: recursive lexical scoping
  // ---------------------------------------------------------------------

  /** The names bound by the first n entries of a WITH list. */
  function Names(ctes: seq<CteItem>, n: nat): set<string>
    requires n <= |ctes|
  {
    set i | 0 <= i < n && ctes[i].Cte? :: ctes[i].name
  }

  /** Every entry is a CTE over a SELECT, with the nonempty name that the parser promises. */
  ghost predicate WellFormed(ctes: seq<CteItem>) {
    forall i :: 0 <= i < |ctes| ==> ctes[i].Cte? && ctes[i].queryIsSelect && ctes[i].name != ""
  }

  /** The names that WITH RECURSIVE makes visible before any body is checked. */
  function RecursiveNames(w: With): set<string> {
    if w.With? && w.recursive then Names(w.ctes, |w.ctes|) else {}
  }

  /** What the body of CTE i may see besides the outer names: every sibling under
      WITH RECURSIVE, the earlier siblings under a plain WITH. */
  function VisibleTo(w: With, i: nat): set<string>
    requires w.With? && i < |w.ctes|
  {
    Names(w.ctes, if w.recursive then |w.ctes| else i)
  }

  /** The names that the main part of a SELECT sees. */
  function Inside(w: With, scope: set<string>): set<string> {
    if w.NoWith? then scope else scope + Names(w.ctes, |w.ctes|)
  }

  /** A message is acceptable when nothing in it writes or locks and every
      unqualified relation names a CTE that is in scope where it stands. */
  ghost predicate Acceptable(m: Message, scope: set<string>)
    decreases m, 1
  {
    && !m.unknown
    && match m.kind {
      case Node(dml) => !dml && FieldsAcceptable(m, scope)
      case Other => FieldsAcceptable(m, scope)
      case RangeVar(schema, relation) => schema != "" || relation in scope
      case Select(into, locking, w) =>
        && !into && !locking
        && (w.With? ==>
              && WellFormed(w.ctes)
              && forall i :: 0 <= i < |w.ctes| ==> Acceptable(w.ctes[i].body, scope + VisibleTo(w, i)))
        && FieldsAcceptable(m, Inside(w, scope))
    }
  }

  ghost predicate FieldsAcceptable(m: Message, scope: set<string>)
    decreases m, 0
  {
    forall i :: 0 <= i < |m.fields| ==> Acceptable(m.fields[i], scope)
  }

  /** More names in scope never turn an acceptable tree down. */
  lemma {:induction false} ScopeMonotone(m: Message, small: set<string>, large: set<string>)
    requires small <= large && Acceptable(m, small)
    ensures Acceptable(m, large)
  {
    match m.kind {
      case RangeVar(_, _) =>
      case Node(_) =>
        forall i | 0 <= i < |m.fields| ensures Acceptable(m.fields[i], large) {
          ScopeMonotone(m.fields[i], small, large);
        }
      case Other =>
        forall i | 0 <= i < |m.fields| ensures Acceptable(m.fields[i], large) {
          ScopeMonotone(m.fields[i], small, large);
        }
      case Select(_, _, w) =>
        forall i | 0 <= i < |m.fields| ensures Acceptable(m.fields[i], Inside(w, large)) {
          ScopeMonotone(m.fields[i], Inside(w, small), Inside(w, large));
        }
        if w.With? {
          forall i | 0 <= i < |w.ctes| ensures Acceptable(w.ctes[i].body, large + VisibleTo(w, i)) {
            ScopeMonotone(w.ctes[i].body, small + VisibleTo(w, i), large + VisibleTo(w, i));
          }
        }
    }
  }

  /** Marking a WITH clause RECURSIVE only makes more names visible, so it keeps
      every acceptable SELECT acceptable. */
  lemma RecursiveAcceptsMore(m: Message, ctes: seq<CteItem>, scope: set<string>)
    requires m.kind.Select? && m.kind.with == With(false, ctes) && Acceptable(m, scope)
    ensures Acceptable(m.(kind := m.kind.(with := With(true, ctes))), scope)
  {
    var r := With(true, ctes);
    var n := m.(kind := m.kind.(with := r));
    forall i | 0 <= i < |ctes| ensures Acceptable(ctes[i].body, scope + VisibleTo(r, i)) {
      assert VisibleTo(m.kind.with, i) <= VisibleTo(r, i);
      ScopeMonotone(ctes[i].body, scope + VisibleTo(m.kind.with, i), scope + VisibleTo(r, i));
    }
    assert Inside(r, scope) == Inside(m.kind.with, scope);
    assert FieldsAcceptable(n, Inside(r, scope));
  }

  // ---------------------------------------------------------------------
  // The walk's state: shared scope tables and the task stack
  // ---------------------------------------------------------------------

  /** A table of visible CTE names, shared by reference. */
  class Scope {
    var names: set<string>

    constructor (names: set<string>)
      ensures this.names == names
    {
      this.names := names;
    }
  }

  datatype Task =
    | Visit(ctes: Scope, message: Message)
    | Bind(ctes: Scope, name: string)

  /** The contents of the scope tables at one moment. */
  ghost function View(scopes: set<Scope>): map<Scope, set<string>>
    reads scopes
  {
    map s | s in scopes :: s.names
  }

  ghost predicate Within(stack: seq<Task>, scopes: set<Scope>) {
    forall i :: 0 <= i < |stack| ==> stack[i].ctes in scopes
  }

  /** What is still to be decided: the tasks from the top down, with each bind
      task changing the shared table for the tasks below it. */
  ghost predicate Pending(stack: seq<Task>, view: map<Scope, set<string>>)
    requires Within(stack, view.Keys)
  {
    stack == [] ||
    var rest, next := stack[..|stack| - 1], stack[|stack| - 1];
    match next {
      case Visit(s, m) => Acceptable(m, view[s]) && Pending(rest, view)
      case Bind(s, name) => name != "" && Pending(rest, view[s := view[s] + {name}])
    }
  }

  function FieldTasks(fields: seq<Message>, ctes: Scope): seq<Task> {
    seq(|fields|, i requires 0 <= i < |fields| => Visit(ctes, fields[i]))
  }

  /** Visits and binds for the entries from k on, the entry k on top. */
  function CteTasks(list: seq<CteItem>, k: nat, ctes: Scope): seq<Task>
    requires k <= |list| && forall i :: 0 <= i < |list| ==> list[i].Cte?
    decreases |list| - k
  {
    if k == |list| then []
    else CteTasks(list, k + 1, ctes) + [Bind(ctes, list[k].name), Visit(ctes, list[k].body)]
  }

  /** The stack after a message has been visited. */
  function Pushed(rest: seq<Task>, fields: seq<Message>, w: With, ctes: Scope): seq<Task>
    requires w.With? ==> forall i :: 0 <= i < |w.ctes| ==> w.ctes[i].Cte?
  {
    rest + FieldTasks(fields, ctes) + if w.With? then CteTasks(w.ctes, 0, ctes) else []
  }

  lemma PendingTop(rest: seq<Task>, next: Task, view: map<Scope, set<string>>)
    requires Within(rest, view.Keys) && next.ctes in view
    ensures Within(rest + [next], view.Keys)
    ensures next.Visit? ==>
      (Pending(rest + [next], view) <==> Acceptable(next.message, view[next.ctes]) && Pending(rest, view))
    ensures next.Bind? ==>
      (Pending(rest + [next], view) <==>
       next.name != "" && Pending(rest, view[next.ctes := view[next.ctes] + {next.name}]))
  {
    var stack := rest + [next];
    assert stack[..|stack| - 1] == rest;
  }

  /** Tasks depend only on the tables they refer to. */
  lemma {:induction false} PendingFrame(stack: seq<Task>, v: map<Scope, set<string>>, w: map<Scope, set<string>>)
    requires Within(stack, v.Keys) && Within(stack, w.Keys)
    requires forall i :: 0 <= i < |stack| ==> v[stack[i].ctes] == w[stack[i].ctes]
    ensures Pending(stack, v) == Pending(stack, w)
    decreases |stack|
  {
    if stack != [] {
      var rest, next := stack[..|stack| - 1], stack[|stack| - 1];
      match next {
        case Visit(_, _) => PendingFrame(rest, v, w);
        case Bind(s, name) =>
          PendingFrame(rest, v[s := v[s] + {name}], w[s := w[s] + {name}]);
      }
    }
  }

  /** Pushing the fields of a message asks for exactly those fields first. */
  lemma {:induction false} PendingFields(rest: seq<Task>, fields: seq<Message>, s: Scope, view: map<Scope, set<string>>)
    requires Within(rest, view.Keys) && s in view
    ensures Within(rest + FieldTasks(fields, s), view.Keys)
    ensures Pending(rest + FieldTasks(fields, s), view)
        <==> (forall i :: 0 <= i < |fields| ==> Acceptable(fields[i], view[s])) && Pending(rest, view)
    decreases |fields|
  {
    var stack := rest + FieldTasks(fields, s);
    if fields == [] {
      assert stack == rest;
    } else {
      var front := fields[..|fields| - 1];
      assert stack[..|stack| - 1] == rest + FieldTasks(front, s);
      PendingFields(rest, front, s, view);
      assert stack[|stack| - 1] == Visit(s, fields[|fields| - 1]);
      assert forall i :: 0 <= i < |front| ==> front[i] == fields[i];
    }
  }

  /** Entry i, checked against the base names and the entries before it. */
  ghost predicate EntryAcceptable(list: seq<CteItem>, i: nat, base: set<string>)
    requires i < |list| && list[i].Cte?
  {
    list[i].name != "" && Acceptable(list[i].body, base + Names(list, i))
  }

  ghost predicate EntriesAcceptable(list: seq<CteItem>, k: nat, base: set<string>)
    requires k <= |list| && forall i :: 0 <= i < |list| ==> list[i].Cte?
  {
    forall i :: k <= i < |list| ==> EntryAcceptable(list, i, base)
  }

  /** Pushing the visits and binds of a WITH list checks entry i with the names
      before it and leaves all names bound for the tasks below. */
  lemma {:induction false} PendingCtes(rest: seq<Task>, list: seq<CteItem>, k: nat, s: Scope,
                                       base: set<string>, view: map<Scope, set<string>>)
    requires k <= |list| && forall i :: 0 <= i < |list| ==> list[i].Cte?
    requires Within(rest, view.Keys) && s in view && view[s] == base + Names(list, k)
    ensures Within(rest + CteTasks(list, k, s), view.Keys)
    ensures Pending(rest + CteTasks(list, k, s), view)
        <==> EntriesAcceptable(list, k, base) && Pending(rest, view[s := base + Names(list, |list|)])
    decreases |list| - k
  {
    var stack := rest + CteTasks(list, k, s);
    if k == |list| {
      assert stack == rest;
      assert view[s := base + Names(list, |list|)] == view;
    } else {
      var below := rest + CteTasks(list, k + 1, s);
      var bind, visit := Bind(s, list[k].name), Visit(s, list[k].body);
      var bound := view[s := view[s] + {list[k].name}];
      assert bound[s] == base + Names(list, k + 1) by {
        assert Names(list, k + 1) == Names(list, k) + {list[k].name};
      }
      PendingCtes(rest, list, k + 1, s, base, bound);
      assert bound[s := base + Names(list, |list|)] == view[s := base + Names(list, |list|)];
      PendingTop(below, bind, view);
      PendingTop(below + [bind], visit, view);
      assert stack == below + [bind] + [visit] by {
        assert CteTasks(list, k, s) == CteTasks(list, k + 1, s) + [bind, visit];
      }
      assert EntriesAcceptable(list, k, base) <==> EntryAcceptable(list, k, base) && EntriesAcceptable(list, k + 1, base);
    }
  }

  // Termination: every task costs at least one.

  function Size(m: Message): nat {
    1 + SizeAll(m.fields) + match m.kind {
      case Select(_, _, With(_, ctes)) => SizeCtes(ctes)
      case _ => 0
    }
  }

  function SizeAll(ms: seq<Message>): nat {
    if ms == [] then 0 else Size(ms[|ms| - 1]) + SizeAll(ms[..|ms| - 1])
  }

  function SizeCtes(ctes: seq<CteItem>): nat {
    if ctes == [] then 0
    else SizeCtes(ctes[1..]) + match ctes[0] { case NotCte => 0 case Cte(_, _, body) => 1 + Size(body) }
  }

  function Work(stack: seq<Task>): nat {
    if stack == [] then 0
    else Work(stack[..|stack| - 1]) + match stack[|stack| - 1] { case Visit(_, m) => Size(m) case Bind(_, _) => 1 }
  }

  lemma {:induction false} WorkConcat(a: seq<Task>, b: seq<Task>)
    ensures Work(a + b) == Work(a) + Work(b)
    decreases |b|
  {
    if b == [] {
      assert a + b == a;
    } else {
      assert (a + b)[..|a + b| - 1] == a + b[..|b| - 1];
      WorkConcat(a, b[..|b| - 1]);
    }
  }

  lemma {:induction false} WorkFields(fields: seq<Message>, s: Scope)
    ensures Work(FieldTasks(fields, s)) == SizeAll(fields)
    decreases |fields|
  {
    if fields != [] {
      var front := fields[..|fields| - 1];
      assert FieldTasks(fields, s)[..|fields| - 1] == FieldTasks(front, s);
      WorkFields(front, s);
    }
  }

  lemma {:induction false} WorkCtes(list: seq<CteItem>, k: nat, s: Scope)
    requires k <= |list| && forall i :: 0 <= i < |list| ==> list[i].Cte?
    ensures Work(CteTasks(list, k, s)) == SizeCtes(list[k..])
    decreases |list| - k
  {
    if k < |list| {
      var tail := CteTasks(list, k + 1, s);
      var two := [Bind(s, list[k].name), Visit(s, list[k].body)];
      WorkCtes(list, k + 1, s);
      WorkConcat(tail, two);
      assert two[..1] == [Bind(s, list[k].name)] && two[..1][..0] == [];
      assert list[k..][1..] == list[k + 1..];
      assert Work(two) == Size(list[k].body) + Work(two[..1]);
    }
  }

  /** Visiting a message leaves less work than the visit itself was worth. */
  lemma WorkVisit(rest: seq<Task>, m: Message, w: With, s: Scope, ctes: Scope)
    requires w.With? ==> forall i :: 0 <= i < |w.ctes| ==> w.ctes[i].Cte?
    requires w == if m.kind.Select? then m.kind.with else NoWith
    ensures Work(Pushed(rest, m.fields, w, ctes)) < Work(rest + [Visit(s, m)])
  {
    WorkConcat(rest, [Visit(s, m)]);
    assert [Visit(s, m)][..0] == [];
    WorkConcat(rest, FieldTasks(m.fields, ctes));
    WorkFields(m.fields, ctes);
    var list := if w.With? then CteTasks(w.ctes, 0, ctes) else [];
    WorkConcat(rest + FieldTasks(m.fields, ctes), list);
    if w.With? {
      WorkCtes(w.ctes, 0, ctes);
      assert w.ctes[0..] == w.ctes;
    }
  }

  // ---------------------------------------------------------------------
  // The walk
  // ---------------------------------------------------------------------

  /** Opens the scope of a SELECT: a private copy of the visible names, plus all
      CTE names at once under WITH RECURSIVE. */
  method OpenScope(ctes: Scope, w: With) returns (error: Verdict, local: Scope)
    ensures fresh(local)
    ensures error == Accept <==> w.NoWith? || forall i :: 0 <= i < |w.ctes| ==> w.ctes[i].Cte? && w.ctes[i].queryIsSelect
    ensures error == Accept ==>
      local.names == ctes.names + RecursiveNames(w)
  {
    local := new Scope(ctes.names);
    if w.NoWith? {
      return Accept, local;
    }
    if w.recursive {
      for i := 0 to |w.ctes|
        invariant fresh(local) && local.names == ctes.names + Names(w.ctes, i)
        invariant forall j :: 0 <= j < i ==> w.ctes[j].Cte?
      {
        if w.ctes[i].NotCte? {
          return InvalidSql, local;
        }
        assert Names(w.ctes, i + 1) == Names(w.ctes, i) + {w.ctes[i].name};
        local.names := local.names + {w.ctes[i].name};
      }
    }
    for i := 0 to |w.ctes|
      invariant forall j :: 0 <= j < i ==> w.ctes[j].Cte? && w.ctes[j].queryIsSelect
    {
      if w.ctes[i].NotCte? || !w.ctes[i].queryIsSelect {
        return NotReadOnly, local;
      }
    }
    return Accept, local;
  }

  /** One visit of a SELECT without WITH, seen from the abstract side. */
  lemma PlainSelectStep(rest: seq<Task>, m: Message, s: Scope, local: Scope, view: map<Scope, set<string>>)
    requires Within(rest, view.Keys) && s in view && local !in view
    requires !m.unknown && m.kind == Select(false, false, NoWith)
    ensures
      var extended := view[local := view[s]];
      var pushed := Pushed(rest, m.fields, NoWith, local);
      Within(pushed, extended.Keys) && (Pending(pushed, extended) <==> Acceptable(m, view[s]) && Pending(rest, view))
  {
    var extended := view[local := view[s]];
    PendingFields(rest, m.fields, local, extended);
    PendingFrame(rest, extended, view);
    assert Pushed(rest, m.fields, NoWith, local) == rest + FieldTasks(m.fields, local);
  }

  /** The entries of a WITH list, checked against the table they are visited with,
      are checked against exactly the names each of them may see. */
  lemma EntriesSee(w: With, scope: set<string>)
    requires w.With? && forall i :: 0 <= i < |w.ctes| ==> w.ctes[i].Cte?
    ensures
      var base := scope + RecursiveNames(w);
      && base + Names(w.ctes, |w.ctes|) == Inside(w, scope)
      && forall i :: 0 <= i < |w.ctes| ==> base + Names(w.ctes, i) == scope + VisibleTo(w, i)
  {
    forall i | 0 <= i < |w.ctes|
      ensures scope + RecursiveNames(w) + Names(w.ctes, i) == scope + VisibleTo(w, i)
    {
      assert Names(w.ctes, i) <= Names(w.ctes, |w.ctes|);
    }
  }

  /** One visit of a SELECT with a WITH clause: pushing its fields and its WITH
      list under a fresh table decides the SELECT and nothing else. */
  lemma WithSelectStep(rest: seq<Task>, m: Message, w: With, s: Scope, local: Scope, view: map<Scope, set<string>>)
    requires Within(rest, view.Keys) && s in view && local !in view
    requires !m.unknown && m.kind == Select(false, false, w)
    requires w.With? && forall i :: 0 <= i < |w.ctes| ==> w.ctes[i].Cte? && w.ctes[i].queryIsSelect
    ensures
      var extended := view[local := view[s] + RecursiveNames(w)];
      var pushed := Pushed(rest, m.fields, w, local);
      Within(pushed, extended.Keys) && (Pending(pushed, extended) <==> Acceptable(m, view[s]) && Pending(rest, view))
  {
    var base := view[s] + RecursiveNames(w);
    var extended := view[local := base];
    var fields := rest + FieldTasks(m.fields, local);
    var done := view[local := Inside(w, view[s])];
    EntriesSee(w, view[s]);
    PendingFields(rest, m.fields, local, done);
    PendingFrame(rest, done, view);
    assert Pending(fields, done) <==> FieldsAcceptable(m, Inside(w, view[s])) && Pending(rest, view);
    PendingFields(rest, m.fields, local, extended);
    assert base + Names(w.ctes, 0) == base;
    PendingCtes(fields, w.ctes, 0, local, base, extended);
    assert extended[local := base + Names(w.ctes, |w.ctes|)] == done;
    assert forall i :: 0 <= i < |w.ctes| ==>
      (EntryAcceptable(w.ctes, i, base) <==> w.ctes[i].name != "" && Acceptable(w.ctes[i].body, view[s] + VisibleTo(w, i)));
  }

  /** Pushes the fields of a message, then its CTEs in reverse, so that the first
      CTE is visited first and the main part last. */
  method Push(rest: seq<Task>, fields: seq<Message>, w: With, ctes: Scope) returns (stack: seq<Task>)
    requires w.With? ==> forall i :: 0 <= i < |w.ctes| ==> w.ctes[i].Cte?
    ensures stack == Pushed(rest, fields, w, ctes)
  {
    stack := rest;
    for i := 0 to |fields|
      invariant stack == rest + FieldTasks(fields[..i], ctes)
    {
      assert FieldTasks(fields[..i + 1], ctes) == FieldTasks(fields[..i], ctes) + [Visit(ctes, fields[i])];
      stack := stack + [Visit(ctes, fields[i])];
    }
    assert fields[..|fields|] == fields;
    if w.With? {
      for i := |w.ctes| downto 0
        invariant stack == rest + FieldTasks(fields, ctes) + CteTasks(w.ctes, i, ctes)
      {
        stack := stack + [Bind(ctes, w.ctes[i].name), Visit(ctes, w.ctes[i].body)];
      }
    }
  }

  /** Visits a SELECT: an error is final; otherwise the pushed tasks ask for
      exactly what the SELECT needs. */
  method EnterSelect(ghost rest: seq<Task>, m: Message, ctes: Scope, ghost scopes: set<Scope>)
    returns (error: Verdict, local: Scope)
    requires m.kind.Select? && !m.unknown && ctes in scopes && Within(rest, scopes)
    ensures error != Accept ==> !Acceptable(m, ctes.names)
    ensures error == Accept ==>
      var w := m.kind.with;
      && fresh(local)
      && (w.With? ==> forall i :: 0 <= i < |w.ctes| ==> w.ctes[i].Cte?)
      && var pushed := Pushed(rest, m.fields, w, local);
      && Within(pushed, scopes + {local})
      && (Pending(pushed, View(scopes + {local})) <==> Acceptable(m, ctes.names) && Pending(rest, View(scopes)))
  {
    if m.kind.into || m.kind.locking {
      return NotReadOnly, ctes;
    }
    ghost var view := View(scopes);
    var w := m.kind.with;
    error, local := OpenScope(ctes, w);
    if error == Accept {
      if w.With? {
        WithSelectStep(rest, m, w, ctes, local, view);
      } else {
        PlainSelectStep(rest, m, ctes, local, view);
        assert ctes.names + RecursiveNames(w) == ctes.names;
      }
      assert View(scopes + {local}) == view[local := view[ctes] + RecursiveNames(w)];
    }
  }

  method CheckTree(root: Message) returns (verdict: Verdict)
    ensures verdict == Accept <==> Acceptable(root, {})
  {
    var top := new Scope({});
    ghost var scopes := {top};
    var stack := [Visit(top, root)];
    assert stack[..0] == [];
    while stack != []
      invariant fresh(scopes) && Within(stack, scopes)
      invariant Pending(stack, View(scopes)) <==> Acceptable(root, {})
      decreases Work(stack)
    {
      var next, rest := stack[|stack| - 1], stack[..|stack| - 1];
      ghost var view := View(scopes);
      assert stack == rest + [next];
      PendingTop(rest, next, view);
      stack := rest;
      if next.Bind? {
        if next.name == "" {
          return Crash;  // the walk dereferences the nil message of the task
        }
        next.ctes.names := next.ctes.names + {next.name};
        assert View(scopes) == view[next.ctes := view[next.ctes] + {next.name}];
        continue;
      }
      var m, ctes := next.message, next.ctes;
      if m.unknown {
        return InvalidSql;
      }
      if m.kind.Node? && m.kind.dml {
        return NotReadOnly;
      }
      var w := NoWith;
      if m.kind.Select? {
        w := m.kind.with;
        var error;
        error, ctes := EnterSelect(rest, m, next.ctes, scopes);
        if error != Accept {
          return error;
        }
        scopes := scopes + {ctes};
      }
      if m.kind.RangeVar? {
        if m.kind.schema == "" && m.kind.relation !in ctes.names {
          return Unqualified;
        }
        assert View(scopes) == view;
        continue;
      }
      stack := Push(rest, m.fields, w, ctes);
      WorkVisit(rest, m, w, next.ctes, ctes);
      if !m.kind.Select? {
        assert View(scopes) == view;
        PendingFields(rest, m.fields, ctes, view);
        assert stack == rest + FieldTasks(m.fields, ctes);
      }
    }
    return Accept;
  }

  /** The whole check of one query text, from the parser's answer on: exactly one statement, a
      SELECT, a SHOW or an EXPLAIN of a SELECT, over an acceptable tree. */
  method Check(validText: bool, parse: Parse) returns (verdict: Verdict)
    ensures verdict == Accept <==>
      && validText && parse.Parsed? && |parse.stmts| == 1
      && (parse.stmts[0].SelectStmt? || parse.stmts[0].ShowStmt? || parse.stmts[0] == ExplainStmt(SelectStmt))
      && Acceptable(parse.tree, {})
  {
    if !validText || parse.ParseError? {
      return InvalidSql;
    }
    if |parse.stmts| != 1 {
      return NotReadOnly;
    }
    var statement := parse.stmts[0];
    if statement.ExplainStmt? {
      statement := statement.query;
      if !statement.SelectStmt? {
        return NotReadOnly;
      }
    }
    if !statement.SelectStmt? && !statement.ShowStmt? {
      return NotReadOnly;
    }
    verdict := CheckTree(parse.tree);
  }
}
