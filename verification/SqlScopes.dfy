/**
 A second reading of the query guard's scoping, by free names instead of scopes passed
 down: a tree is acceptable when it is clean and every name it leaves free is in scope.
 */
module SqlScopes {
  import opened SqlGuard

  /** Nothing anywhere in the tree writes, locks or is unknown, and every WITH list holds
      named CTEs over SELECTs. */
  ghost predicate Clean(m: Message)
    decreases m
  {
    && !m.unknown
    && match m.kind {
      case Node(dml) => !dml && forall i :: 0 <= i < |m.fields| ==> Clean(m.fields[i])
      case Other => forall i :: 0 <= i < |m.fields| ==> Clean(m.fields[i])
      case RangeVar(_, _) => true
      case Select(into, locking, w) =>
        && !into && !locking
        && (w.With? ==>
              forall i :: 0 <= i < |w.ctes| ==>
                w.ctes[i].Cte? && w.ctes[i].queryIsSelect && w.ctes[i].name != "" && Clean(w.ctes[i].body))
        && forall i :: 0 <= i < |m.fields| ==> Clean(m.fields[i])
    }
  }

  /** An entry of the list binds the name for what comes before `below`. */
  predicate BoundIn(w: With, below: nat, name: string)
    requires w.With?
  {
    exists k :: 0 <= k < |w.ctes| && k < below && w.ctes[k].Cte? && w.ctes[k].name == name
  }

  /** The unqualified names that the tree leaves free. A CTE's body has the earlier CTEs of its
      list bound, or all of them, itself included, under RECURSIVE; the rest of the SELECT has
      all of them bound, and nothing outside the SELECT has any. */
  ghost predicate Free(m: Message, name: string)
    decreases m
  {
    match m.kind {
      case Node(_) => exists i :: 0 <= i < |m.fields| && Free(m.fields[i], name)
      case Other => exists i :: 0 <= i < |m.fields| && Free(m.fields[i], name)
      case RangeVar(schema, relation) => schema == "" && relation == name
      case Select(_, _, w) =>
        || ((w.With? ==> !BoundIn(w, |w.ctes|, name)) && exists i :: 0 <= i < |m.fields| && Free(m.fields[i], name))
        || (w.With? &&
            exists i ::
              0 <= i < |w.ctes| && w.ctes[i].Cte? && Free(w.ctes[i].body, name)
              && !BoundIn(w, if w.recursive then |w.ctes| else i, name))
    }
  }

  ghost predicate Within(m: Message, scope: set<string>) {
    forall name :: Free(m, name) ==> name in scope
  }

  lemma BoundNames(w: With, below: nat, name: string)
    requires w.With? && below <= |w.ctes|
    ensures BoundIn(w, below, name) <==> name in Names(w.ctes, below)
  {}

  lemma {:induction false} FieldsByFreeNames(m: Message, scope: set<string>)
    ensures FieldsAcceptable(m, scope) <==>
      forall i :: 0 <= i < |m.fields| ==> Clean(m.fields[i]) && Within(m.fields[i], scope)
    decreases m, 0
  {
    hide Clean, Within, Acceptable;
    forall i | 0 <= i < |m.fields| ensures Acceptable(m.fields[i], scope) <==> Clean(m.fields[i]) && Within(m.fields[i], scope) {
      AcceptedByFreeNames(m.fields[i], scope);
    }
  }

  lemma {:induction false} BodiesByFreeNames(m: Message, w: With, scope: set<string>)
    requires m.kind.Select? && m.kind.with == w && w.With? && WellFormed(w.ctes)
    ensures forall i :: 0 <= i < |w.ctes| ==>
      (Acceptable(w.ctes[i].body, scope + VisibleTo(w, i)) <==>
       Clean(w.ctes[i].body) && Within(w.ctes[i].body, scope + VisibleTo(w, i)))
    decreases m, 0
  {
    hide Clean, Within, Acceptable, VisibleTo;
    forall i | 0 <= i < |w.ctes|
      ensures Acceptable(w.ctes[i].body, scope + VisibleTo(w, i)) <==>
        Clean(w.ctes[i].body) && Within(w.ctes[i].body, scope + VisibleTo(w, i))
    {
      AcceptedByFreeNames(w.ctes[i].body, scope + VisibleTo(w, i));
    }
  }

  lemma FieldPart(m: Message, w: With, i: nat, name: string)
    requires m.kind.Select? && m.kind.with == w && i < |m.fields| && Free(m.fields[i], name)
    ensures Free(m, name) || (w.With? && name in Names(w.ctes, |w.ctes|))
  {
    if w.With? {
      BoundNames(w, |w.ctes|, name);
    }
  }

  lemma BodyPart(m: Message, w: With, i: nat, name: string)
    requires m.kind.Select? && m.kind.with == w && w.With? && WellFormed(w.ctes) && i < |w.ctes| && Free(w.ctes[i].body, name)
    ensures Free(m, name) || name in VisibleTo(w, i)
  {
    BoundNames(w, if w.recursive then |w.ctes| else i, name);
  }

  lemma FreePart(m: Message, w: With, name: string) returns (field: bool, i: nat)
    requires m.kind.Select? && m.kind.with == w && Free(m, name)
    ensures field ==> i < |m.fields| && Free(m.fields[i], name) && (w.With? ==> name !in Names(w.ctes, |w.ctes|))
    ensures !field ==>
      w.With? && i < |w.ctes| && w.ctes[i].Cte? && Free(w.ctes[i].body, name) && name !in VisibleTo(w, i)
  {
    field := (w.With? ==> !BoundIn(w, |w.ctes|, name)) && exists i :: 0 <= i < |m.fields| && Free(m.fields[i], name);
    if field {
      i :| 0 <= i < |m.fields| && Free(m.fields[i], name);
      if w.With? {
        BoundNames(w, |w.ctes|, name);
      }
    } else {
      i :| 0 <= i < |w.ctes| && w.ctes[i].Cte? && Free(w.ctes[i].body, name) && !BoundIn(w, if w.recursive then |w.ctes| else i, name);
      BoundNames(w, if w.recursive then |w.ctes| else i, name);
    }
  }

  ghost predicate PartsWithin(m: Message, w: With, scope: set<string>) {
    && (forall i :: 0 <= i < |m.fields| ==> Within(m.fields[i], Inside(w, scope)))
    && (w.With? ==> forall i :: 0 <= i < |w.ctes| && w.ctes[i].Cte? ==> Within(w.ctes[i].body, scope + VisibleTo(w, i)))
  }

  /** What a SELECT leaves free is in scope exactly when each part's free names are, with the
      names it may see. */
  lemma SelectWithin(m: Message, w: With, scope: set<string>)
    requires m.kind.Select? && m.kind.with == w && (w.With? ==> WellFormed(w.ctes))
    ensures Within(m, scope) <==> PartsWithin(m, w, scope)
  {
    hide Free, VisibleTo, Names;
    if Within(m, scope) {
      forall i, name | 0 <= i < |m.fields| && Free(m.fields[i], name) ensures name in Inside(w, scope) {
        FieldPart(m, w, i, name);
      }
      if w.With? {
        forall i, name | 0 <= i < |w.ctes| && Free(w.ctes[i].body, name) ensures name in scope + VisibleTo(w, i) {
          BodyPart(m, w, i, name);
        }
      }
    }
    if PartsWithin(m, w, scope) {
      forall name | Free(m, name) ensures name in scope {
        var field, i := FreePart(m, w, name);
        if field {
          assert name in Inside(w, scope);
        } else {
          assert name in scope + VisibleTo(w, i);
        }
      }
    }
  }

  /** The guard accepts exactly the clean trees whose free names are all in scope; at the top
      nothing is, so there every unqualified relation is bound by some CTE. */
  lemma {:induction false} AcceptedByFreeNames(m: Message, scope: set<string>)
    ensures Acceptable(m, scope) <==> Clean(m) && Within(m, scope)
    decreases m, 1
  {
    FieldsByFreeNames(m, scope);
    match m.kind {
      case RangeVar(_, _) =>
      case Node(_) =>
      case Other =>
      case Select(_, _, w) =>
        FieldsByFreeNames(m, Inside(w, scope));
        if w.With? && WellFormed(w.ctes) {
          BodiesByFreeNames(m, w, scope);
        }
        if w.With? ==> WellFormed(w.ctes) {
          SelectWithin(m, w, scope);
        }
        hide Within, VisibleTo, Inside;
    }
  }
}
