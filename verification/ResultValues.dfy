/**
 What decoded values are: a domain's value is its base's, an array's is its elements in
 order within a bound set by the text, and every value is of the encoding that the column
 announced.
 */
module ResultValues {
  import opened ResultTypes

  // ---------------------------------------------------------------------
  // Domains and refusals
  // ---------------------------------------------------------------------

  /** A domain decodes as its base type does. */
  lemma DomainIsBase(types: Types, c: Codecs, oid: nat, raw: Option<string>)
    requires Lawful(c) && Resolves(types, oid) && oid in types && types[oid].base != 0
    ensures Resolves(types, types[oid].base)
    ensures Meaning(types, c, oid, raw) == Meaning(types, c, types[oid].base, raw)
  {
    Shorter(types, oid);
  }

  /** A null is a null of any type; a text decodes only if it is valid and its type's chain
      of links ends. */
  lemma RefusedTexts(types: Types, c: Codecs, oid: nat, raw: Option<string>)
    requires Lawful(c)
    ensures raw.None? ==> Meaning(types, c, oid, raw) == Some(Null)
    ensures raw.Some? && Meaning(types, c, oid, raw).Some? ==> c.valid(raw.value) && Resolves(types, oid)
  {}

  /** A type that is not linked any further decodes by its own decoder, or keeps its text. */
  lemma LeafMeans(types: Types, c: Codecs, oid: nat, raw: string)
    requires Lawful(c) && IsLeaf(types, oid) && c.valid(raw)
    ensures Meaning(types, c, oid, Some(raw)) ==
      if oid !in SCALARS then Some(Words(raw))
      else if c.scalar(oid, raw).None? then None
      else Some(Bare(oid, c.scalar(oid, raw).value))
  {
    assert EndsAt(types, oid, 0);
  }

  // ---------------------------------------------------------------------
  // Arrays
  // ---------------------------------------------------------------------

  lemma {:induction false} EachElement(types: Types, c: Codecs, oid: nat, raws: seq<Option<string>>)
    requires Lawful(c)
    ensures MeaningAll(types, c, oid, raws).Some? <==> forall i :: 0 <= i < |raws| ==> Meaning(types, c, oid, raws[i]).Some?
    ensures MeaningAll(types, c, oid, raws).Some? ==>
      forall i :: 0 <= i < |raws| ==> Meaning(types, c, oid, raws[i]) == Some(MeaningAll(types, c, oid, raws).value[i])
    decreases |raws|
  {
    hide Meaning, Lawful;
    if raws != [] {
      var front := raws[..|raws| - 1];
      EachElement(types, c, oid, front);
      assert forall i :: 0 <= i < |front| ==> front[i] == raws[i];
    }
  }

  /** The product taken from the left is the size taken from the right. */
  lemma {:induction false} ProductIsSize(dims: seq<int>)
    ensures Product(dims) == Size(dims)
    decreases |dims|
  {
    if dims != [] {
      ProductIsSize(dims[1..]);
      ProductFront(dims[0], dims[1..]);
      assert dims == [dims[0]] + dims[1..];
    }
  }

  lemma {:induction false} ProductFront(x: int, rest: seq<int>)
    ensures Product([x] + rest) == Times(x, Product(rest))
    decreases |rest|
  {
    var all := [x] + rest;
    if rest == [] {
      assert all[..|all| - 1] == [] && all[|all| - 1] == x;
      assert Product([]) == 1;
    } else {
      var front, last := rest[..|rest| - 1], rest[|rest| - 1];
      assert all[..|all| - 1] == [x] + front && all[|all| - 1] == last;
      ProductFront(x, front);
      Associates(x, Product(front), last);
    }
  }

  lemma Associates(a: int, b: int, c: int)
    ensures Times(a, b) * c == Times(a, b * c)
  {}

  /** Dimensions that are accepted ask for at most as many elements as the limit. */
  lemma BoundedSize(dims: seq<int>, limit: int)
    requires Bounded(dims, limit)
    ensures Nonnegative(dims) && 0 <= Size(dims) <= limit
  {
    ProductIsSize(dims);
    assert dims[..|dims|] == dims;
  }

  /** An array type, its links ending, over a text that is valid: what its text is parsed as. */
  predicate ArrayText(types: Types, c: Codecs, oid: nat, raw: string, p: Parsed) {
    && oid in types && types[oid].base == 0 && types[oid].element != 0 && types[oid].element in types
    && c.valid(raw) && c.parse(types[types[oid].element].delimiter, raw) == Some(p)
  }

  /** An array without dimensions is empty. Any other decodes exactly when its dimensions are
      accepted and all its elements decode; the result holds what the elements mean in row-major
      order, as many rows as the first dimension says, and never more elements than the text
      has characters, and one. */
  lemma ArrayMeans(types: Types, c: Codecs, oid: nat, raw: string, p: Parsed)
    requires Lawful(c) && Resolves(types, oid) && ArrayText(types, c, oid, raw, p)
    ensures var v, element := Meaning(types, c, oid, Some(raw)), types[oid].element;
      if p.dims == [] then v == Some(List([]))
      else
        && (v.Some? <==>
              Bounded(p.dims, |raw| + 1) && forall i :: 0 <= i < |p.elements| ==> Meaning(types, c, element, p.elements[i]).Some?)
        && (v.Some? ==>
              && v.value.List? && |v.value.items| == p.dims[0] && |p.elements| <= |raw| + 1 && |p.dims| <= 6
              && var leaves := Flatten(v.value.items, |p.dims|);
                |leaves| == |p.elements| && forall i :: 0 <= i < |leaves| ==> Meaning(types, c, element, p.elements[i]) == Some(leaves[i]))
  {
    var element := types[oid].element;
    if p.dims == [] {
      return;
    }
    ArrayUnfolds(types, c, oid, raw, p);
    EachElement(types, c, element, p.elements);
    hide Meaning, MeaningAll, Lawful, Flatten, Shape;
    if Bounded(p.dims, |raw| + 1) {
      BoundedSize(p.dims, |raw| + 1);
      ParsedSize(types, c, oid, raw, p);
      var all := MeaningAll(types, c, element, p.elements);
      if all.Some? {
        ShapeKeepsOrder(p.dims, all.value);
      }
    }
  }

  lemma ParsedSize(types: Types, c: Codecs, oid: nat, raw: string, p: Parsed)
    requires Lawful(c) && ArrayText(types, c, oid, raw, p) && p.dims != [] && Nonnegative(p.dims)
    ensures |p.elements| == Size(p.dims)
  {
    assert LawfulArray(c.parse(types[types[oid].element].delimiter, raw).value);
  }

  lemma ArrayUnfolds(types: Types, c: Codecs, oid: nat, raw: string, p: Parsed)
    requires Lawful(c) && Resolves(types, oid) && ArrayText(types, c, oid, raw, p) && p.dims != []
    ensures var all := MeaningAll(types, c, types[oid].element, p.elements);
      Meaning(types, c, oid, Some(raw)) ==
        if !Bounded(p.dims, |raw| + 1) || all.None? then None else Some(List(Shape(p.dims, all.value)))
  {
    hide MeaningAll;
  }

  // ---------------------------------------------------------------------
  // The announced encoding
  // ---------------------------------------------------------------------

  /** Every scalar inside is of this leaf type, decoded or kept as text as the type asks. */
  predicate Of(v: Value, leaf: nat) {
    match v
    case Null => true
    case Bare(oid, _) => oid == leaf && leaf in SCALARS
    case Words(_) => leaf !in SCALARS
    case List(items) => forall i :: 0 <= i < |items| ==> Of(items[i], leaf)
  }

  predicate AllOf(values: seq<Value>, leaf: nat) {
    forall i :: 0 <= i < |values| ==> Of(values[i], leaf)
  }

  lemma {:induction false} ShapeOfLeaf(dims: seq<int>, leaves: seq<Value>, leaf: nat)
    requires AllOf(leaves, leaf)
    ensures AllOf(Shape(dims, leaves), leaf)
    decreases |dims|, 0, 0
  {
    if |dims| > 1 {
      RowsOfLeaf(dims[0], dims[1..], leaves, leaf);
    }
  }

  lemma {:induction false} RowsOfLeaf(n: int, dims: seq<int>, leaves: seq<Value>, leaf: nat)
    requires AllOf(leaves, leaf)
    ensures AllOf(Rows(n, dims, leaves), leaf)
    decreases |dims|, 1, n
  {
    if n > 0 && 0 <= Size(dims) <= |leaves| {
      var cut := |leaves| - Size(dims);
      RowsOfLeaf(n - 1, dims, leaves[..cut], leaf);
      ShapeOfLeaf(dims, leaves[cut..], leaf);
    }
  }

  /** The leaf that a chain ends in. */
  ghost function Leaf(types: Types, oid: nat): nat
    requires Resolves(types, oid)
  {
    At(types, oid, Length(types, oid)).value
  }

  lemma SameLeaf(types: Types, oid: nat)
    requires Resolves(types, oid) && Next(types, oid).Some?
    ensures Resolves(types, Next(types, oid).value) && Leaf(types, Next(types, oid).value) == Leaf(types, oid)
  {
    Shorter(types, oid);
    AtStep(types, oid, Length(types, Next(types, oid).value));
  }

  lemma {:induction false} UnwrappedLeaf(types: Types, oid: nat)
    requires Resolves(types, oid)
    ensures Leaf(types, Unwrapped(types, oid)) == Leaf(types, oid)
    decreases Length(types, oid)
  {
    InMap(types, oid);
    if types[oid].base != 0 {
      Shorter(types, oid);
      SameLeaf(types, oid);
      UnwrappedLeaf(types, types[oid].base);
    }
  }

  lemma LeafItself(types: Types, oid: nat)
    requires IsLeaf(types, oid)
    ensures Resolves(types, oid) && Leaf(types, oid) == oid
  {
    assert EndsAt(types, oid, 0);
    EndsOnce(types, oid, 0, Length(types, oid));
  }

  /** Every scalar in a decoded value, at any depth, is of the type that its column's chain
      ends in: decoded if the column announced a plain or binary encoding, and the server's
      own text if it announced that. */
  lemma {:induction false} AsAnnounced(types: Types, c: Codecs, oid: nat, raw: string)
    requires Lawful(c) && Meaning(types, c, oid, Some(raw)).Some?
    ensures Resolves(types, oid) && Of(Meaning(types, c, oid, Some(raw)).value, Leaf(types, oid))
    ensures EncodingOf(Leaf(types, oid)) ==
      if Leaf(types, oid) == 17 then Base64 else if Leaf(types, oid) in SCALARS then Plain else PostgresText
    decreases Length(types, oid), 0, 0
  {
    var u := Unwrapped(types, oid);
    UnwrappedLeaf(types, oid);
    var element := types[u].element;
    if element == 0 {
      LeafItself(types, u);
    } else {
      Shorter(types, u);
      SameLeaf(types, u);
      InMap(types, element);
      var p := c.parse(types[element].delimiter, raw).value;
      if p.dims != [] {
        ElementsAsAnnounced(types, c, element, p.elements);
        ShapeOfLeaf(p.dims, MeaningAll(types, c, element, p.elements).value, Leaf(types, element));
      }
    }
  }

  lemma {:induction false} ElementsAsAnnounced(types: Types, c: Codecs, oid: nat, raws: seq<Option<string>>)
    requires Lawful(c) && Resolves(types, oid) && MeaningAll(types, c, oid, raws).Some?
    ensures AllOf(MeaningAll(types, c, oid, raws).value, Leaf(types, oid))
    decreases Length(types, oid), 1, |raws|
  {
    hide Meaning, Lawful;
    if raws != [] {
      var last := raws[|raws| - 1];
      ElementsAsAnnounced(types, c, oid, raws[..|raws| - 1]);
      if last.Some? {
        AsAnnounced(types, c, oid, last.value);
      } else {
        RefusedTexts(types, c, oid, last);
      }
    }
  }
}
