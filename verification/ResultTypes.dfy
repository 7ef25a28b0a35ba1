/**
 Result types as the server describes them: links from domains to their base and from
 arrays to their element, possibly cyclic, and the decoding that follows the links.

 The text grammar of arrays and the scalar decoders are inputs.
 */
module ResultTypes {

  datatype Option<+T> = None | Some(value: T)

  /** A zero link is no link. */
  datatype Type = Type(base: nat, element: nat, delimiter: char)

  type Types = map<nat, Type>

  datatype Encoding = Plain | Base64 | PostgresText

  const BYTEA := 17
  const SCALARS: set<nat> := {
    16, 17, 20, 21, 23, 25, 114, 700, 701, 1042, 1043, 1082, 1083, 1114, 1184, 1700, 2950, 3802}

  // ---------------------------------------------------------------------
  // Chains of links
  // ---------------------------------------------------------------------

  /** The next type of a chain; nothing after a leaf or a missing type. */
  function Next(types: Types, oid: nat): Option<nat> {
    if oid !in types then None
    else if types[oid].base != 0 then Some(types[oid].base)
    else if types[oid].element != 0 then Some(types[oid].element)
    else None
  }

  function At(types: Types, oid: nat, n: nat): Option<nat> {
    if n == 0 then Some(oid)
    else if At(types, oid, n - 1).None? then None
    else Next(types, At(types, oid, n - 1).value)
  }

  predicate IsLeaf(types: Types, oid: nat) {
    oid in types && types[oid].base == 0 && types[oid].element == 0
  }

  /** The chain ends in a leaf after `n` links. */
  predicate EndsAt(types: Types, oid: nat, n: nat) {
    At(types, oid, n).Some? && IsLeaf(types, At(types, oid, n).value)
  }

  ghost predicate Resolves(types: Types, oid: nat) {
    exists n: nat :: EndsAt(types, oid, n)
  }

  function EncodingOf(leaf: nat): Encoding {
    if leaf == BYTEA then Base64 else if leaf in SCALARS then Plain else PostgresText
  }

  /** After the end there is nothing, so a chain ends in at most one place. */
  lemma {:induction false} NothingAfter(types: Types, oid: nat, n: nat, m: nat)
    requires EndsAt(types, oid, n) && n < m
    ensures At(types, oid, m).None?
  {
    if m > n + 1 {
      NothingAfter(types, oid, n, m - 1);
    }
  }

  lemma EndsOnce(types: Types, oid: nat, n: nat, m: nat)
    requires EndsAt(types, oid, n) && EndsAt(types, oid, m)
    ensures n == m
  {
    if n < m {
      NothingAfter(types, oid, n, m);
    } else if m < n {
      NothingAfter(types, oid, m, n);
    }
  }

  lemma {:induction false} AtStep(types: Types, oid: nat, n: nat)
    requires Next(types, oid).Some?
    ensures At(types, oid, n + 1) == At(types, Next(types, oid).value, n)
  {
    if n > 0 {
      AtStep(types, oid, n - 1);
    }
  }

  /** A chain that comes back to where it was goes round for ever. */
  lemma {:induction false} GoesRound(types: Types, oid: nat, i: nat, j: nat, n: nat)
    requires i < j && At(types, oid, i).Some? && At(types, oid, i) == At(types, oid, j)
    ensures !EndsAt(types, oid, n)
    decreases if n < j then 0 else n
  {
    if n < j {
      if EndsAt(types, oid, n) {
        NothingAfter(types, oid, n, j);
      }
    } else {
      Repeats(types, oid, i, j, n - j);
      if n - (j - i) < n {
        GoesRound(types, oid, i, j, n - (j - i));
      }
    }
  }

  lemma {:induction false} Repeats(types: Types, oid: nat, i: nat, j: nat, k: nat)
    requires i < j && At(types, oid, i) == At(types, oid, j)
    ensures At(types, oid, i + k) == At(types, oid, j + k)
  {
    if k > 0 {
      Repeats(types, oid, i, j, k - 1);
    }
  }

  lemma Broken(types: Types, oid: nat, i: nat, n: nat)
    requires At(types, oid, i).Some? && At(types, oid, i).value !in types
    ensures !EndsAt(types, oid, n)
  {
    if EndsAt(types, oid, n) {
      if n < i {
        NothingAfter(types, oid, n, i);
      } else if n > i {
        BrokenAfter(types, oid, i, n);
      }
    }
  }

  lemma {:induction false} BrokenAfter(types: Types, oid: nat, i: nat, n: nat)
    requires At(types, oid, i).Some? && At(types, oid, i).value !in types && i < n
    ensures At(types, oid, n).None?
  {
    if n > i + 1 {
      BrokenAfter(types, oid, i, n - 1);
    }
  }

  /** Follows the links until a leaf, a missing type or a type seen before. It ends on
      every map, and succeeds exactly when the chain ends in a leaf. */
  method Representation(types: Types, start: nat) returns (r: Option<Encoding>)
    ensures r.Some? <==> Resolves(types, start)
    ensures r.Some? ==> exists n: nat :: EndsAt(types, start, n) && r.value == EncodingOf(At(types, start, n).value)
  {
    hide EncodingOf, Resolves, Trail, At, EndsAt;
    var oid: nat, seen: set<nat> := start, {};
    ghost var trail: seq<nat> := [];
    TrailStarts(types, start);
    while oid !in seen
      invariant Trail(types, start, trail, oid)
      invariant forall x :: x in seen <==> x in trail
      invariant seen <= types.Keys
      decreases |types.Keys - seen|
    {
      ghost var left := types.Keys - seen;
      if oid !in types {
        TrailBroken(types, start, trail, oid);
        return None;
      }
      var t := types[oid];
      if t.base == 0 && t.element == 0 {
        TrailEnds(types, start, trail, oid);
        return Some(EncodingOf(oid));
      }
      TrailGrows(types, start, trail, oid);
      seen, trail := seen + {oid}, trail + [oid];
      assert types.Keys - seen == left - {oid};
      oid := if t.base != 0 then t.base else t.element;
    }
    TrailCycles(types, start, trail, oid);
    r := None;
  }

  /** The types met so far, in order, and the one reached. */
  predicate Trail(types: Types, start: nat, trail: seq<nat>, oid: nat) {
    && At(types, start, |trail|) == Some(oid)
    && forall k :: 0 <= k < |trail| ==> At(types, start, k) == Some(trail[k])
  }

  lemma TrailStarts(types: Types, start: nat)
    ensures Trail(types, start, [], start)
  {}

  lemma TrailGrows(types: Types, start: nat, trail: seq<nat>, oid: nat)
    requires Trail(types, start, trail, oid) && Next(types, oid).Some?
    ensures Trail(types, start, trail + [oid], Next(types, oid).value)
  {}

  lemma TrailEnds(types: Types, start: nat, trail: seq<nat>, oid: nat)
    requires Trail(types, start, trail, oid) && IsLeaf(types, oid)
    ensures EndsAt(types, start, |trail|) && At(types, start, |trail|) == Some(oid) && Resolves(types, start)
  {
    assert EndsAt(types, start, |trail|);
  }

  lemma TrailBroken(types: Types, start: nat, trail: seq<nat>, oid: nat)
    requires Trail(types, start, trail, oid) && oid !in types
    ensures !Resolves(types, start)
  {
    forall k: nat ensures !EndsAt(types, start, k) {
      Broken(types, start, |trail|, k);
    }
  }

  lemma TrailCycles(types: Types, start: nat, trail: seq<nat>, oid: nat)
    requires Trail(types, start, trail, oid) && oid in trail
    ensures !Resolves(types, start)
  {
    var i :| 0 <= i < |trail| && trail[i] == oid;
    forall k: nat ensures !EndsAt(types, start, k) {
      GoesRound(types, start, i, |trail|, k);
    }
  }

  // ---------------------------------------------------------------------
  // Array dimensions
  // ---------------------------------------------------------------------

  function Product(dims: seq<int>): int {
    if dims == [] then 1 else Product(dims[..|dims| - 1]) * dims[|dims| - 1]
  }

  const MAX_DIMENSIONS := 6

  /** The dimensions are few, none is negative, and no leading product passes the limit. */
  predicate Bounded(dims: seq<int>, limit: int) {
    && |dims| <= MAX_DIMENSIONS
    && (forall i :: 0 <= i < |dims| ==> 0 <= dims[i] <= limit)
    && (forall k :: 0 <= k <= |dims| ==> 0 <= Product(dims[..k]) <= limit)
  }

  /** The test of one length is a division, so that the product of two 32-bit
      lengths is never formed before it is known to fit. */
  lemma DivisionTest(n: int, length: int, limit: int)
    requires 0 <= n && 0 < length && 0 <= limit
    ensures n > limit / length <==> n * length > limit
  {
    if n > limit / length {
      assert n * length >= (limit / length + 1) * length > limit;
    } else {
      assert n * length <= (limit / length) * length <= limit;
    }
  }

  method SetDimensions(dims: seq<int>, limit: int) returns (ok: bool)
    requires limit >= 1
    ensures ok <==> Bounded(dims, limit)
  {
    if |dims| > MAX_DIMENSIONS {
      return false;
    }
    var n := 1;
    for i := 0 to |dims|
      invariant n == Product(dims[..i])
      invariant forall j :: 0 <= j < i ==> 0 <= dims[j] <= limit
      invariant forall k :: 0 <= k <= i ==> 0 <= Product(dims[..k]) <= limit
    {
      assert dims[..i + 1][..i] == dims[..i];
      if dims[i] < 0 || dims[i] > limit {
        return false;
      }
      if dims[i] != 0 {
        DivisionTest(n, dims[i], limit);
        if n > limit / dims[i] {
          return false;
        }
        assert 0 <= n * dims[i] by {
          Multiplied(n, dims[i]);
        }
      }
      n := n * dims[i];
    }
    ok := true;
  }

  lemma Multiplied(a: int, b: int)
    requires a >= 0 && b >= 0
    ensures a * b >= 0
  {}

  // ---------------------------------------------------------------------
  // Decoding
  // ---------------------------------------------------------------------

  /** `Bare` is a scalar that its decoder produced, `Words` the server's own text. */
  datatype Value = Null | Bare(oid: nat, content: string) | Words(content: string) | List(items: seq<Value>)

  /** What the text grammar of arrays makes of a value: lengths and elements in order. */
  datatype Parsed = Parsed(dims: seq<int>, elements: seq<Option<string>>)

  datatype Codecs = Codecs(
    valid: string -> bool,
    parse: (char, string) -> Option<Parsed>,
    scalar: (nat, string) -> Option<string>)

  /** The grammar gives as many elements as lengths that are not negative ask for, and none
      without. Explicit bounds can make a length negative. */
  ghost predicate Lawful(c: Codecs) {
    forall delimiter, raw :: c.parse(delimiter, raw).Some? ==> LawfulArray(c.parse(delimiter, raw).value)
  }

  predicate LawfulArray(p: Parsed) {
    Nonnegative(p.dims) ==> |p.elements| == if p.dims == [] then 0 else Size(p.dims)
  }

  /** How many elements the dimensions hold. */
  function Size(dims: seq<int>): int {
    if dims == [] then 1 else Times(dims[0], Size(dims[1..]))
  }

  /** How many links a type is away from the leaf its chain ends in. */
  ghost function Length(types: Types, oid: nat): (n: nat)
    ensures Resolves(types, oid) ==> EndsAt(types, oid, n)
  {
    if n: nat :| EndsAt(types, oid, n) then n else 0
  }

  lemma Shorter(types: Types, oid: nat)
    requires Resolves(types, oid) && Next(types, oid).Some?
    ensures var next := Next(types, oid).value; Resolves(types, next) && Length(types, oid) == Length(types, next) + 1
  {
    var n, next := Length(types, oid), Next(types, oid).value;
    assert EndsAt(types, oid, n) && n > 0;
    AtStep(types, oid, n - 1);
    assert EndsAt(types, next, n - 1);
    EndsOnce(types, next, n - 1, Length(types, next));
  }

  /** A domain's base, its base, and so on: the first type that is not a domain. */
  ghost function Unwrapped(types: Types, oid: nat): (u: nat)
    requires Resolves(types, oid)
    ensures Resolves(types, u) && u in types && types[u].base == 0 && Length(types, u) <= Length(types, oid)
    decreases Length(types, oid)
  {
    assert EndsAt(types, oid, Length(types, oid));
    InMap(types, oid);
    if types[oid].base == 0 then oid
    else
      Shorter(types, oid);
      Unwrapped(types, types[oid].base)
  }

  lemma InMap(types: Types, oid: nat)
    requires Resolves(types, oid)
    ensures oid in types
  {
    var n := Length(types, oid);
    if n > 0 && oid !in types {
      AtMissing(types, oid, n);
    }
  }

  lemma {:induction false} AtMissing(types: Types, oid: nat, n: nat)
    requires oid !in types && n > 0
    ensures At(types, oid, n).None?
  {
    if n > 1 {
      AtMissing(types, oid, n - 1);
    }
  }

  function Scalar(c: Codecs, oid: nat, raw: string): Option<Value> {
    if oid in SCALARS then
      match c.scalar(oid, raw)
      case None => None
      case Some(content) => Some(Bare(oid, content))
    else Some(Words(raw))
  }

  /** What a value means, by its type's chain; nothing where decoding fails. */
  ghost function Meaning(types: Types, c: Codecs, oid: nat, raw: Option<string>): Option<Value>
    requires Lawful(c)
    decreases Length(types, oid), 0, 0
  {
    if raw.None? then Some(Null)
    else if !c.valid(raw.value) || !Resolves(types, oid) then None
    else
      var u := Unwrapped(types, oid);
      var element := types[u].element;
      if element == 0 then Scalar(c, u, raw.value)
      else
        Shorter(types, u);
        InMap(types, element);
        var p := c.parse(types[element].delimiter, raw.value);
        if p.None? || !Bounded(p.value.dims, |raw.value| + 1) then None
        else if p.value.dims == [] then Some(List([]))
        else
          match MeaningAll(types, c, element, p.value.elements)
          case None => None
          case Some(leaves) => Some(List(Shape(p.value.dims, leaves)))
  }

  ghost function MeaningAll(types: Types, c: Codecs, oid: nat, raws: seq<Option<string>>): (r: Option<seq<Value>>)
    requires Lawful(c)
    ensures r.Some? ==> |r.value| == |raws|
    decreases Length(types, oid), 1, |raws|
  {
    if raws == [] then Some([])
    else
      var rest, last := MeaningAll(types, c, oid, raws[..|raws| - 1]), Meaning(types, c, oid, raws[|raws| - 1]);
      if rest.None? || last.None? then None else Some(rest.value + [last.value])
  }

  /** Leaves in row-major order as lists of lists. */
  function Shape(dims: seq<int>, leaves: seq<Value>): seq<Value>
    decreases |dims|, 0, 0
  {
    if |dims| <= 1 then leaves else Rows(dims[0], dims[1..], leaves)
  }

  function Rows(n: int, dims: seq<int>, leaves: seq<Value>): seq<Value>
    decreases |dims|, 1, n
  {
    if n <= 0 || !(0 <= Size(dims) <= |leaves|) then []
    else
      var cut := |leaves| - Size(dims);
      Rows(n - 1, dims, leaves[..cut]) + [List(Shape(dims, leaves[cut..]))]
  }

  predicate Nonnegative(dims: seq<int>) {
    forall i :: 0 <= i < |dims| ==> dims[i] >= 0
  }

  /** The leaves of lists of lists, read row by row. */
  function Flatten(values: seq<Value>, depth: nat): seq<Value>
    decreases depth, 0, 0
  {
    if depth <= 1 then values else FlattenAll(values, depth - 1)
  }

  function FlattenAll(values: seq<Value>, depth: nat): seq<Value>
    decreases depth, 1, |values|
  {
    if values == [] then []
    else
      var last := values[|values| - 1];
      FlattenAll(values[..|values| - 1], depth) + if last.List? then Flatten(last.items, depth) else []
  }

  lemma {:induction false} SizeNonnegative(dims: seq<int>)
    requires Nonnegative(dims)
    ensures Size(dims) >= 0
  {
    if dims != [] {
      SizeNonnegative(dims[1..]);
      Multiplied(dims[0], Size(dims[1..]));
    }
  }

  /** Nesting keeps every element, in row-major order, and has as many rows as the first
      dimension says. */
  lemma {:induction false} ShapeKeepsOrder(dims: seq<int>, leaves: seq<Value>)
    requires dims != [] && Nonnegative(dims) && |leaves| == Size(dims)
    ensures Flatten(Shape(dims, leaves), |dims|) == leaves && |Shape(dims, leaves)| == dims[0]
    decreases |dims|, 0, 0
  {
    if |dims| > 1 {
      RowsKeepOrder(dims[0], dims[1..], leaves);
    } else {
      assert Size(dims[1..]) == 1;
    }
  }

  lemma {:induction false} RowsKeepOrder(n: nat, dims: seq<int>, leaves: seq<Value>)
    requires dims != [] && Nonnegative(dims) && |leaves| == Times(n, Size(dims))
    ensures FlattenAll(Rows(n, dims, leaves), |dims|) == leaves && |Rows(n, dims, leaves)| == n
    decreases |dims|, 1, n
  {
    hide Rows, Shape, Times, Size, Flatten, FlattenAll;
    SizeNonnegative(dims);
    if n == 0 {
      RowsNone(dims, leaves);
    } else {
      TimesStep(n, Size(dims));
      var cut := |leaves| - Size(dims);
      RowsSplit(n, dims, leaves, cut);
      RowsKeepOrder(n - 1, dims, leaves[..cut]);
      ShapeKeepsOrder(dims, leaves[cut..]);
      FlattenLast(Rows(n - 1, dims, leaves[..cut]), Shape(dims, leaves[cut..]), |dims|);
    }
  }

  lemma RowsNone(dims: seq<int>, leaves: seq<Value>)
    requires dims != [] && |leaves| == Times(0, Size(dims))
    ensures Rows(0, dims, leaves) == [] && FlattenAll([], |dims|) == [] == leaves
  {}

  lemma RowsSplit(n: nat, dims: seq<int>, leaves: seq<Value>, cut: int)
    requires n > 0 && 0 <= Size(dims) <= |leaves| && cut == |leaves| - Size(dims)
    ensures Rows(n, dims, leaves) == Rows(n - 1, dims, leaves[..cut]) + [List(Shape(dims, leaves[cut..]))]
    ensures leaves[..cut] + leaves[cut..] == leaves
  {}

  /** Kept apart from the solver's arithmetic. */
  function Times(n: int, size: int): int {
    n * size
  }

  lemma TimesStep(n: int, size: int)
    requires n > 0 && size >= 0
    ensures Times(n, size) == Times(n - 1, size) + size && Times(n - 1, size) >= 0
  {
    Multiplied(n - 1, size);
  }

  lemma FlattenLast(front: seq<Value>, items: seq<Value>, depth: nat)
    ensures FlattenAll(front + [List(items)], depth) == FlattenAll(front, depth) + Flatten(items, depth)
  {
    assert (front + [List(items)])[..|front|] == front;
  }

  function Combine(x: Option<seq<Value>>, y: Option<seq<Value>>): Option<seq<Value>> {
    if x.None? || y.None? then None else Some(x.value + y.value)
  }

  lemma {:induction false} AllConcat(types: Types, c: Codecs, oid: nat, a: seq<Option<string>>, b: seq<Option<string>>)
    requires Lawful(c)
    ensures MeaningAll(types, c, oid, a + b) == Combine(MeaningAll(types, c, oid, a), MeaningAll(types, c, oid, b))
    decreases |b|
  {
    hide Meaning, Lawful;
    var x, y := MeaningAll(types, c, oid, a), MeaningAll(types, c, oid, b);
    if b == [] {
      assert a + b == a;
      assert x.Some? ==> x.value + [] == x.value;
    } else {
      var front, last := b[..|b| - 1], b[|b| - 1];
      AllConcat(types, c, oid, a, front);
      assert (a + b)[..|a + b| - 1] == a + front && (a + b)[|a + b| - 1] == last;
      var z, v := MeaningAll(types, c, oid, front), Meaning(types, c, oid, last);
      if x.Some? && z.Some? && v.Some? {
        assert (x.value + z.value) + [v.value] == x.value + (z.value + [v.value]);
      }
    }
  }

  /** What the elements from one place to another mean. */
  ghost function ReadSlice(
    types: Types, c: Codecs, oid: nat, elements: seq<Option<string>>, from: nat, to: int): (r: Option<seq<Value>>)
    requires Lawful(c) && from <= to <= |elements|
    ensures r.Some? ==> |r.value| == to - from
  {
    MeaningAll(types, c, oid, elements[from..to])
  }

  /** Reading on from `next` to `end`, within elements up to `last`. */
  lemma Advance(
    types: Types, c: Codecs, oid: nat, elements: seq<Option<string>>, index: nat, next: nat, end: nat, last: nat)
    requires Lawful(c) && index <= next <= end <= last <= |elements|
    ensures ReadSlice(types, c, oid, elements, index, end) ==
      Combine(ReadSlice(types, c, oid, elements, index, next), ReadSlice(types, c, oid, elements, next, end))
    ensures ReadSlice(types, c, oid, elements, next, end).None? ==> ReadSlice(types, c, oid, elements, index, last).None?
  {
    hide MeaningAll;
    assert elements[index..next] + elements[next..end] == elements[index..end];
    assert elements[index..end] + elements[end..last] == elements[index..last];
    AllConcat(types, c, oid, elements[index..next], elements[next..end]);
    AllConcat(types, c, oid, elements[index..end], elements[end..last]);
  }

  lemma AllOne(types: Types, c: Codecs, oid: nat, elements: seq<Option<string>>, next: nat)
    requires Lawful(c) && next < |elements|
    ensures var v := Meaning(types, c, oid, elements[next]);
      ReadSlice(types, c, oid, elements, next, next + 1) == if v.None? then None else Some([v.value])
  {
    hide Meaning;
    var one := elements[next..next + 1];
    assert one[..0] == [] && one[0] == elements[next];
    assert MeaningAll(types, c, oid, one[..0]) == Some([]);
    var v := Meaning(types, c, oid, elements[next]);
    if v.Some? {
      assert [] + [v.value] == [v.value];
    }
  }

  lemma RowsGrow(n: nat, dims: seq<int>, leaves: seq<Value>, more: seq<Value>)
    requires |more| == Size(dims)
    ensures Rows(n + 1, dims, leaves + more) == Rows(n, dims, leaves) + [List(Shape(dims, more))]
  {
    assert (leaves + more)[..|leaves|] == leaves && (leaves + more)[|leaves|..] == more;
  }

  /** Follows domains to the type beneath, then decodes a scalar or an array. The links
      end because the representation was found first. */
  method Decode(types: Types, c: Codecs, start: nat, raw: Option<string>) returns (r: Option<Value>)
    requires Lawful(c)
    ensures r == Meaning(types, c, start, raw)
    decreases Length(types, start), 0, 0, 0
  {
    if raw.None? {
      return Some(Null);
    }
    if !c.valid(raw.value) {
      return None;
    }
    var encoding := Representation(types, start);
    if encoding.None? {
      return None;
    }
    var oid := start;
    InMap(types, oid);
    while types[oid].base != 0
      invariant Resolves(types, oid) && oid in types && Unwrapped(types, oid) == Unwrapped(types, start)
      invariant Length(types, oid) <= Length(types, start)
      decreases Length(types, oid)
    {
      Shorter(types, oid);
      oid := types[oid].base;
      InMap(types, oid);
    }
    var element := types[oid].element;
    if element == 0 {
      return Scalar(c, oid, raw.value);
    }
    Shorter(types, oid);
    InMap(types, element);
    var parsed := c.parse(types[element].delimiter, raw.value);
    if parsed.None? {
      return None;
    }
    var ok := SetDimensions(parsed.value.dims, |raw.value| + 1);
    if !ok {
      return None;
    }
    if parsed.value.dims == [] {
      return Some(List([]));
    }
    var elements := parsed.value.elements;
    var values, next := Nested(types, c, element, parsed.value.dims, elements, 0);
    assert elements[0..Size(parsed.value.dims)] == elements;
    r := if values.None? then None else Some(List(values.value));
  }

  /** One dimension of an array: consumes exactly the elements it holds, in order. */
  method Nested(types: Types, c: Codecs, oid: nat, dims: seq<int>, elements: seq<Option<string>>, index: nat)
    returns (values: Option<seq<Value>>, next: nat)
    requires Lawful(c) && dims != [] && Nonnegative(dims)
    requires 0 <= Size(dims) && index + Size(dims) <= |elements|
    ensures var leaves := ReadSlice(types, c, oid, elements, index, index + Size(dims));
      values == if leaves.None? then None else Some(Shape(dims, leaves.value))
    ensures values.Some? ==> next == index + Size(dims)
    decreases Length(types, oid), 1, |dims|, 1
  {
    hide ReadSlice, Size, Lawful, Items, Times, Shape, Combine, Nonnegative, Length;
    var out: seq<Value> := [];
    ghost var leaves: seq<Value> := [];
    ghost var size, last := Size(dims[1..]), index + Size(dims);
    FirstTimes(dims);
    NothingYet(types, c, oid, elements, index, dims);
    next := index;
    for i := 0 to dims[0]
      invariant index <= next && 0 <= Times(dims[0] - i, size) && next + Times(dims[0] - i, size) == last
      invariant ReadSlice(types, c, oid, elements, index, next) == Some(leaves)
      invariant out == Items(i, dims, leaves)
    {
      TimesStep(dims[0] - i, size);
      Advance(types, c, oid, elements, index, next, next + size, last);
      ghost var more := ReadSlice(types, c, oid, elements, next, next + size);
      CombineNext(leaves, more);
      var v;
      v, next := Item(types, c, oid, dims, elements, next);
      if v.None? {
        return None, next;
      }
      ItemsGrow(i, dims, leaves, more.value);
      out, leaves := out + [v.value], leaves + more.value;
    }
    NoneLeft(size);
    ShapeOf(dims, leaves);
    values := Some(out);
  }

  lemma FirstTimes(dims: seq<int>)
    requires dims != [] && Nonnegative(dims)
    ensures dims[0] >= 0 && Size(dims[1..]) >= 0 && Size(dims) == Times(dims[0], Size(dims[1..]))
  {
    SizeNonnegative(dims[1..]);
  }

  lemma NoneLeft(size: int)
    ensures Times(0, size) == 0
  {}

  lemma ShapeOf(dims: seq<int>, leaves: seq<Value>)
    requires dims != []
    ensures Shape(dims, leaves) == Items(dims[0], dims, leaves)
  {}

  /** One element, or one row of the next dimension. */
  method Item(types: Types, c: Codecs, oid: nat, dims: seq<int>, elements: seq<Option<string>>, index: nat)
    returns (v: Option<Value>, next: nat)
    requires Lawful(c) && dims != [] && Nonnegative(dims)
    requires 0 <= Size(dims[1..]) && index + Size(dims[1..]) <= |elements|
    ensures var leaves := ReadSlice(types, c, oid, elements, index, index + Size(dims[1..]));
      v == if leaves.None? then None else Some(ItemOf(dims, leaves.value))
    ensures v.Some? ==> next == index + Size(dims[1..])
    decreases Length(types, oid), 1, |dims|, 0
  {
    hide ReadSlice, Lawful, Shape;
    if |dims| > 1 {
      var inner;
      inner, next := Nested(types, c, oid, dims[1..], elements, index);
      v := if inner.None? then None else Some(List(inner.value));
    } else {
      AllOne(types, c, oid, elements, index);
      v := Decode(types, c, oid, elements[index]);
      next := index + 1;
    }
  }

  function ItemOf(dims: seq<int>, leaves: seq<Value>): Value
    requires dims != []
  {
    if |dims| > 1 then List(Shape(dims[1..], leaves)) else if leaves == [] then Null else leaves[0]
  }

  function Items(n: int, dims: seq<int>, leaves: seq<Value>): seq<Value>
    requires dims != []
  {
    if |dims| == 1 then leaves else Rows(n, dims[1..], leaves)
  }

  lemma ItemsGrow(n: nat, dims: seq<int>, leaves: seq<Value>, more: seq<Value>)
    requires dims != [] && |more| == Size(dims[1..])
    ensures Items(n + 1, dims, leaves + more) == Items(n, dims, leaves) + [ItemOf(dims, more)]
  {
    if |dims| > 1 {
      RowsGrow(n, dims[1..], leaves, more);
    }
  }

  lemma CombineNext(leaves: seq<Value>, more: Option<seq<Value>>)
    ensures more.Some? ==> Combine(Some(leaves), more) == Some(leaves + more.value)
  {}

  lemma NothingYet(types: Types, c: Codecs, oid: nat, elements: seq<Option<string>>, index: nat, dims: seq<int>)
    requires Lawful(c) && dims != [] && index <= |elements|
    ensures ReadSlice(types, c, oid, elements, index, index) == Some([]) && Items(0, dims, []) == []
  {}
}
