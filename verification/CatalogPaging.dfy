/**
 Keyset paging over the catalog: pages ordered by schema, name, kind and OID, each
 continued by a signed cursor that holds the last position.

 The catalog is fixed and strictly ordered, as its unique keys make it. JSON, base64
 and the signature are ideal; only the length of what they produce is computed.
 */
module CatalogPaging {

  type byte = b: int | 0 <= b < 256
  type Name = seq<byte>

  datatype Option<+T> = None | Some(value: T)

  datatype Result<+T> = Ok(value: T) | InvalidArgument | StaleCursor | ResourceLimit

  datatype Kind = NoKind | Routine | Sequence | TypeKind

  /** A listed table has no kind and no OID in its position. */
  datatype Key = Key(schema: Name, name: Name, kind: Kind, oid: nat)

  const START := Key([], [], NoKind, 0)

  // ---------------------------------------------------------------------
  // Order
  // ---------------------------------------------------------------------

  /** Byte by byte, as the "C" collation compares. */
  predicate NameLess(a: Name, b: Name) {
    b != [] && (a == [] || a[0] < b[0] || (a[0] == b[0] && NameLess(a[1..], b[1..])))
  }

  /** The first `k` bytes agree, and then the first name ends or has the smaller byte. */
  predicate Precedes(a: Name, b: Name, k: nat) {
    k <= |a| && k < |b| && a[..k] == b[..k] && (k == |a| || a[k] < b[k])
  }

  lemma {:induction false} NameLessExactly(a: Name, b: Name)
    ensures NameLess(a, b) <==> exists k: nat :: Precedes(a, b, k)
    decreases |a|
  {
    if a != [] && b != [] && a[0] == b[0] {
      NameLessExactly(a[1..], b[1..]);
      if NameLess(a[1..], b[1..]) {
        var k: nat :| Precedes(a[1..], b[1..], k);
        assert a[..k + 1] == [a[0]] + a[1..][..k] && b[..k + 1] == [b[0]] + b[1..][..k];
        assert Precedes(a, b, k + 1);
      }
      if k: nat :| Precedes(a, b, k) {
        assert k > 0;
        assert a[1..][..k - 1] == a[..k][1..] && b[1..][..k - 1] == b[..k][1..];
        assert Precedes(a[1..], b[1..], k - 1);
      }
    } else if b != [] && (a == [] || a[0] < b[0]) {
      assert Precedes(a, b, 0);
    } else if b != [] {
      forall k: nat ensures !Precedes(a, b, k) {
        assert 0 < k <= |a| && k < |b| ==> a[..k][0] != b[..k][0];
      }
    }
  }

  function KindRank(k: Kind): nat {
    match k
    case NoKind => 0
    case Routine => 1
    case Sequence => 2
    case TypeKind => 3
  }

  /** A kind as the catalog query spells it. */
  function Spelled(k: Kind): Name {
    match k
    case NoKind => []
    case Routine => [114, 111, 117, 116, 105, 110, 101]
    case Sequence => [115, 101, 113, 117, 101, 110, 99, 101]
    case TypeKind => [116, 121, 112, 101]
  }

  lemma KindsInOrder(a: Kind, b: Kind)
    ensures KindRank(a) < KindRank(b) <==> NameLess(Spelled(a), Spelled(b))
  {
    NameOrder(Spelled(a), Spelled(a), Spelled(a));
  }

  predicate Less(a: Key, b: Key) {
    if a.schema != b.schema then NameLess(a.schema, b.schema)
    else if a.name != b.name then NameLess(a.name, b.name)
    else if a.kind != b.kind then KindRank(a.kind) < KindRank(b.kind)
    else a.oid < b.oid
  }

  lemma {:induction false} NameOrder(a: Name, b: Name, c: Name)
    ensures !NameLess(a, a)
    ensures NameLess(a, b) && NameLess(b, c) ==> NameLess(a, c)
    ensures a != b ==> NameLess(a, b) || NameLess(b, a)
    decreases |a| + |b| + |c|
  {
    if a != [] && b != [] {
      assert a == [a[0]] + a[1..] && b == [b[0]] + b[1..];
      NameOrder(a[1..], b[1..], if c == [] then [] else c[1..]);
    } else if a != [] {
      NameOrder(a[1..], [], []);
    }
  }

  lemma LessOrder(a: Key, b: Key, c: Key)
    ensures !Less(a, a)
    ensures Less(a, b) && Less(b, c) ==> Less(a, c)
    ensures a != b ==> Less(a, b) || Less(b, a)
  {
    NameOrder(a.schema, b.schema, c.schema);
    NameOrder(a.name, b.name, c.name);
    NameOrder(b.schema, b.schema, b.schema);
    NameOrder(b.name, b.name, b.name);
    NameOrder(b.schema, a.schema, b.schema);
    NameOrder(b.name, a.name, b.name);
  }

  // ---------------------------------------------------------------------
  // Queries
  // ---------------------------------------------------------------------

  /** What a request asks for, apart from where to start; an empty schema and no kind
      mean all of them. */
  datatype Filter = Filter(schema: Name, kind: Kind)

  predicate Matches(f: Filter, k: Key) {
    (f.schema == [] || k.schema == f.schema) && (f.kind.NoKind? || k.kind == f.kind)
  }

  predicate Ordered(catalog: seq<Key>) {
    forall i, j :: 0 <= i < j < |catalog| ==> Less(catalog[i], catalog[j])
  }

  /** Everything after a position that the filter lets through, in order. */
  function After(catalog: seq<Key>, f: Filter, pos: Key): seq<Key> {
    if catalog == [] then []
    else (if Matches(f, catalog[0]) && Less(pos, catalog[0]) then [catalog[0]] else []) + After(catalog[1..], f, pos)
  }

  function Listed(catalog: seq<Key>, f: Filter): seq<Key> {
    if catalog == [] then []
    else (if Matches(f, catalog[0]) then [catalog[0]] else []) + Listed(catalog[1..], f)
  }

  function Limit(rows: seq<Key>, n: nat): seq<Key> {
    if |rows| <= n then rows else rows[..n]
  }

  datatype Page = Page(items: seq<Key>, next: Option<Key>)

  /** The page of the rows left: as many as asked for, and where to go on if there are more. */
  function PageOf(rows: seq<Key>, size: nat): Page
    requires size >= 1
  {
    if |rows| <= size then Page(rows, None) else Page(rows[..size], Some(rows[size - 1]))
  }

  lemma {:induction false} AfterBeyond(catalog: seq<Key>, f: Filter, pos: Key, later: Key)
    requires forall i :: 0 <= i < |catalog| ==> Less(pos, catalog[i]) && Less(later, catalog[i])
    ensures After(catalog, f, pos) == After(catalog, f, later)
  {
    if catalog != [] {
      AfterBeyond(catalog[1..], f, pos, later);
    }
  }

  lemma {:induction false} AfterRow(catalog: seq<Key>, f: Filter, pos: Key, k: nat)
    requires k < |After(catalog, f, pos)|
    ensures After(catalog, f, pos)[k] in catalog && Less(pos, After(catalog, f, pos)[k])
  {
    var head := if Matches(f, catalog[0]) && Less(pos, catalog[0]) then [catalog[0]] else [];
    if k >= |head| {
      AfterRow(catalog[1..], f, pos, k - |head|);
    }
  }

  lemma OrderedRest(catalog: seq<Key>)
    requires Ordered(catalog) && catalog != []
    ensures Ordered(catalog[1..]) && forall i :: 0 <= i < |catalog[1..]| ==> Less(catalog[0], catalog[1..][i])
  {
    assert forall i :: 0 <= i < |catalog[1..]| ==> catalog[1..][i] == catalog[i + 1];
  }

  /** Going on from a row of the answer gives the rows after it. */
  lemma {:induction false} AfterContinues(catalog: seq<Key>, f: Filter, pos: Key, k: nat)
    requires Ordered(catalog) && k < |After(catalog, f, pos)|
    ensures After(catalog, f, After(catalog, f, pos)[k]) == After(catalog, f, pos)[k + 1..]
  {
    hide After, Less, Matches, Ordered;
    AfterUnfold(catalog, f, pos);
    var e, rest, rows := catalog[0], catalog[1..], After(catalog, f, pos);
    var q := rows[k];
    OrderedRest(catalog);
    AfterRow(catalog, f, pos, k);
    AfterUnfold(catalog, f, q);
    if Matches(f, e) && Less(pos, e) {
      if k == 0 {
        AfterHead(rest, f, pos, e);
        assert catalog == [e] + rest;
      } else {
        AfterRow(rest, f, pos, k - 1);
        AfterContinues(rest, f, pos, k - 1);
        LessOrder(e, q, e);
        assert q in rest;
      }
    } else {
      AfterContinues(rest, f, pos, k);
      LessOrder(pos, q, e);
    }
  }

  lemma AfterUnfold(catalog: seq<Key>, f: Filter, pos: Key)
    ensures catalog == [] ==> After(catalog, f, pos) == []
    ensures catalog != [] ==>
      After(catalog, f, pos) ==
        (if Matches(f, catalog[0]) && Less(pos, catalog[0]) then [catalog[0]] else []) + After(catalog[1..], f, pos)
  {}

  lemma AfterHead(rest: seq<Key>, f: Filter, pos: Key, e: Key)
    requires Less(pos, e) && forall i :: 0 <= i < |rest| ==> Less(e, rest[i])
    ensures After([e] + rest, f, e) == After(rest, f, pos)
  {
    hide Less;
    LessOrder(e, e, e);
    assert ([e] + rest)[1..] == rest;
    forall i | 0 <= i < |rest| ensures Less(pos, rest[i]) {
      LessOrder(pos, e, rest[i]);
    }
    AfterBeyond(rest, f, pos, e);
  }

  // ---------------------------------------------------------------------
  // Following the cursors
  // ---------------------------------------------------------------------

  /** Every page in turn, the i-th with its own size. */
  function Collect(catalog: seq<Key>, f: Filter, pos: Key, sizes: nat -> nat, i: nat): seq<Key>
    requires Ordered(catalog) && forall k :: sizes(k) >= 1
    decreases |After(catalog, f, pos)|
  {
    var page := PageOf(After(catalog, f, pos), sizes(i));
    if page.next.None? then page.items
    else
      AfterContinues(catalog, f, pos, sizes(i) - 1);
      page.items + Collect(catalog, f, page.next.value, sizes, i + 1)
  }

  lemma {:induction false} CollectAll(catalog: seq<Key>, f: Filter, pos: Key, sizes: nat -> nat, i: nat)
    requires Ordered(catalog) && forall k :: sizes(k) >= 1
    ensures Collect(catalog, f, pos, sizes, i) == After(catalog, f, pos)
    decreases |After(catalog, f, pos)|
  {
    var rows := After(catalog, f, pos);
    var page := PageOf(rows, sizes(i));
    if page.next.Some? {
      AfterContinues(catalog, f, pos, sizes(i) - 1);
      CollectAll(catalog, f, page.next.value, sizes, i + 1);
      assert rows == rows[..sizes(i)] + rows[sizes(i)..];
    }
  }

  predicate Named(catalog: seq<Key>) {
    forall i :: 0 <= i < |catalog| ==> catalog[i].schema != []
  }

  lemma {:induction false} StartIsFirst(catalog: seq<Key>, f: Filter)
    requires Named(catalog)
    ensures After(catalog, f, START) == Listed(catalog, f)
  {
    if catalog != [] {
      assert forall i :: 0 <= i < |catalog[1..]| ==> catalog[1..][i] == catalog[i + 1];
      StartIsFirst(catalog[1..], f);
    }
  }

  /** The listing holds each entry that the filter lets through once, in key order. */
  lemma {:induction false} ListedExactly(catalog: seq<Key>, f: Filter)
    requires Ordered(catalog)
    ensures Ordered(Listed(catalog, f))
    ensures forall k :: k in Listed(catalog, f) <==>
      k in catalog && (f.schema == [] || k.schema == f.schema) && (f.kind.NoKind? || k.kind == f.kind)
  {
    if catalog != [] {
      hide Less;
      OrderedRest(catalog);
      ListedExactly(catalog[1..], f);
      assert catalog == [catalog[0]] + catalog[1..];
      forall k | k in Listed(catalog[1..], f) ensures Less(catalog[0], k) {
        var i :| 0 <= i < |catalog[1..]| && catalog[1..][i] == k;
      }
    }
  }

  /** Whatever the page sizes, following the cursors from the start ends and gives the
      filtered catalog in key order, each entry once. */
  lemma PagesCoverCatalog(catalog: seq<Key>, f: Filter, sizes: nat -> nat)
    requires Ordered(catalog) && Named(catalog) && forall k :: sizes(k) >= 1
    ensures Collect(catalog, f, START, sizes, 0) == Listed(catalog, f)
  {
    CollectAll(catalog, f, START, sizes, 0);
    StartIsFirst(catalog, f);
  }

  // ---------------------------------------------------------------------
  // Cursors
  // ---------------------------------------------------------------------

  datatype Tool = ListTables | ListObjects

  /** What a cursor is bound to besides its position. */
  datatype Binding = Binding(tool: Tool, filter: Filter, id: Name, revision: Name, epoch: nat)

  datatype Cursor = Cursor(binding: Binding, pos: Key)

  /** A cursor as text: signed under some key, or any other text of a length. */
  datatype Token = Signed(key: nat, body: Cursor) | Text(length: nat)

  const MAX_TOKEN := 2048
  const MAX_NAME := 63

  predicate ValidName(n: Name) {
    n != [] && |n| <= MAX_NAME && 0 !in n
  }

  /** The bytes that a JSON string needs for one byte, or for the two separators that it
      also escapes. */
  function EscapedByte(b: byte): nat {
    if b == 34 || b == 92 || b == 8 || b == 9 || b == 10 || b == 12 || b == 13 then 2
    else if b < 32 || b == 38 || b == 60 || b == 62 then 6
    else 1
  }

  function EscapedLength(n: Name): nat {
    if n == [] then 0
    else if |n| >= 3 && n[0] == 226 && n[1] == 128 && (n[2] == 168 || n[2] == 169) then 6 + EscapedLength(n[3..])
    else EscapedByte(n[0]) + EscapedLength(n[1..])
  }

  function Digits(n: nat): nat {
    if n < 10 then 1 else 1 + Digits(n / 10)
  }

  function ToolLength(t: Tool): nat {
    if t.ListTables? then |"list_tables"| else |"list_objects"|
  }

  function KindLength(k: Kind): nat {
    match k
    case NoKind => 0
    case Routine => |"routine"|
    case Sequence => |"sequence"|
    case TypeKind => |"type"|
  }

  /** Member names, separators and quotes. */
  function FixedLength(): nat {
    |"{'Version':1,'Tool':''"| + |",'KindFilter':''"| + |",'Kind':''"| + |",'OID':"| + |",'ID':''"| +
    |",'Revision':''"| + |",'Filter':''"| + |",'Schema':''"| + |",'Name':''"| + |",'Epoch':"| + |"}"|
  }

  function JsonLength(c: Cursor): nat {
    FixedLength() + ToolLength(c.binding.tool) + KindLength(c.binding.filter.kind) + KindLength(c.pos.kind) +
    Digits(c.pos.oid) + EscapedLength(c.binding.id) + EscapedLength(c.binding.revision) +
    EscapedLength(c.binding.filter.schema) + EscapedLength(c.pos.schema) + EscapedLength(c.pos.name) +
    Digits(c.binding.epoch)
  }

  /** Unpadded base64. */
  function Base64Length(n: nat): nat {
    n / 3 * 4 + (n % 3 * 8 + 5) / 6
  }

  function TokenLength(t: Token): nat {
    match t
    case Signed(_, body) => Base64Length(JsonLength(body) + 32)
    case Text(length) => length
  }

  function Decode(key: nat, t: Token, want: Binding): Option<Key> {
    if TokenLength(t) > MAX_TOKEN || t.Text? || t.key != key then None
    else if t.body.binding != want || !ValidName(t.body.pos.schema) || !ValidName(t.body.pos.name) then None
    else Some(t.body.pos)
  }

  lemma {:induction false} EscapedAtMost(n: Name)
    ensures EscapedLength(n) <= 6 * |n|
    decreases |n|
  {
    if n != [] {
      EscapedAtMost(n[1..]);
      if |n| >= 3 {
        EscapedAtMost(n[3..]);
      }
    }
  }

  function Power(k: nat): nat {
    if k == 0 then 1 else 10 * Power(k - 1)
  }

  lemma {:induction false} DigitsAtMost(n: nat, k: nat)
    requires k >= 1 && n < Power(k)
    ensures Digits(n) <= k
  {
    if n >= 10 {
      DigitsAtMost(n / 10, k - 1);
    }
  }

  /** The identifiers of a session: a UUID, a digest in hexadecimal and a 64-bit epoch. */
  predicate ValidBinding(b: Binding) {
    && |b.id| == 36 && EscapedLength(b.id) == 36
    && |b.revision| == 64 && EscapedLength(b.revision) == 64
    && b.epoch < 0x1_0000_0000_0000_0000
    && (b.filter.schema == [] || ValidName(b.filter.schema))
  }

  predicate ValidKey(tool: Tool, k: Key) {
    && ValidName(k.schema) && ValidName(k.name) && k.oid < 0x1_0000_0000
    && (tool.ListObjects? ==> !k.kind.NoKind? && k.oid > 0)
  }

  lemma Powers()
    ensures Power(10) == 10_000_000_000 && Power(20) == 100_000_000_000_000_000_000
  {
    assert Power(5) == 100_000;
    assert Power(10) == 100_000 * Power(5);
    assert Power(15) == 100_000 * Power(10);
    assert Power(20) == 100_000 * Power(15);
  }

  lemma Literals(t: Tool, a: Kind, b: Kind)
    ensures FixedLength() == 121 && ToolLength(t) <= 12 && KindLength(a) <= 8 && KindLength(b) <= 8
  {}

  /** A cursor for valid names always fits, even if every byte of them needs escaping. */
  lemma CursorFits(b: Binding, pos: Key)
    requires ValidBinding(b) && ValidKey(b.tool, pos)
    ensures TokenLength(Signed(0, Cursor(b, pos))) <= 1927 < MAX_TOKEN
  {
    EscapedAtMost(b.filter.schema);
    EscapedAtMost(pos.schema);
    EscapedAtMost(pos.name);
    Literals(b.tool, b.filter.kind, pos.kind);
    Powers();
    hide FixedLength, ToolLength, KindLength, EscapedLength, Digits;
    DigitsAtMost(pos.oid, 10);
    DigitsAtMost(b.epoch, 20);
  }

  /** Every cursor that is issued comes back as the position it was issued for. */
  lemma CursorRoundTrip(key: nat, b: Binding, pos: Key)
    requires ValidBinding(b) && ValidKey(b.tool, pos)
    ensures Decode(key, Signed(key, Cursor(b, pos)), b) == Some(pos)
  {
    CursorFits(b, pos);
  }

  /** A cursor is accepted only if this driver signed it for the same tool, filters,
      connection, revision and epoch. */
  lemma CursorBound(key: nat, t: Token, want: Binding)
    requires Decode(key, t, want).Some?
    ensures t == Signed(key, Cursor(want, Decode(key, t, want).value))
  {}

  // ---------------------------------------------------------------------
  // Requests
  // ---------------------------------------------------------------------

  const DEFAULT_SIZE := 100
  const MAX_INT := 0x7fff_ffff_ffff_ffff

  datatype Response = Response(items: seq<Key>, next: Option<Token>)

  function Total(items: seq<Key>, weigh: Key -> nat): nat {
    if items == [] then 0 else Total(items[..|items| - 1], weigh) + weigh(items[|items| - 1])
  }

  function PageSize(requested: int): int {
    if requested == 0 then DEFAULT_SIZE else requested
  }

  /** Where a request starts; nothing when its cursor is refused. */
  function Position(key: nat, b: Binding, token: Option<Token>): Option<Key> {
    if token.None? then Some(START)
    else
      var pos := Decode(key, token.value, b);
      if pos.Some? && b.tool.ListObjects? && (pos.value.kind.NoKind? || pos.value.oid == 0) then None else pos
  }

  /** What a request is answered with. Only the listing of objects weighs its items
      against a limit while it reads them; no limit is zero. */
  function Serve(
    key: nat, b: Binding, catalog: seq<Key>, requested: int, token: Option<Token>, limit: nat, weigh: Key -> nat): Result<Response>
  {
    var size := PageSize(requested);
    if size < 1 || size == MAX_INT || (b.filter.schema != [] && !ValidName(b.filter.schema)) then InvalidArgument
    else if Position(key, b, token).None? then StaleCursor
    else
      var page := PageOf(After(catalog, b.filter, Position(key, b, token).value), size);
      if b.tool.ListObjects? && limit > 0 && Total(page.items, weigh) > limit then ResourceLimit
      else Ok(Reply(key, b, page))
  }

  /** A token that this driver issued for a position of this very listing. */
  ghost predicate Issued(key: nat, b: Binding, token: Token, pos: Key) {
    && token == Signed(key, Cursor(b, pos)) && TokenLength(token) <= 2048
    && ValidName(pos.schema) && ValidName(pos.name) && (b.tool.ListObjects? ==> !pos.kind.NoKind? && pos.oid != 0)
  }

  /** A page size between one and the largest integer, and no schema filter or a usable one. */
  predicate Sensible(b: Binding, requested: int) {
    && (requested == 0 || (1 <= requested && requested != MAX_INT))
    && (b.filter.schema == [] || (|b.filter.schema| <= 63 && forall i :: 0 <= i < |b.filter.schema| ==> b.filter.schema[i] != 0))
  }

  /** Why a request is refused, and what it is answered with otherwise: a request that makes
      no sense, a cursor that was not issued for this listing, a page that weighs too much. */
  lemma ServedExactly(
    key: nat, b: Binding, catalog: seq<Key>, requested: int, token: Option<Token>, limit: nat, weigh: Key -> nat, pos: Key)
    requires if token.None? then pos == START else (exists p :: Issued(key, b, token.value, p)) ==> Issued(key, b, token.value, pos)
    ensures var r := Serve(key, b, catalog, requested, token, limit, weigh);
      var size := if requested == 0 then 100 else requested;
      if !Sensible(b, requested) then r == InvalidArgument
      else if token.Some? && !Issued(key, b, token.value, pos) then r == StaleCursor
      else
        var rows := After(catalog, b.filter, pos);
        var items := if |rows| <= size then rows else rows[..size];
        if b.tool.ListObjects? && 0 < limit < Total(items, weigh) then r == ResourceLimit
        else
          r == Ok(Response(items, if |rows| <= size then None else Some(Signed(key, Cursor(b, rows[size - 1])))))
  {
    hide After, Total, TokenLength;
    if token.Some? && Position(key, b, token).Some? {
      assert Issued(key, b, token.value, Position(key, b, token).value);
    }
  }

  function Reply(key: nat, b: Binding, page: Page): Response {
    Response(page.items, if page.next.None? then None else Some(Signed(key, Cursor(b, page.next.value))))
  }

  function Unweighed(k: Key): nat {
    0
  }

  lemma {:induction false} TotalGrows(items: seq<Key>, n: nat, weigh: Key -> nat)
    requires n <= |items|
    ensures Total(items[..n], weigh) <= Total(items, weigh)
    decreases |items|
  {
    if n < |items| {
      TotalGrows(items[..|items| - 1], n, weigh);
      assert items[..|items| - 1][..n] == items[..n];
    } else {
      assert items[..n] == items;
    }
  }

  /** Reads one row more than the page holds, to know whether there is another page. */
  method ListTables(key: nat, b: Binding, catalog: seq<Key>, requested: int, token: Option<Token>)
    returns (r: Result<Response>)
    requires b.tool.ListTables?
    ensures r == Serve(key, b, catalog, requested, token, 0, Unweighed)
  {
    hide After, Decode, ValidName, Position;
    var size := PageSize(requested);
    if size < 1 || size == MAX_INT || (b.filter.schema != [] && !ValidName(b.filter.schema)) {
      return InvalidArgument;
    }
    var pos := Position(key, b, token);
    if pos.None? {
      return StaleCursor;
    }
    var answer := After(catalog, b.filter, pos.value);
    var rows := Limit(answer, size + 1);
    var items := [];
    for i := 0 to |rows|
      invariant items == rows[..i]
    {
      items := items + [rows[i]];
    }
    var next: Option<Token> := None;
    if |items| > size {
      items := items[..size];
      next := Some(Signed(key, Cursor(b, items[size - 1])));
    }
    assert Response(items, next) == Reply(key, b, PageOf(answer, size));
    r := Ok(Response(items, next));
  }

  lemma TotalStep(rows: seq<Key>, i: nat, weigh: Key -> nat)
    requires i < |rows|
    ensures Total(rows[..i + 1], weigh) == Total(rows[..i], weigh) + weigh(rows[i])
  {
    assert rows[..i + 1][..i] == rows[..i];
  }

  lemma NoTotal(none: seq<Key>, weigh: Key -> nat)
    requires none == []
    ensures Total(none, weigh) == 0
  {}

  datatype Read = Read(items: seq<Key>, pos: Key, more: bool, over: bool)

  /** Reads rows into a page, and stops at the row after it before weighing that one. */
  method ReadRows(rows: seq<Key>, size: nat, start: Key, limit: nat, weigh: Key -> nat) returns (r: Read)
    requires size >= 1
    ensures r.over <==> limit > 0 && Total(PageOf(rows, size).items, weigh) > limit
    ensures !r.over ==> r.items == PageOf(rows, size).items && r.more == (|rows| > size)
    ensures !r.over && r.more ==> r.pos == rows[size - 1]
  {
    hide Total;
    NoTotal(rows[..0], weigh);
    var items, pos, used := [], start, 0;
    for i := 0 to |rows|
      invariant items == rows[..i] && i <= size
      invariant i > 0 ==> pos == rows[i - 1]
      invariant limit > 0 ==> used == Total(rows[..i], weigh) <= limit
    {
      if |items| == size {
        assert items == PageOf(rows, size).items;
        return Read(items, pos, true, false);
      }
      TotalStep(rows, i, weigh);
      if limit > 0 {
        used := used + weigh(rows[i]);
        if used > limit {
          assert PageOf(rows, size).items[..i + 1] == rows[..i + 1];
          TotalGrows(PageOf(rows, size).items, i + 1, weigh);
          return Read(items, pos, false, true);
        }
      }
      items, pos := items + [rows[i]], rows[i];
    }
    assert items == PageOf(rows, size).items;
    r := Read(items, pos, false, false);
  }

  lemma LimitedPage(answer: seq<Key>, size: nat)
    requires size >= 1
    ensures var rows := Limit(answer, size + 1);
      PageOf(rows, size) == PageOf(answer, size) && (|rows| > size <==> PageOf(answer, size).next.Some?)
  {}

  method ListObjects(
    key: nat, b: Binding, catalog: seq<Key>, requested: int, token: Option<Token>, limit: nat, weigh: Key -> nat)
    returns (r: Result<Response>)
    requires b.tool.ListObjects?
    ensures r == Serve(key, b, catalog, requested, token, limit, weigh)
  {
    hide After, Decode, ValidName, Position, Total;
    var size := PageSize(requested);
    if size < 1 || size == MAX_INT || (b.filter.schema != [] && !ValidName(b.filter.schema)) {
      return InvalidArgument;
    }
    var start := Position(key, b, token);
    if start.None? {
      return StaleCursor;
    }
    var rows := Limit(After(catalog, b.filter, start.value), size + 1);
    LimitedPage(After(catalog, b.filter, start.value), size);
    var page := ReadRows(rows, size, start.value, limit, weigh);
    if page.over {
      return ResourceLimit;
    }
    r := Ok(Response(page.items, if page.more then Some(Signed(key, Cursor(b, page.pos))) else None));
  }

  /** All pages of one listing as a client fetches them, sending back each cursor it was
      given, in at most `fuel` requests after the first; nothing if a request fails. */
  function Fetch(
    key: nat, b: Binding, catalog: seq<Key>, sizes: nat -> int, i: nat, token: Option<Token>, fuel: nat): Option<seq<Key>>
    decreases fuel
  {
    match Serve(key, b, catalog, sizes(i), token, 0, Unweighed)
    case Ok(response) =>
      if response.next.None? then Some(response.items)
      else if fuel == 0 then None
      else
        var rest := Fetch(key, b, catalog, sizes, i + 1, response.next, fuel - 1);
        if rest.None? then None else Some(response.items + rest.value)
    case _ => None
  }

  predicate ValidCatalog(tool: Tool, catalog: seq<Key>) {
    Ordered(catalog) && forall i :: 0 <= i < |catalog| ==> ValidKey(tool, catalog[i])
  }

  lemma ServedPage(key: nat, b: Binding, catalog: seq<Key>, requested: int, token: Option<Token>)
    requires ValidBinding(b) && 1 <= PageSize(requested) < MAX_INT && Position(key, b, token).Some?
    ensures Serve(key, b, catalog, requested, token, 0, Unweighed) ==
      Ok(Reply(key, b, PageOf(After(catalog, b.filter, Position(key, b, token).value), PageSize(requested))))
  {
    hide After, Position;
  }

  lemma IssuedPosition(key: nat, b: Binding, catalog: seq<Key>, pos: Key)
    requires ValidBinding(b) && ValidCatalog(b.tool, catalog) && pos in catalog
    ensures Position(key, b, Some(Signed(key, Cursor(b, pos)))) == Some(pos)
  {
    CursorRoundTrip(key, b, pos);
  }

  lemma StrictOrder(tool: Tool, catalog: seq<Key>)
    requires ValidCatalog(tool, catalog)
    ensures Ordered(catalog)
  {}

  lemma {:induction false} FetchFrom(
    key: nat, b: Binding, catalog: seq<Key>, sizes: nat -> int, i: nat, token: Option<Token>, pos: Key, fuel: nat)
    requires ValidBinding(b) && ValidCatalog(b.tool, catalog) && forall k :: 1 <= PageSize(sizes(k)) < MAX_INT
    requires Position(key, b, token) == Some(pos) && |After(catalog, b.filter, pos)| <= fuel + 1
    ensures Fetch(key, b, catalog, sizes, i, token, fuel) == Some(After(catalog, b.filter, pos))
    decreases fuel
  {
    hide Serve, After, Position, ValidCatalog, ValidBinding, Ordered, PageSize;
    var size := PageSize(sizes(i));
    var rows := After(catalog, b.filter, pos);
    StrictOrder(b.tool, catalog);
    ServedPage(key, b, catalog, sizes(i), token);
    if |rows| > size {
      var last := rows[size - 1];
      AfterRow(catalog, b.filter, pos, size - 1);
      AfterContinues(catalog, b.filter, pos, size - 1);
      IssuedPosition(key, b, catalog, last);
      FetchFrom(key, b, catalog, sizes, i + 1, Some(Signed(key, Cursor(b, last))), last, fuel - 1);
      assert rows == rows[..size] + rows[size..];
    }
  }

  /** A client that follows the cursors, with any page sizes, is served the whole filtered
      catalog in no more requests than it has entries, and in one if it has none. */
  lemma ClientSeesCatalog(key: nat, b: Binding, catalog: seq<Key>, sizes: nat -> int)
    requires ValidBinding(b) && ValidCatalog(b.tool, catalog) && forall k :: 1 <= PageSize(sizes(k)) < MAX_INT
    ensures Fetch(key, b, catalog, sizes, 0, None, if catalog == [] then 0 else |catalog| - 1) == Some(Listed(catalog, b.filter))
  {
    StartIsFirst(catalog, b.filter);
    ListedAtMost(catalog, b.filter);
    FetchFrom(key, b, catalog, sizes, 0, None, START, if catalog == [] then 0 else |catalog| - 1);
  }

  lemma {:induction false} ListedAtMost(catalog: seq<Key>, f: Filter)
    ensures |Listed(catalog, f)| <= |catalog|
  {
    if catalog != [] {
      ListedAtMost(catalog[1..], f);
    }
  }
}
