/**
 The byte budget of query results. The tool result carries the JSON text of the
 result twice, once as a JSON string (RFC 8259, section 7) and once as an object.
 The executor never encodes the growing result again: it reserves the widest
 counters, adds up what each row costs, and stops before the cap.
 */
module ResultBudget {

  // ---------------------------------------------------------------------
  // Sizes of text
  // ---------------------------------------------------------------------

  /** Bytes of a character in UTF-8. */
  function Utf8(c: char): nat {
    if c as int < 0x80 then 1 else if c as int < 0x800 then 2 else if c as int < 0x10000 then 3 else 4
  }

  /** Bytes of a character inside a JSON string, as the encoder escapes it. */
  function Escaped(c: char): nat {
    if c == '"' || c == '\\' then 2
    else if c as int in {8, 9, 10, 12, 13} then 2
    else if c as int < 0x20 then 6
    else if c == '<' || c == '>' || c == '&' || c as int == 0x2028 || c as int == 0x2029 then 6
    else Utf8(c)
  }

  function Plain(s: string): nat {
    if s == "" then 0 else Plain(s[..|s| - 1]) + Utf8(s[|s| - 1])
  }

  /** The size of s as a JSON string, quotes included. */
  function Quoted(s: string): nat {
    2 + EscapedSize(s)
  }

  function EscapedSize(s: string): nat {
    if s == "" then 0 else EscapedSize(s[..|s| - 1]) + Escaped(s[|s| - 1])
  }

  /** The two copies of s, without the quotes of the escaped one. */
  function Twice(s: string): nat {
    Plain(s) + EscapedSize(s)
  }

  lemma {:induction false} TwiceConcat(a: string, b: string)
    ensures Twice(a + b) == Twice(a) + Twice(b)
    decreases |b|
  {
    if b == "" {
      assert a + b == a;
    } else {
      var front := b[..|b| - 1];
      assert (a + b)[..|a + b| - 1] == a + front;
      TwiceConcat(a, front);
    }
  }

  lemma OneCharacter(c: char)
    ensures Twice([c]) == Utf8(c) + Escaped(c)
  {
    assert [c][..0] == "";
    assert Plain([c]) == Plain("") + Utf8(c) && EscapedSize([c]) == EscapedSize("") + Escaped(c);
  }

  function Digit(d: nat): (c: char)
    requires d < 10
    ensures '0' <= c <= '9'
  {
    ('0' as int + d) as char
  }

  function Decimal(n: nat): string {
    if n < 10 then [Digit(n)] else Decimal(n / 10) + [Digit(n % 10)]
  }

  function Width(n: nat): nat {
    if n < 10 then 1 else 1 + Width(n / 10)
  }

  lemma {:induction false} WidthMonotone(a: nat, b: nat)
    requires a <= b
    ensures Width(a) <= Width(b)
  {
    if a >= 10 {
      WidthMonotone(a / 10, b / 10);
    }
  }

  /** Digits cost one byte in each copy. */
  lemma {:induction false} TwiceDecimal(n: nat)
    ensures Twice(Decimal(n)) == 2 * Width(n)
  {
    OneCharacter(Digit(n % 10));
    if n >= 10 {
      TwiceDecimal(n / 10);
      TwiceConcat(Decimal(n / 10), [Digit(n % 10)]);
    }
  }

  // ---------------------------------------------------------------------
  // The result and its envelope
  // ---------------------------------------------------------------------

  /** A result under construction: the rows are the JSON texts of complete rows. */
  datatype QueryResult = QueryResult(rows: seq<string>, rowCount: nat, truncated: bool, elapsed: nat)

  const MAX_ELAPSED := 0x7fff_ffff_ffff_ffff

  function Joined(rows: seq<string>): string {
    if rows == [] then ""
    else if |rows| == 1 then rows[0]
    else Joined(rows[..|rows| - 1]) + "," + rows[|rows| - 1]
  }

  function Truth(b: bool): string {
    if b then "true" else "false"
  }

  /** The result object; `head` is its text up to and including the columns. */
  function Json(head: string, r: QueryResult): string {
    head + "\"rows\":[" + Joined(r.rows) + "],\"row_count\":" + Decimal(r.rowCount)
    + ",\"truncated\":" + Truth(r.truncated) + ",\"elapsed_ms\":" + Decimal(r.elapsed) + "}"
  }

  function Envelope(json: string): nat {
    |"{\"content\":[{\"type\":\"text\",\"text\":"| + Quoted(json) + |"}],\"structuredContent\":"| + Plain(json) + |"}"|
  }

  /** The true payload of a result. */
  function PayloadSize(head: string, r: QueryResult): nat {
    Envelope(Json(head, r))
  }

  /** The payload with the counters at their widest. */
  function Reserved(head: string, rowLimit: nat, rows: seq<string>): nat {
    PayloadSize(head, QueryResult(rows, rowLimit, false, MAX_ELAPSED))
  }

  function Cost(rows: seq<string>, row: string): nat {
    Plain(row) + Quoted(row) - 2 + if rows == [] then 0 else 2
  }

  /** The parts of the text that the rows and the counters do not change. */
  function Frame(head: string): nat {
    Envelope(head + "\"rows\":[") + Twice("],\"row_count\":") + Twice(",\"truncated\":") + Twice(",\"elapsed_ms\":") + Twice("}")
  }

  lemma EnvelopeConcat(a: string, b: string)
    ensures Envelope(a + b) == Envelope(a) + Twice(b)
  {
    TwiceConcat(a, b);
  }

  /** The payload, part by part. */
  lemma PayloadParts(head: string, r: QueryResult)
    ensures PayloadSize(head, r) ==
      Frame(head) + Twice(Joined(r.rows)) + 2 * Width(r.rowCount) + Twice(Truth(r.truncated)) + 2 * Width(r.elapsed)
  {
    var a := head + "\"rows\":[";
    var b := a + Joined(r.rows);
    var c := b + "],\"row_count\":";
    var d := c + Decimal(r.rowCount);
    var e := d + ",\"truncated\":";
    var f := e + Truth(r.truncated);
    var g := f + ",\"elapsed_ms\":";
    var h := g + Decimal(r.elapsed);
    EnvelopeConcat(a, Joined(r.rows));
    EnvelopeConcat(b, "],\"row_count\":");
    EnvelopeConcat(c, Decimal(r.rowCount));
    EnvelopeConcat(d, ",\"truncated\":");
    EnvelopeConcat(e, Truth(r.truncated));
    EnvelopeConcat(f, ",\"elapsed_ms\":");
    EnvelopeConcat(g, Decimal(r.elapsed));
    EnvelopeConcat(h, "}");
    TwiceDecimal(r.rowCount);
    TwiceDecimal(r.elapsed);
    assert Json(head, r) == h + "}";
  }

  lemma JoinedGrowth(rows: seq<string>, row: string)
    ensures Twice(Joined(rows + [row])) == Twice(Joined(rows)) + Cost(rows, row)
  {
    assert (rows + [row])[..|rows|] == rows;
    if rows != [] {
      TwiceConcat(Joined(rows) + ",", row);
      TwiceConcat(Joined(rows), ",");
      OneCharacter(',');
    }
  }

  /** Each row is charged exactly once: what the accounting adds for a row is what
      the envelope grows by. */
  lemma CostIsGrowth(head: string, rowLimit: nat, rows: seq<string>, row: string)
    ensures Reserved(head, rowLimit, rows + [row]) == Reserved(head, rowLimit, rows) + Cost(rows, row)
  {
    hide PayloadSize, Joined, Cost, Frame;
    PayloadParts(head, QueryResult(rows, rowLimit, false, MAX_ELAPSED));
    PayloadParts(head, QueryResult(rows + [row], rowLimit, false, MAX_ELAPSED));
    JoinedGrowth(rows, row);
  }

  /** A lower-case word costs one byte per letter in each copy. */
  lemma {:induction false} TwiceWord(word: string)
    requires forall i :: 0 <= i < |word| ==> 'a' <= word[i] <= 'z'
    ensures Twice(word) == 2 * |word|
  {
    if word != "" {
      var front := word[..|word| - 1];
      TwiceWord(front);
    }
  }

  /** What the reservation holds back: twice the unused digits of the row count and
      of the elapsed time, and two bytes when "false" becomes "true". */
  function Slack(rowLimit: nat, r: QueryResult): int {
    2 * (Width(rowLimit) - Width(r.rowCount)) + 2 * (19 - Width(r.elapsed)) + if r.truncated then 2 else 0
  }

  lemma WidthOfMaxElapsed()
    ensures Width(MAX_ELAPSED) == 19
  {
    assert MAX_ELAPSED == 9223372036854775807;
    assert Width(9223372036854775807) == 9 + Width(9223372036);
    assert Width(9223372036) == 9 + Width(9);
  }

  lemma SlackExact(head: string, rowLimit: nat, r: QueryResult)
    ensures Reserved(head, rowLimit, r.rows) == PayloadSize(head, r) + Slack(rowLimit, r)
  {
    hide PayloadSize, Joined, Frame, Plain, EscapedSize;
    PayloadParts(head, r);
    PayloadParts(head, QueryResult(r.rows, rowLimit, false, MAX_ELAPSED));
    TwiceWord("true");
    TwiceWord("false");
    WidthOfMaxElapsed();
  }

  lemma SlackNonnegative(rowLimit: nat, r: QueryResult)
    requires r.rowCount <= rowLimit && r.elapsed <= MAX_ELAPSED
    ensures Slack(rowLimit, r) >= 0
  {
    WidthMonotone(r.rowCount, rowLimit);
    WidthMonotone(r.elapsed, MAX_ELAPSED);
    WidthOfMaxElapsed();
  }

  // ---------------------------------------------------------------------
  // The executor
  // ---------------------------------------------------------------------

  /** A row as it arrives: whether the context is done by then, whether its width and
      values decode, and its JSON text. */
  datatype ServerRow = ServerRow(cancelled: bool, wellFormed: bool, json: string)

  function Texts(server: seq<ServerRow>): seq<string> {
    seq(|server|, i requires 0 <= i < |server| => server[i].json)
  }

  datatype Outcome =
    | Failed                          // an error; no result is returned
    | Discarded(result: QueryResult)  // truncated; the connection was closed
    | Completed(result: QueryResult)

  /** The first n rows fit: within the row limit and, with a cap, within the cap
      under reserved counters. */
  predicate Fits(head: string, rowLimit: nat, cap: nat, texts: seq<string>, n: nat)
    requires n <= |texts|
  {
    n <= rowLimit && (cap > 0 ==> Reserved(head, rowLimit, texts[..n]) <= cap)
  }

  lemma {:induction false} FitsShrinks(head: string, rowLimit: nat, cap: nat, texts: seq<string>, m: nat, n: nat)
    requires m <= n <= |texts| && Fits(head, rowLimit, cap, texts, n)
    ensures Fits(head, rowLimit, cap, texts, m)
    decreases n
  {
    hide Reserved;
    if m < n {
      assert texts[..n] == texts[..n - 1] + [texts[n - 1]];
      CostIsGrowth(head, rowLimit, texts[..n - 1], texts[n - 1]);
      FitsShrinks(head, rowLimit, cap, texts, m, n - 1);
    }
  }

  /** n is the length of the longest prefix that fits. */
  ghost predicate LongestFit(head: string, rowLimit: nat, cap: nat, texts: seq<string>, n: nat) {
    n <= |texts| && Fits(head, rowLimit, cap, texts, n)
    && forall k :: n < k <= |texts| ==> !Fits(head, rowLimit, cap, texts, k)
  }

  lemma LongestFromNext(head: string, rowLimit: nat, cap: nat, texts: seq<string>, n: nat)
    requires n <= |texts| && Fits(head, rowLimit, cap, texts, n)
    requires n == |texts| || !Fits(head, rowLimit, cap, texts, n + 1)
    ensures LongestFit(head, rowLimit, cap, texts, n)
  {
    forall k | n < k <= |texts| ensures !Fits(head, rowLimit, cap, texts, k) {
      if Fits(head, rowLimit, cap, texts, k) {
        FitsShrinks(head, rowLimit, cap, texts, n + 1, k);
      }
    }
  }

  function Answer(server: seq<ServerRow>, n: nat, truncated: bool, elapsed: nat): QueryResult
    requires n <= |server|
  {
    QueryResult(Texts(server)[..n], n, truncated, elapsed)
  }

  /** The simple executor: it encodes the whole result again for every row. The flag
      says that the connection is closed because rows may still be on the wire. */
  function Simple(head: string, rowLimit: nat, cap: nat, server: seq<ServerRow>, n: nat, closeOk: bool, elapsed: nat): (Outcome, bool)
    requires n <= |server|
    decreases |server| - n
  {
    if n == |server| then (if closeOk then Completed(Answer(server, n, false, elapsed)) else Failed, false)
    else if server[n].cancelled then (Failed, true)
    else if n == rowLimit then (Discarded(Answer(server, n, true, elapsed)), true)
    else if !server[n].wellFormed then (Failed, true)
    else if !Fits(head, rowLimit, cap, Texts(server), n + 1) then (Discarded(Answer(server, n, true, elapsed)), true)
    else Simple(head, rowLimit, cap, server, n + 1, closeOk, elapsed)
  }

  /** The executor with its running count refines the simple one. */
  method Execute(head: string, rowLimit: nat, cap: nat, server: seq<ServerRow>, closeOk: bool, elapsed: nat)
    returns (outcome: Outcome, closed: bool)
    ensures (outcome, closed) ==
      if !Fits(head, rowLimit, cap, [], 0) then (Failed, false)
      else Simple(head, rowLimit, cap, server, 0, closeOk, elapsed)
  {
    hide Reserved, Cost;
    ghost var texts := Texts(server);
    var used := Reserved(head, rowLimit, []);
    if cap > 0 && used > cap {
      return Failed, false;
    }
    var rows: seq<string> := [];
    assert texts[..0] == [];
    for i := 0 to |server|
      invariant rows == texts[..i] && i <= rowLimit
      invariant cap > 0 ==> used == Reserved(head, rowLimit, rows)
      invariant Simple(head, rowLimit, cap, server, 0, closeOk, elapsed) == Simple(head, rowLimit, cap, server, i, closeOk, elapsed)
    {
      if server[i].cancelled {
        return Failed, true;
      }
      if |rows| == rowLimit {
        return Discarded(QueryResult(rows, |rows|, true, elapsed)), true;
      }
      if !server[i].wellFormed {
        return Failed, true;
      }
      var row := server[i].json;
      assert texts[..i + 1] == rows + [row];
      if cap > 0 {
        var cost := Cost(rows, row);
        CostIsGrowth(head, rowLimit, rows, row);
        if used + cost > cap {
          return Discarded(QueryResult(rows, |rows|, true, elapsed)), true;
        }
        used := used + cost;
      }
      rows := rows + [row];
    }
    return if closeOk then Completed(QueryResult(rows, |rows|, false, elapsed)) else Failed, false;
  }

  /** What a query returns: the longest prefix of the server's rows that fits,
      marked truncated exactly when rows are missing. */
  lemma {:induction false} SimpleIsLongest(head: string, rowLimit: nat, cap: nat, server: seq<ServerRow>, n: nat, closeOk: bool, elapsed: nat)
    requires n <= |server| && Fits(head, rowLimit, cap, Texts(server), n)
    ensures
      var (outcome, closed) := Simple(head, rowLimit, cap, server, n, closeOk, elapsed);
      !outcome.Failed? ==>
        var m := |outcome.result.rows|;
        && LongestFit(head, rowLimit, cap, Texts(server), m)
        && outcome.result == Answer(server, m, outcome.Discarded?, elapsed)
        && (outcome.Discarded? <==> m < |server|) && (outcome.Discarded? <==> closed)
    decreases |server| - n
  {
    var texts := Texts(server);
    if n == |server| || n == rowLimit || !Fits(head, rowLimit, cap, texts, n + 1) {
      LongestFromNext(head, rowLimit, cap, texts, n);
    } else {
      SimpleIsLongest(head, rowLimit, cap, server, n + 1, closeOk, elapsed);
    }
  }

  /** Among the rows that the executor looks at, those of the longest fitting prefix and the
      next one, some row was cancelled or does not decode. The row after a full limit is not
      decoded any more. */
  predicate BadRow(server: seq<ServerRow>, rowLimit: nat, n: nat, m: nat) {
    exists i :: n <= i <= m && i < |server| && (server[i].cancelled || (!server[i].wellFormed && i < rowLimit))
  }

  /** A query fails exactly when one of the rows it looks at is bad, or closing the fully
      read result fails; and only a fully read result leaves the connection open. */
  lemma {:induction false} FailsExactly(head: string, rowLimit: nat, cap: nat, server: seq<ServerRow>, n: nat, closeOk: bool, elapsed: nat)
    returns (m: nat)
    requires n <= |server| && Fits(head, rowLimit, cap, Texts(server), n)
    ensures n <= m && LongestFit(head, rowLimit, cap, Texts(server), m)
    ensures
      var (outcome, closed) := Simple(head, rowLimit, cap, server, n, closeOk, elapsed);
      && (outcome.Failed? <==> BadRow(server, rowLimit, n, m) || (m == |server| && !closeOk))
      && (closed <==> BadRow(server, rowLimit, n, m) || m < |server|)
    decreases |server| - n
  {
    hide Reserved, LongestFit, BadRow;
    var texts := Texts(server);
    if n == |server| || n == rowLimit || !Fits(head, rowLimit, cap, texts, n + 1) {
      m := n;
      LongestFromNext(head, rowLimit, cap, texts, n);
      LastRow(server, rowLimit, n);
    } else {
      m := FailsExactly(head, rowLimit, cap, server, n + 1, closeOk, elapsed);
      LongestLength(head, rowLimit, cap, texts, m);
      OneRow(server, rowLimit, n, m);
    }
  }

  lemma LongestLength(head: string, rowLimit: nat, cap: nat, texts: seq<string>, m: nat)
    requires LongestFit(head, rowLimit, cap, texts, m)
    ensures m <= |texts|
  {}

  lemma LastRow(server: seq<ServerRow>, rowLimit: nat, n: nat)
    ensures BadRow(server, rowLimit, n, n) <==>
      n < |server| && (server[n].cancelled || (!server[n].wellFormed && n < rowLimit))
  {}

  lemma OneRow(server: seq<ServerRow>, rowLimit: nat, n: nat, m: nat)
    requires n < m <= |server| && n < rowLimit
    ensures BadRow(server, rowLimit, n, m) <==>
      server[n].cancelled || !server[n].wellFormed || BadRow(server, rowLimit, n + 1, m)
  {}

  /** With a cap, every result that a query returns has a true payload, counters
      and truncation mark included, of at most the cap. */
  lemma PayloadWithinCap(head: string, rowLimit: nat, cap: nat, server: seq<ServerRow>, closeOk: bool, elapsed: nat)
    requires cap > 0 && elapsed <= MAX_ELAPSED && Fits(head, rowLimit, cap, [], 0)
    ensures
      var outcome := Simple(head, rowLimit, cap, server, 0, closeOk, elapsed).0;
      !outcome.Failed? ==> PayloadSize(head, outcome.result) <= cap
  {
    var outcome := Simple(head, rowLimit, cap, server, 0, closeOk, elapsed).0;
    assert Texts(server)[..0] == [][..0] == [];
    SimpleIsLongest(head, rowLimit, cap, server, 0, closeOk, elapsed);
    if !outcome.Failed? {
      SlackExact(head, rowLimit, outcome.result);
      SlackNonnegative(rowLimit, outcome.result);
    }
  }

  /** The reservation is not free: a cap that is exactly the size of the complete
      result still truncates it, unless every counter is already at its widest. */
  lemma ExactCapTruncates(head: string, rowLimit: nat, server: seq<ServerRow>, elapsed: nat)
    requires server != [] && |server| <= rowLimit && elapsed <= MAX_ELAPSED
    ensures
      var all := Answer(server, |server|, false, elapsed);
      Fits(head, rowLimit, PayloadSize(head, all), Texts(server), |server|) <==>
        Width(|server|) == Width(rowLimit) && Width(elapsed) == 19
  {
    var all := Answer(server, |server|, false, elapsed);
    SlackExact(head, rowLimit, all);
    WidthMonotone(|server|, rowLimit);
    WidthMonotone(elapsed, MAX_ELAPSED);
    WidthOfMaxElapsed();
    PayloadParts(head, all);
    assert Texts(server)[..|server|] == Texts(server);
    assert PayloadSize(head, all) > 0;
  }
}
