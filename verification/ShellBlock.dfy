/**
 The block that an installation owns in a shell startup file: finding it by its marker
 lines, replacing it, and the literal quoting of paths inside it.
 */
module ShellBlock {

  datatype Option<+T> = None | Some(value: T)

  const START_MARK := "# >>> Data Mate"
  const END_MARK := "# <<< Data Mate"
  const BLOCK_START := "# >>> Data Mate >>>\n"
  const BLOCK_END := "# <<< Data Mate <<<\n"

  // ---------------------------------------------------------------------
  // Searching
  // ---------------------------------------------------------------------

  predicate Occurs(text: string, p: string, i: nat) {
    i + |p| <= |text| && text[i..i + |p|] == p
  }

  /** The first place at which `p` occurs, or -1. */
  function Index(text: string, p: string): (i: int)
    requires p != ""
    ensures i >= 0 ==> Occurs(text, p, i) && forall k :: 0 <= k < i ==> !Occurs(text, p, k)
    ensures i < 0 ==> i == -1 && forall k :: 0 <= k ==> !Occurs(text, p, k)
  {
    IndexFrom(text, p, 0)
  }

  function IndexFrom(text: string, p: string, from: nat): (i: int)
    requires p != "" && forall k :: 0 <= k < from ==> !Occurs(text, p, k)
    ensures i >= 0 ==> Occurs(text, p, i) && forall k :: 0 <= k < i ==> !Occurs(text, p, k)
    ensures i < 0 ==> i == -1 && forall k :: 0 <= k ==> !Occurs(text, p, k)
    decreases |text| - from
  {
    if from + |p| > |text| then -1
    else if Occurs(text, p, from) then from
    else IndexFrom(text, p, from + 1)
  }

  predicate Contains(text: string, p: string)
    requires p != ""
  {
    Index(text, p) >= 0
  }

  /** Occurrences that do not overlap, counted from the left. */
  function Count(text: string, p: string): nat
    requires p != ""
    decreases |text|
  {
    var i := Index(text, p);
    if i < 0 then 0 else 1 + Count(text[i + |p|..], p)
  }

  // ---------------------------------------------------------------------
  // The block
  // ---------------------------------------------------------------------

  predicate StartsLine(text: string, i: nat)
    requires i <= |text|
  {
    i == 0 || text[i - 1] == '\n'
  }

  /** The text with its block replaced, the block appended to a text without markers, or
      nothing when the markers are ambiguous. */
  function ReplaceBlock(text: string, block: string): Option<string> {
    if !Contains(text, START_MARK) && !Contains(text, END_MARK) then
      Some((if block != "" && text != "" && text[|text| - 1] != '\n' then text + "\n" else text) + block)
    else
      var start, end := Index(text, BLOCK_START), Index(text, BLOCK_END);
      if start < 0 || end < start || !StartsLine(text, start) || Count(text, START_MARK) != 1 ||
         Count(text, END_MARK) != 1 || !StartsLine(text, end)
      then None
      else Some(text[..start] + block + text[end + |BLOCK_END|..])
  }

  predicate MarkerFree(text: string) {
    !Contains(text, START_MARK) && !Contains(text, END_MARK)
  }

  /** Whole lines only, possibly none. */
  predicate Lines(text: string) {
    text == "" || text[|text| - 1] == '\n'
  }

  function Block(body: string): string {
    BLOCK_START + body + BLOCK_END
  }

  /** A text as installing finds it usable: its last line ended. */
  function Ended(text: string): string {
    if Lines(text) then text else text + "\n"
  }

  // ---------------------------------------------------------------------
  // Lines keep occurrences apart
  // ---------------------------------------------------------------------

  predicate OneLine(p: string) {
    p != "" && '\n' !in p
  }

  /** A pattern never straddles a character that it does not contain. */
  lemma OccursApart(a: string, b: string, p: string, i: nat, c: char)
    requires p != "" && c !in p && (a == "" || a[|a| - 1] == c)
    ensures Occurs(a + b, p, i) <==> if i < |a| then Occurs(a, p, i) else Occurs(b, p, i - |a|)
  {
    var t := a + b;
    if i < |a| {
      if i + |p| <= |a| {
        assert t[i..i + |p|] == a[i..i + |p|];
      } else {
        assert i + |p| <= |t| ==> t[i..i + |p|][|a| - 1 - i] == c;
      }
    } else if i + |p| <= |t| {
      assert t[i..i + |p|] == b[i - |a|..i - |a| + |p|];
    }
  }

  lemma OccursConcat(a: string, b: string, p: string, i: nat)
    requires OneLine(p) && Lines(a)
    ensures Occurs(a + b, p, i) <==> if i < |a| then Occurs(a, p, i) else Occurs(b, p, i - |a|)
  {
    OccursApart(a, b, p, i, '\n');
  }

  // ---------------------------------------------------------------------
  // Markers
  // ---------------------------------------------------------------------

  ghost predicate OnlyAt(text: string, p: string, k: nat) {
    forall i: nat :: Occurs(text, p, i) <==> i == k
  }

  lemma CountOnly(text: string, p: string, k: nat)
    requires p != "" && OnlyAt(text, p, k)
    ensures Index(text, p) == k && Count(text, p) == 1
  {
    assert Occurs(text, p, k);
    var rest := text[k + |p|..];
    if Index(rest, p) >= 0 {
      var j := Index(rest, p);
      assert text[k + |p| + j..k + |p| + j + |p|] == rest[j..j + |p|];
      assert Occurs(text, p, k + |p| + j);
      assert false;
    }
  }

  lemma MarkersOfBlock(i: nat)
    ensures Occurs(BLOCK_START, START_MARK, i) <==> i == 0
    ensures Occurs(BLOCK_END, END_MARK, i) <==> i == 0
    ensures !Occurs(BLOCK_START, END_MARK, i) && !Occurs(BLOCK_END, START_MARK, i)
  {
    assert BLOCK_START[0..15] == START_MARK && BLOCK_END[0..15] == END_MARK;
    if 0 < i <= 5 {
      assert BLOCK_START[i..i + 15][0] == BLOCK_START[i] != '#';
      assert BLOCK_END[i..i + 15][0] == BLOCK_END[i] != '#';
    }
  }

  /** Occurrences in four pieces, all but the last made of whole lines. */
  lemma OccursInPieces(a: string, b: string, c: string, d: string, p: string, i: nat)
    requires OneLine(p) && Lines(a) && Lines(b) && Lines(c)
    ensures Occurs(a + (b + (c + d)), p, i) <==>
      if i < |a| then Occurs(a, p, i)
      else if i < |a| + |b| then Occurs(b, p, i - |a|)
      else if i < |a| + |b| + |c| then Occurs(c, p, i - |a| - |b|)
      else Occurs(d, p, i - |a| - |b| - |c|)
  {
    hide Occurs;
    OccursConcat(a, b + (c + d), p, i);
    if i >= |a| {
      OccursConcat(b, c + d, p, i - |a|);
      if i >= |a| + |b| {
        OccursConcat(c, d, p, i - |a| - |b|);
      }
    }
  }

  /** Where the markers are in a text with its block. */
  lemma MarkersAt(text: string, body: string, i: nat)
    requires Lines(text) && Lines(body) && MarkerFree(text) && MarkerFree(body)
    ensures Occurs(text + Block(body), START_MARK, i) <==> i == |text|
    ensures Occurs(text + Block(body), END_MARK, i) <==> i == |text| + |BLOCK_START| + |body|
  {
    MarkAt(text, body, START_MARK, i);
    MarkAt(text, body, END_MARK, i);
  }

  /** Either marker occurs in the piece that is its line, and nowhere else. */
  lemma MarkAt(text: string, body: string, p: string, i: nat)
    requires Lines(text) && Lines(body) && MarkerFree(text) && MarkerFree(body) && (p == START_MARK || p == END_MARK)
    ensures Occurs(text + Block(body), p, i) <==>
      i == if p == START_MARK then |text| else |text| + |BLOCK_START| + |body|
  {
    assert Lines(BLOCK_START) && OneLine(p);
    assert START_MARK != END_MARK by {
      assert START_MARK[2] != END_MARK[2];
    }
    hide Occurs, MarkerFree, Lines, OneLine;
    assert text + Block(body) == text + (BLOCK_START + (body + BLOCK_END));
    OccursInPieces(text, BLOCK_START, body, BLOCK_END, p, i);
    if i < |text| {
      FreeOf(text, i);
    } else if i < |text| + |BLOCK_START| {
      MarkersOfBlock(i - |text|);
    } else if i < |text| + |BLOCK_START| + |body| {
      FreeOf(body, i - |text| - |BLOCK_START|);
    } else {
      MarkersOfBlock(i - |text| - |BLOCK_START| - |body|);
    }
  }

  lemma FreeOf(text: string, i: nat)
    requires MarkerFree(text)
    ensures !Occurs(text, START_MARK, i) && !Occurs(text, END_MARK, i)
  {}

  lemma LongerMarker(text: string, i: nat)
    ensures Occurs(text, BLOCK_START, i) ==> Occurs(text, START_MARK, i)
    ensures Occurs(text, BLOCK_END, i) ==> Occurs(text, END_MARK, i)
  {
    assert BLOCK_START[..15] == START_MARK && BLOCK_END[..15] == END_MARK;
    if Occurs(text, BLOCK_START, i) {
      assert text[i..i + 15] == text[i..i + |BLOCK_START|][..15];
    }
    if Occurs(text, BLOCK_END, i) {
      assert text[i..i + 15] == text[i..i + |BLOCK_END|][..15];
    }
  }

  /** The block that is there, and only it, is what gets replaced. */
  lemma ReplaceOwn(text: string, body: string, block: string)
    requires Lines(text) && Lines(body) && MarkerFree(text) && MarkerFree(body)
    ensures ReplaceBlock(text + Block(body), block) == Some(text + block)
  {
    var t, start, end := text + Block(body), |text|, |text| + |BLOCK_START| + |body|;
    hide Occurs, Index, MarkerFree;
    BlockPlaces(text, body);
    assert t[..start] == text;
    assert t[end + |BLOCK_END|..] == "";
    assert text + block + "" == text + block;
    assert StartsLine(t, start) && StartsLine(t, end);
    assert t[end - 1] == if body == "" then '\n' else body[|body| - 1];
  }

  /** The longer pattern is found where the only occurrence of its marker is. */
  lemma LongerPlace(t: string, mark: string, line: string, k: nat)
    requires mark != "" && line != "" && OnlyAt(t, mark, k) && Occurs(t, line, k)
    requires forall i: nat :: Occurs(t, line, i) ==> Occurs(t, mark, i)
    ensures Count(t, mark) == 1 && Index(t, mark) == k && Index(t, line) == k
  {
    CountOnly(t, mark, k);
    hide Occurs, Count;
  }

  lemma BlockPlaces(text: string, body: string)
    requires Lines(text) && Lines(body) && MarkerFree(text) && MarkerFree(body)
    ensures var t, start, end := text + Block(body), |text|, |text| + |BLOCK_START| + |body|;
      && Count(t, START_MARK) == Count(t, END_MARK) == 1 && Index(t, START_MARK) == start
      && Index(t, BLOCK_START) == start && Index(t, BLOCK_END) == end
  {
    var t, start, end := text + Block(body), |text|, |text| + |BLOCK_START| + |body|;
    assert Occurs(t, BLOCK_START, start) && Occurs(t, BLOCK_END, end);
    hide Occurs, Count, Index, MarkerFree;
    forall i: nat
      ensures Occurs(t, START_MARK, i) <==> i == start
      ensures Occurs(t, END_MARK, i) <==> i == end
      ensures Occurs(t, BLOCK_START, i) ==> Occurs(t, START_MARK, i)
      ensures Occurs(t, BLOCK_END, i) ==> Occurs(t, END_MARK, i)
    {
      MarkersAt(text, body, i);
      LongerMarker(t, i);
    }
    LongerPlace(t, START_MARK, BLOCK_START, start);
    LongerPlace(t, END_MARK, BLOCK_END, end);
  }

  lemma EndedFree(text: string)
    requires MarkerFree(text)
    ensures MarkerFree(Ended(text)) && Lines(Ended(text))
  {
    if !Lines(text) {
      forall i: nat, p | OneLine(p) && Occurs(text + "\n", p, i) ensures Occurs(text, p, i) {
        NewlineEnds(text, p, i);
      }
    }
  }

  lemma NewlineEnds(text: string, p: string, i: nat)
    requires OneLine(p) && Occurs(text + "\n", p, i)
    ensures Occurs(text, p, i)
  {
    var t := text + "\n";
    assert t[i + |p| - 1] == t[i..i + |p|][|p| - 1];
    assert t[i..i + |p|] == text[i..i + |p|];
  }

  /** A first install appends the block to the ended text. */
  lemma Installs(text: string, body: string)
    requires MarkerFree(text)
    ensures ReplaceBlock(text, Block(body)) == Some(Ended(text) + Block(body))
  {}

  /** Uninstalling after installing gives back the text, with its last line ended. */
  lemma InstallThenRemove(text: string, body: string)
    requires MarkerFree(text) && MarkerFree(body) && Lines(body)
    ensures var installed := ReplaceBlock(text, Block(body));
      installed.Some? && ReplaceBlock(installed.value, "") == Some(Ended(text))
  {
    EndedFree(text);
    Installs(text, body);
    ReplaceOwn(Ended(text), body, "");
    assert Ended(text) + "" == Ended(text);
  }

  /** So a text is restored exactly when it was empty or ended with a newline. */
  lemma RestoredExactly(text: string, body: string)
    requires MarkerFree(text) && MarkerFree(body) && Lines(body)
    ensures ReplaceBlock(ReplaceBlock(text, Block(body)).value, "") == Some(text) <==> text == "" || text[|text| - 1] == '\n'
  {
    InstallThenRemove(text, body);
  }

  /** Installing again changes nothing, and installing a newer block over an old one is
      installing the newer one. */
  lemma InstallAgain(text: string, body: string, newer: string)
    requires MarkerFree(text) && MarkerFree(body) && Lines(body)
    ensures var installed := ReplaceBlock(text, Block(body)).value;
      ReplaceBlock(installed, Block(newer)) == ReplaceBlock(text, Block(newer))
  {
    EndedFree(text);
    Installs(text, body);
    ReplaceOwn(Ended(text), body, Block(newer));
  }

  // ---------------------------------------------------------------------
  // Any text
  // ---------------------------------------------------------------------

  function Joined(pre: string, x: string, mid: string, y: string, post: string): string {
    pre + x + mid + y + post
  }

  /** A text that one marked block divides. */
  predicate Divided(text: string, pre: string, mid: string, post: string) {
    && Joined(pre, BLOCK_START, mid, BLOCK_END, post) == text
    && Lines(pre) && Lines(mid)
    && Count(text, START_MARK) == 1 && Count(text, END_MARK) == 1
  }

  lemma LinesApart(text: string, start: nat, end: nat)
    requires Occurs(text, BLOCK_START, start) && Occurs(text, BLOCK_END, end) && start <= end
    ensures start + |BLOCK_START| <= end
  {
    assert forall k :: start <= k < start + |BLOCK_START| ==> text[k] == text[start..start + |BLOCK_START|][k - start];
    assert forall k :: end <= k < end + |BLOCK_END| ==> text[k] == text[end..end + |BLOCK_END|][k - end];
    assert forall k :: start < k < start + |BLOCK_START| ==> text[k] != '#';
    assert text[end] == '#' && text[end + 2] == '<' && text[start + 2] == '>';
  }

  lemma Cut(text: string, x: string, y: string, start: nat, end: nat)
    requires Occurs(text, x, start) && Occurs(text, y, end) && start + |x| <= end
    ensures Joined(text[..start], x, text[start + |x|..end], y, text[end + |y|..]) == text
    ensures text[start + |x|..end] != "" ==> text[start + |x|..end][end - start - |x| - 1] == text[end - 1]
  {}

  lemma Accepted(text: string, block: string)
    requires !MarkerFree(text) && ReplaceBlock(text, block).Some?
    ensures var start, end := Index(text, BLOCK_START), Index(text, BLOCK_END);
      && 0 <= start <= end && Occurs(text, BLOCK_START, start) && Occurs(text, BLOCK_END, end)
      && StartsLine(text, start) && StartsLine(text, end)
      && Count(text, START_MARK) == 1 && Count(text, END_MARK) == 1
      && ReplaceBlock(text, block) == Some(text[..start] + block + text[end + |BLOCK_END|..])
  {
    hide Count, Occurs, IndexFrom;
  }

  /** Replacing in a text that has markers keeps every byte outside its block. */
  lemma AcceptedKeepsOutside(text: string, block: string) returns (pre: string, mid: string, post: string)
    requires !MarkerFree(text) && ReplaceBlock(text, block).Some?
    ensures Divided(text, pre, mid, post) && ReplaceBlock(text, block) == Some(pre + block + post)
  {
    Accepted(text, block);
    hide Occurs, Index, Count, ReplaceBlock, MarkerFree, Divided, StartsLine;
    var start, end := Index(text, BLOCK_START), Index(text, BLOCK_END);
    LinesApart(text, start, end);
    DividedAt(text, start, end);
    pre, mid, post := text[..start], text[start + |BLOCK_START|..end], text[end + |BLOCK_END|..];
  }

  lemma DividedAt(text: string, start: nat, end: nat)
    requires Occurs(text, BLOCK_START, start) && Occurs(text, BLOCK_END, end) && start + |BLOCK_START| <= end
    requires StartsLine(text, start) && StartsLine(text, end)
    requires Count(text, START_MARK) == 1 && Count(text, END_MARK) == 1
    ensures Divided(text, text[..start], text[start + |BLOCK_START|..end], text[end + |BLOCK_END|..])
  {
    CutLines(text, BLOCK_START, BLOCK_END, start, end);
    hide Occurs, Count, Joined, Lines, StartsLine;
  }

  lemma CutLines(text: string, x: string, y: string, start: nat, end: nat)
    requires x != "" && Occurs(text, x, start) && Occurs(text, y, end) && start + |x| <= end
    requires StartsLine(text, start) && StartsLine(text, end)
    ensures Joined(text[..start], x, text[start + |x|..end], y, text[end + |y|..]) == text
    ensures Lines(text[..start]) && Lines(text[start + |x|..end])
  {
    Cut(text, x, y, start, end);
    hide Joined;
  }

  // ---------------------------------------------------------------------
  // Quoting
  // ---------------------------------------------------------------------

  /** Every apostrophe leaves the quotes, is quoted the other way, and enters again. */
  function Escaped(s: string): string {
    if s == "" then "" else (if s[0] == '\'' then "'\"'\"'" else [s[0]]) + Escaped(s[1..])
  }

  function Quote(s: string): string {
    "'" + Escaped(s) + "'"
  }

  datatype Mode = Bare | Single | Double

  function Prepend(c: char, rest: Option<string>): Option<string> {
    match rest
    case None => None
    case Some(r) => Some([c] + r)
  }

  /** What a POSIX shell makes of a word that is written with quotes only (section 2.2 of
      the Shell Command Language); nothing when any other character needs a meaning. */
  function Word(s: string, mode: Mode): Option<string> {
    if s == "" then (if mode.Bare? then Some("") else None)
    else
      match mode
      case Bare => if s[0] == '\'' then Word(s[1..], Single) else if s[0] == '"' then Word(s[1..], Double) else None
      case Single => if s[0] == '\'' then Word(s[1..], Bare) else Prepend(s[0], Word(s[1..], Single))
      case Double =>
        if s[0] == '"' then Word(s[1..], Bare)
        else if s[0] in "$`\\" then None
        else Prepend(s[0], Word(s[1..], Double))
  }

  lemma {:induction false} EscapedReads(s: string, rest: string, read: string)
    requires Word(rest, Single) == Some(read)
    ensures Word(Escaped(s) + rest, Single) == Some(s + read)
  {
    if s == "" {
      assert Escaped(s) + rest == rest && s + read == read;
    } else {
      EscapedReads(s[1..], rest, read);
      var tail := Escaped(s[1..]) + rest;
      assert s + read == [s[0]] + (s[1..] + read);
      if s[0] == '\'' {
        var t := "'\"'\"'" + tail;
        assert Escaped(s) + rest == t;
        assert t[1..][1..][1..][1..][1..] == tail;
        assert Word(t, Single) == Word(t[1..], Bare) == Word(t[1..][1..], Double);
        assert Word(t[1..][1..][1..], Double) == Word(t[1..][1..][1..][1..], Bare) == Word(tail, Single);
      } else {
        assert Escaped(s) + rest == [s[0]] + tail;
        assert ([s[0]] + tail)[1..] == tail;
      }
    }
  }

  /** A quoted word reads back as the string, whatever characters it holds. */
  lemma QuoteReads(s: string)
    ensures Word(Quote(s), Bare) == Some(s)
  {
    assert Word("'", Single) == Some("") by {
      assert "'"[1..] == "";
    }
    EscapedReads(s, "'", "");
    assert Quote(s)[1..] == Escaped(s) + "'";
    assert s + "" == s;
  }

  // ---------------------------------------------------------------------
  // The block's own body
  // ---------------------------------------------------------------------

  /** Sources the loader when it can be read. */
  function Body(path: string): string {
    "[ ! -r " + Quote(path) + " ] || source " + Quote(path) + "\n"
  }

  predicate Quoteless(p: string) {
    p != "" && '\'' !in p && '"' !in p
  }

  lemma {:induction false} EscapedStart(s: string, p: string)
    requires Quoteless(p)
    ensures Occurs(Escaped(s), p, 0) <==> Occurs(s, p, 0)
    decreases |s|
  {
    if s != "" && s[0] == p[0] {
      var e := Escaped(s);
      assert e == [s[0]] + Escaped(s[1..]);
      if |p| == 1 {
        assert e[0..1] == [s[0]] == s[0..1] == p;
      } else {
        var q := p[1..];
        EscapedStart(s[1..], q);
        assert |p| <= |e| ==> e[0..|p|] == [s[0]] + Escaped(s[1..])[0..|q|];
        assert |p| <= |s| ==> s[0..|p|] == [s[0]] + s[1..][0..|q|];
        assert p == [p[0]] + q;
      }
    } else if s != "" {
      assert Escaped(s)[0] == s[0];
      assert |p| <= |Escaped(s)| ==> Escaped(s)[0..|p|][0] == s[0];
      assert |p| <= |s| ==> s[0..|p|][0] == s[0];
    }
  }

  lemma Shift(head: string, tail: string, p: string, i: nat)
    ensures Occurs(head + tail, p, |head| + i) <==> Occurs(tail, p, i)
  {
    if i + |p| <= |tail| {
      assert (head + tail)[|head| + i..|head| + i + |p|] == tail[i..i + |p|];
    }
  }

  /** Quoting neither hides nor makes an occurrence of a pattern without quotes. */
  lemma {:induction false} EscapedOccurs(s: string, p: string)
    requires Quoteless(p)
    ensures Contains(Escaped(s), p) <==> Contains(s, p)
  {
    EscapedStart(s, p);
    if s != "" {
      var head, tail := if s[0] == '\'' then "'\"'\"'" else [s[0]], Escaped(s[1..]);
      assert Escaped(s) == head + tail;
      assert s == [s[0]] + s[1..];
      EscapedOccurs(s[1..], p);
      if Contains(tail, p) {
        Shift(head, tail, p, Index(tail, p));
      }
      if Contains(s[1..], p) {
        Shift([s[0]], s[1..], p, Index(s[1..], p));
      }
      if Contains(s, p) && Index(s, p) > 0 {
        Shift([s[0]], s[1..], p, Index(s, p) - 1);
      }
      if Contains(Escaped(s), p) {
        HeadOccurs(head, tail, p, Index(Escaped(s), p), s[0] == '\'');
      }
    }
  }

  lemma HeadOccurs(head: string, tail: string, p: string, i: nat, quoted: bool)
    requires Quoteless(p) && Occurs(head + tail, p, i)
    requires if quoted then head == "'\"'\"'" else |head| == 1
    ensures i == 0 || (i >= |head| && Occurs(tail, p, i - |head|))
    ensures quoted ==> i > 0
  {
    assert (head + tail)[i..i + |p|][0] == (head + tail)[i];
    if i >= |head| {
      Shift(head, tail, p, i - |head|);
    }
  }

  lemma ContainsApart(a: string, b: string, p: string, c: char)
    requires p != "" && c !in p && (a == "" || a[|a| - 1] == c)
    ensures Contains(a + b, p) <==> Contains(a, p) || Contains(b, p)
  {
    if Contains(a, p) {
      OccursApart(a, b, p, Index(a, p), c);
    }
    if Contains(b, p) {
      OccursApart(a, b, p, |a| + Index(b, p), c);
    }
    if Contains(a + b, p) {
      OccursApart(a, b, p, Index(a + b, p), c);
    }
  }

  lemma ContainsBefore(a: string, p: string, c: char)
    requires p != "" && c !in p
    ensures Contains(a + [c], p) <==> Contains(a, p)
  {
    var t := a + [c];
    if Contains(a, p) {
      var i := Index(a, p);
      assert t[i..i + |p|] == a[i..i + |p|];
      assert Occurs(t, p, i);
    }
    if Contains(t, p) {
      var i := Index(t, p);
      assert t[i + |p| - 1] == t[i..i + |p|][|p| - 1];
      assert t[i..i + |p|] == a[i..i + |p|];
      assert Occurs(a, p, i);
    }
  }

  lemma NoStart(a: string, p: string)
    requires p != "" && p[0] !in a
    ensures !Contains(a, p)
  {
    assert forall i: nat :: Occurs(a, p, i) ==> a[i] == a[i..i + |p|][0];
  }

  lemma BodyContains(path: string, p: string)
    requires Quoteless(p) && p[0] == '#'
    ensures Contains(Body(path), p) <==> Contains(path, p)
  {
    assert Body(path) == FivePieces("[ ! -r '", Escaped(path), " ] || source '", Escaped(path), "\n");
    hide Contains, FivePieces, Body;
    NoStart("[ ! -r '", p);
    NoStart(" ] || source '", p);
    NoStart("\n", p);
    ContainsInPieces("[ ! -r '", Escaped(path), " ] || source '", Escaped(path), "\n", p);
    EscapedOccurs(path, p);
  }

  function FivePieces(a: string, b: string, c: string, d: string, e: string): string {
    a + ((b + "'") + (c + ((d + "'") + e)))
  }

  lemma ContainsInPieces(a: string, b: string, c: string, d: string, e: string, p: string)
    requires Quoteless(p) && a != "" && a[|a| - 1] == '\'' && c != "" && c[|c| - 1] == '\''
    ensures Contains(FivePieces(a, b, c, d, e), p) <==>
      Contains(a, p) || Contains(b, p) || Contains(c, p) || Contains(d, p) || Contains(e, p)
  {
    hide Contains;
    var b', d' := b + "'", d + "'";
    ContainsApart(a, b' + (c + (d' + e)), p, '\'');
    ContainsApart(b', c + (d' + e), p, '\'');
    ContainsApart(c, d' + e, p, '\'');
    ContainsApart(d', e, p, '\'');
    ContainsBefore(b, p, '\'');
    ContainsBefore(d, p, '\'');
  }

  /** The body of an installed block is whole lines, and free of markers exactly when the
      path that it quotes is. */
  lemma BodyUsable(path: string)
    ensures Lines(Body(path)) && (MarkerFree(Body(path)) <==> MarkerFree(path))
  {
    BodyContains(path, START_MARK);
    BodyContains(path, END_MARK);
  }

  // ---------------------------------------------------------------------
  // Startup files
  // ---------------------------------------------------------------------

  datatype Path = Path(name: nat, startup: bool)

  type Files = map<Path, string>

  function Text(files: Files, p: Path): string {
    if p in files then files[p] else ""
  }

  /** The files that an installation writes: those whose markers are not ambiguous. */
  function Changes(files: Files, paths: seq<Path>, block: string): Files {
    map p | p in paths && ReplaceBlock(Text(files, p), block).Some? :: ReplaceBlock(Text(files, p), block).value
  }

  /** One file as uninstalling leaves it. */
  function Cleaned(text: string): string {
    var r := ReplaceBlock(text, "");
    if r.Some? then r.value else text
  }

  function Removed(files: Files, blocks: seq<Path>): Files {
    map p | p in files :: if p in blocks && p.startup then Cleaned(files[p]) else files[p]
  }

  method ShellChanges(files: Files, owned: seq<Path>, paths: seq<Path>, block: string)
    returns (changes: Files, blocks: seq<Path>)
    ensures changes == Changes(files, paths, block)
    ensures forall p :: p in blocks <==> p in owned || p in changes
  {
    hide ReplaceBlock;
    changes, blocks := map[], owned;
    for i := 0 to |paths|
      invariant changes == Changes(files, paths[..i], block)
      invariant forall p :: p in blocks <==> p in owned || p in changes
    {
      var p := paths[i];
      assert paths[..i + 1] == paths[..i] + [p];
      var text := ReplaceBlock(Text(files, p), block);
      if text.Some? {
        changes := changes[p := text.value];
        if p !in blocks {
          blocks := blocks + [p];
        }
      }
    }
    assert paths[..|paths|] == paths;
  }

  lemma RemovedNone(files: Files)
    ensures Removed(files, []) == files
  {}

  lemma RemovedStep(files: Files, blocks: seq<Path>, p: Path)
    ensures var before := Removed(files, blocks);
      Removed(files, blocks + [p]) == if p.startup && p in before then before[p := Cleaned(before[p])] else before
  {
    hide Cleaned;
    var before, after := Removed(files, blocks), Removed(files, blocks + [p]);
    forall q | q in files
      ensures after[q] == if q == p && p.startup then Cleaned(before[q]) else before[q]
    {
      CleanedTwice(files[q]);
      assert q in blocks + [p] <==> q in blocks || q == p;
    }
  }

  method RemoveShell(files: Files, blocks: seq<Path>) returns (after: Files)
    ensures after == Removed(files, blocks)
  {
    CleanedFree("");
    hide ReplaceBlock, Removed;
    after := files;
    RemovedNone(files);
    for i := 0 to |blocks|
      invariant after == Removed(files, blocks[..i])
    {
      var p := blocks[i];
      assert blocks[..i + 1] == blocks[..i] + [p];
      RemovedStep(files, blocks[..i], p);
      if p.startup {
        var text := ReplaceBlock(Text(after, p), "");
        if text.Some? && text.value != Text(after, p) {
          after := after[p := text.value];
        }
      }
    }
    assert blocks[..|blocks|] == blocks;
  }

  /** Counted once, a pattern that cannot overlap itself occurs once. */
  lemma CountedOnce(text: string, p: string, k: nat)
    requires p != "" && p[0] !in p[1..] && Count(text, p) == 1 && Occurs(text, p, k)
    ensures k == Index(text, p)
  {
    var i := Index(text, p);
    OccursChar(text, p, k, k);
    OccursChar(text, p, i, k);
    NotFirst(p, k - i);
    OccursLater(text, p, i + |p|, k);
  }

  lemma OccursChar(text: string, p: string, i: nat, k: nat)
    requires Occurs(text, p, i)
    ensures i <= k < i + |p| ==> text[k] == p[k - i]
  {
    if i <= k < i + |p| {
      assert text[k] == text[i..i + |p|][k - i];
    }
  }

  lemma NotFirst(p: string, d: int)
    requires p != "" && p[0] !in p[1..]
    ensures 0 < d < |p| ==> p[d] != p[0]
  {
    if 0 < d < |p| {
      assert p[1..][d - 1] == p[d];
    }
  }

  lemma OccursLater(text: string, p: string, from: nat, k: nat)
    requires from <= |text|
    ensures from <= k && Occurs(text, p, k) ==> Occurs(text[from..], p, k - from)
  {
    if from <= k && k + |p| <= |text| {
      assert text[from..][k - from..k - from + |p|] == text[k..k + |p|];
    }
  }

  lemma MarksOnce()
    ensures NoOverlap(START_MARK) && NoOverlap(END_MARK)
  {}

  predicate NoOverlap(p: string) {
    OneLine(p) && p[0] !in p[1..]
  }

  lemma LinesOccur(pre: string, x: string, mid: string, y: string, post: string)
    ensures Occurs(Joined(pre, x, mid, y, post), x, |pre|)
    ensures Occurs(Joined(pre, x, mid, y, post), y, |pre| + |x| + |mid|)
    ensures Joined(pre, x, mid, y, post) == pre + (x + mid + y) + post
  {}

  lemma AroundFree(text: string, pre: string, x: string, mid: string, y: string, post: string, p: string, q: string, i: nat)
    requires text == Joined(pre, x, mid, y, post) && Lines(pre) && x != "" && y != ""
    requires NoOverlap(p) && Count(text, p) == 1 && (Occurs(text, x, |pre|) ==> Occurs(text, p, |pre|))
    requires NoOverlap(q) && Count(text, q) == 1
    requires Occurs(text, y, |pre| + |x| + |mid|) ==> Occurs(text, q, |pre| + |x| + |mid|)
    ensures !Occurs(pre + post, p, i) && !Occurs(pre + post, q, i)
  {
    LinesOccur(pre, x, mid, y, post);
    hide Count, Occurs, Joined, OneLine;
    var middle := x + mid + y;
    OnceApart(text, p, pre, middle, post, |pre|, i);
    OnceApart(text, q, pre, middle, post, |pre| + |x| + |mid|, i);
  }

  lemma OutsideFree(text: string, pre: string, mid: string, post: string, i: nat)
    requires Divided(text, pre, mid, post)
    ensures !Occurs(pre + post, START_MARK, i) && !Occurs(pre + post, END_MARK, i)
  {
    MarksOnce();
    LongerMarker(text, |pre|);
    LongerMarker(text, |pre| + |BLOCK_START| + |mid|);
    hide Occurs, Joined, Count, Lines;
    AroundFree(text, pre, BLOCK_START, mid, BLOCK_END, post, START_MARK, END_MARK, i);
  }

  /** A pattern that occurs once, inside the middle, is not in what surrounds it. */
  lemma OnceApart(text: string, p: string, pre: string, middle: string, post: string, k: nat, i: nat)
    requires text == pre + middle + post && OneLine(p) && Lines(pre) && p[0] !in p[1..] && Count(text, p) == 1
    requires Occurs(text, p, k) && |pre| <= k < |pre| + |middle|
    ensures !Occurs(pre + post, p, i)
  {
    OccursConcat(pre, post, p, i);
    CountedOnce(text, p, k);
    if Occurs(pre, p, i) {
      assert text[i..i + |p|] == pre[i..i + |p|];
      CountedOnce(text, p, i);
    }
    if i >= |pre| && Occurs(post, p, i - |pre|) {
      Shift(pre + middle, post, p, i - |pre|);
      CountedOnce(text, p, i + |middle|);
    }
  }

  /** Removing the block leaves no marker behind, so removing again changes nothing. */
  lemma CleanedTwice(text: string)
    ensures Cleaned(Cleaned(text)) == Cleaned(text)
  {
    hide ReplaceBlock, Divided, Occurs, MarkerFree;
    if MarkerFree(text) {
      CleanedFree(text);
    } else if ReplaceBlock(text, "").Some? {
      var pre, mid, post := AcceptedKeepsOutside(text, "");
      assert pre + "" + post == pre + post;
      forall i: nat ensures !Occurs(pre + post, START_MARK, i) && !Occurs(pre + post, END_MARK, i) {
        OutsideFree(text, pre, mid, post, i);
      }
      NowhereFree(pre + post);
      CleanedFree(pre + post);
    }
  }

  lemma NowhereFree(text: string)
    requires forall i: nat :: !Occurs(text, START_MARK, i) && !Occurs(text, END_MARK, i)
    ensures MarkerFree(text)
  {}

  lemma CleanedFree(text: string)
    requires MarkerFree(text)
    ensures Cleaned(text) == text && ReplaceBlock(text, "") == Some(text)
  {
    assert text + "" == text;
  }

  lemma FoundAt(text: string, mark: string, line: string, k: nat)
    requires NoOverlap(mark) && line != "" && Count(text, mark) == 1 && Occurs(text, line, k)
    requires forall i: nat :: Occurs(text, line, i) ==> Occurs(text, mark, i)
    ensures Index(text, line) == k
  {
    CountedOnce(text, mark, k);
    CountedOnce(text, mark, Index(text, line));
  }

  lemma MiddleStartsLine(pre: string, x: string, mid: string, y: string, post: string)
    requires x != "" && x[|x| - 1] == '\n' && Lines(pre) && Lines(mid)
    ensures StartsLine(Joined(pre, x, mid, y, post), |pre|)
    ensures StartsLine(Joined(pre, x, mid, y, post), |pre| + |x| + |mid|)
    ensures Joined(pre, x, mid, y, post)[..|pre|] == pre
    ensures Joined(pre, x, mid, y, post)[|pre| + |x| + |mid| + |y|..] == post
  {
    var front := pre + x + mid;
    assert Joined(pre, x, mid, y, post) == front + (y + post);
    assert front[|front| - 1] == '\n';
  }

  lemma LinesHoldMarks(text: string)
    ensures forall i: nat :: Occurs(text, BLOCK_START, i) ==> Occurs(text, START_MARK, i)
    ensures forall i: nat :: Occurs(text, BLOCK_END, i) ==> Occurs(text, END_MARK, i)
  {
    hide Occurs;
    forall i: nat
      ensures Occurs(text, BLOCK_START, i) ==> Occurs(text, START_MARK, i)
      ensures Occurs(text, BLOCK_END, i) ==> Occurs(text, END_MARK, i)
    {
      LongerMarker(text, i);
    }
  }

  lemma DividedAccepted(text: string, pre: string, mid: string, post: string, block: string)
    requires Divided(text, pre, mid, post)
    ensures !MarkerFree(text) && ReplaceBlock(text, block).Some?
  {
    var start, end := |pre|, |pre| + |BLOCK_START| + |mid|;
    MarksOnce();
    LinesHoldMarks(text);
    LinesOccur(pre, BLOCK_START, mid, BLOCK_END, post);
    assert BLOCK_START[|BLOCK_START| - 1] == '\n';
    hide Occurs, Joined, Lines, NoOverlap, StartsLine;
    CountNonzero(text, START_MARK);
    MiddleStartsLineIn(text, pre, mid, post);
    FoundAt(text, START_MARK, BLOCK_START, start);
    FoundAt(text, END_MARK, BLOCK_END, end);
    hide Count, Index;
  }

  lemma CountNonzero(text: string, p: string)
    requires p != "" && Count(text, p) == 1
    ensures Contains(text, p)
  {}

  lemma MiddleStartsLineIn(text: string, pre: string, mid: string, post: string)
    requires Divided(text, pre, mid, post)
    ensures |pre| + |BLOCK_START| + |mid| <= |text|
    ensures StartsLine(text, |pre|) && StartsLine(text, |pre| + |BLOCK_START| + |mid|)
  {
    MiddleStartsLine(pre, BLOCK_START, mid, BLOCK_END, post);
  }

  /** A text with markers is accepted exactly when one pair of complete marker lines
      divides it and no other marker is in it. */
  lemma AcceptedExactly(text: string, block: string)
    requires !MarkerFree(text)
    ensures ReplaceBlock(text, block).Some? <==> exists pre, mid, post :: Divided(text, pre, mid, post)
  {
    hide ReplaceBlock, MarkerFree, Divided;
    if ReplaceBlock(text, block).Some? {
      var pre, mid, post := AcceptedKeepsOutside(text, block);
    }
    forall pre, mid, post | Divided(text, pre, mid, post) ensures ReplaceBlock(text, block).Some? {
      DividedAccepted(text, pre, mid, post, block);
    }
  }

  /** Uninstalling undoes installing in every startup file without markers, up to the end
      of its last line, and leaves every file alone that it never changed. */
  lemma UninstallRestores(files: Files, owned: seq<Path>, paths: seq<Path>, loader: string, blocks: seq<Path>, p: Path)
    requires MarkerFree(loader)
    requires forall q :: q in blocks <==> q in owned || q in Changes(files, paths, Block(Body(loader)))
    ensures var after := Removed(files + Changes(files, paths, Block(Body(loader))), blocks);
      && (p in paths && p.startup && MarkerFree(Text(files, p)) ==> p in after && after[p] == Ended(Text(files, p)))
      && (p !in blocks ==> (p in after <==> p in files) && (p in files ==> after[p] == files[p]))
      && (!p.startup && p in files && p !in paths ==> p in after && after[p] == files[p])
  {
    BodyUsable(loader);
    if p in paths && MarkerFree(Text(files, p)) {
      InstallThenRemove(Text(files, p), Body(loader));
    }
  }
}
