/**
 The frame tracker of the PostgreSQL wire protocol (PostgreSQL 16 manual, section
 55.7): it sees the server's bytes in chunks of any size, follows the five-byte
 message headers, and notes whether an authentication message ('R') has begun.
 */
module WireFrames {

  type byte = b: int | 0 <= b < 256

  const AUTHENTICATION: byte := 82  // 'R'

  /** The big-endian length of a header. */
  function SizeOf(h: seq<byte>): nat
    requires |h| == 5
  {
    h[1] as int * 0x100_0000 + h[2] as int * 0x1_0000 + h[3] as int * 0x100 + h[4]
  }

  // ---------------------------------------------------------------------
  // The reference: one parse of the whole stream
  // ---------------------------------------------------------------------

  /** Some complete header of the stream has type 'R'; a frame whose length is
      below four ends the parse. */
  predicate SeesAuth(s: seq<byte>)
    decreases |s|
  {
    |s| >= 5 &&
    var size := SizeOf(s[..5]);
    (s[0] == AUTHENTICATION || (size >= 4 && 1 + size <= |s| && SeesAuth(s[1 + size..])))
  }

  /** Every complete header that the parse meets has a length of at least four. */
  predicate LengthsOk(s: seq<byte>)
    decreases |s|
  {
    |s| >= 5 ==>
      var size := SizeOf(s[..5]);
      size >= 4 && (1 + size <= |s| ==> LengthsOk(s[1 + size..]))
  }

  /** Where the parse stops: after the first complete header with a short length,
      or at the end of the stream. */
  function ParseEnd(s: seq<byte>): (end: nat)
    ensures end <= |s|
    decreases |s|
  {
    if |s| < 5 then |s|
    else
      var size := SizeOf(s[..5]);
      if size < 4 then 5
      else if 1 + size > |s| then |s|
      else 1 + size + ParseEnd(s[1 + size..])
  }

  // ---------------------------------------------------------------------
  // The tracker
  // ---------------------------------------------------------------------

  /** `partial` is the used part of the header buffer. */
  datatype Tracker = Tracker(partial: seq<byte>, remaining: nat, auth: bool)

  const FRESH := Tracker([], 0, false)

  predicate Valid(t: Tracker) {
    |t.partial| < 5 && (t.partial != [] ==> t.remaining == 0)
  }

  function Min(a: nat, b: nat): nat {
    if a < b then a else b
  }

  /** What one turn of the loop consumes, and the bytes it leaves. A short length
      drops the rest of the chunk. */
  function Bite(t: Tracker, b: seq<byte>): (r: (Tracker, seq<byte>))
    requires Valid(t) && b != []
    ensures Valid(r.0) && |r.1| < |b|
  {
    var take := Min(|b|, if t.remaining > 0 then t.remaining else 5 - |t.partial|);
    var header := t.partial + b[..take];
    if t.remaining > 0 then (t.(remaining := t.remaining - take), b[take..])
    else if |header| < 5 then (t.(partial := header), b[take..])
    else
      var auth := t.auth || header[0] == AUTHENTICATION;
      if SizeOf(header) < 4 then (Tracker([], 0, auth), [])
      else (Tracker([], SizeOf(header) - 4, auth), b[take..])
  }

  /** The state after one chunk. */
  function Feed(t: Tracker, b: seq<byte>): (u: Tracker)
    requires Valid(t)
    ensures Valid(u)
    decreases |b|
  {
    if b == [] then t else var (u, left) := Bite(t, b); Feed(u, left)
  }

  function FeedAll(t: Tracker, chunks: seq<seq<byte>>): (u: Tracker)
    requires Valid(t)
    ensures Valid(u)
    decreases |chunks|
  {
    if chunks == [] then t else FeedAll(Feed(t, chunks[0]), chunks[1..])
  }

  function Concat(chunks: seq<seq<byte>>): seq<byte> {
    if chunks == [] then [] else chunks[0] + Concat(chunks[1..])
  }

  /** The bytes a tracker still has to see, read from its own position. */
  predicate SeesFrom(t: Tracker, rest: seq<byte>)
    requires Valid(t)
  {
    t.auth || (t.remaining <= |rest| && SeesAuth(t.partial + rest[t.remaining..]))
  }

  predicate LengthsOkFrom(t: Tracker, rest: seq<byte>)
    requires Valid(t)
  {
    t.remaining <= |rest| ==> LengthsOk(t.partial + rest[t.remaining..])
  }

  /** One frame of the whole-stream parse. */
  lemma ParseHeader(header: seq<byte>, left: seq<byte>)
    requires |header| == 5
    ensures var s, size := header + left, SizeOf(header);
      && var body := size - 4;
      && SeesAuth(s) == (header[0] == AUTHENTICATION || (0 <= body <= |left| && SeesAuth(left[body..])))
      && LengthsOk(s) == (0 <= body && (body <= |left| ==> LengthsOk(left[body..])))
      && (body < 0 ==> ParseEnd(s) == 5)
      && (0 <= body <= |left| ==> ParseEnd(s) == 1 + size + ParseEnd(left[body..]))
  {
    var s, size := header + left, SizeOf(header);
    assert s[..5] == header;
    if 4 <= size && size - 4 <= |left| {
      assert s[1 + size..] == left[size - 4..];
    }
  }

  lemma BiteRefines(t: Tracker, b: seq<byte>, rest: seq<byte>)
    requires Valid(t) && b != []
    ensures var (u, left) := Bite(t, b);
      && (SeesFrom(t, b + rest) ==> SeesFrom(u, left + rest))
      && (LengthsOkFrom(t, b + rest) ==> LengthsOkFrom(u, left + rest))
      && (LengthsOkFrom(t, b + rest) && SeesFrom(u, left + rest) ==> SeesFrom(t, b + rest))
  {
    hide SeesAuth, LengthsOk, SizeOf;
    var (u, left) := Bite(t, b);
    if t.remaining > 0 {
      assert t.remaining <= |b + rest| ==> (b + rest)[t.remaining..] == (left + rest)[u.remaining..];
    } else {
      var take := Min(|b|, 5 - |t.partial|);
      var header := t.partial + b[..take];
      assert t.partial + (b + rest)[0..] == header + (b[take..] + rest);
      if |header| < 5 {
        assert u.partial + (left + rest)[0..] == header + (b[take..] + rest);
      } else {
        ParseHeader(header, b[take..] + rest);
        if SizeOf(header) >= 4 && u.remaining <= |left + rest| {
          assert u.partial + (left + rest)[u.remaining..] == (b[take..] + rest)[u.remaining..];
        }
      }
    }
  }

  /** Reading a chunk and then the rest is reading both at once; a short length can
      only hide what follows it. */
  lemma {:induction false} FeedRefines(t: Tracker, b: seq<byte>, rest: seq<byte>)
    requires Valid(t)
    ensures SeesFrom(t, b + rest) ==> SeesFrom(Feed(t, b), rest)
    ensures LengthsOkFrom(t, b + rest) ==> LengthsOkFrom(Feed(t, b), rest)
    ensures LengthsOkFrom(t, b + rest) && SeesFrom(Feed(t, b), rest) ==> SeesFrom(t, b + rest)
    decreases |b|
  {
    hide SeesFrom, LengthsOkFrom, Bite;
    if b == [] {
      assert b + rest == rest;
    } else {
      var (u, left) := Bite(t, b);
      BiteRefines(t, b, rest);
      FeedRefines(u, left, rest);
    }
  }

  lemma {:induction false} FeedAllRefines(t: Tracker, chunks: seq<seq<byte>>)
    requires Valid(t)
    ensures SeesFrom(t, Concat(chunks)) ==> FeedAll(t, chunks).auth
    ensures LengthsOkFrom(t, Concat(chunks)) && FeedAll(t, chunks).auth ==> SeesFrom(t, Concat(chunks))
    decreases |chunks|
  {
    if chunks == [] {
      assert t.remaining == 0 ==> t.partial + Concat(chunks)[0..] == t.partial;
    } else {
      FeedRefines(t, chunks[0], Concat(chunks[1..]));
      FeedAllRefines(Feed(t, chunks[0]), chunks[1..]);
    }
  }

  /** For every stream whose lengths are at least four, and every way of cutting it
      into reads, the tracker agrees with the whole-stream parse. */
  lemma ChunkedRefinesWhole(chunks: seq<seq<byte>>)
    requires LengthsOk(Concat(chunks))
    ensures FeedAll(FRESH, chunks).auth == SeesAuth(Concat(chunks))
  {
    assert [] + Concat(chunks)[0..] == Concat(chunks);
    FeedAllRefines(FRESH, chunks);
  }

  // ---------------------------------------------------------------------
  // Short lengths: exactly when cutting matters
  // ---------------------------------------------------------------------

  /** A complete header could begin with 'R' at some position from `from` on. */
  predicate AuthByteFrom(s: seq<byte>, from: nat) {
    exists q :: from <= q && q + 5 <= |s| && s[q] == AUTHENTICATION
  }

  /** Whether every way of cutting the stream gives the whole-stream answer. */
  ghost predicate CuttingIrrelevant(s: seq<byte>) {
    forall chunks :: Concat(chunks) == s ==> FeedAll(FRESH, chunks).auth == SeesAuth(s)
  }

  /** What the tracker still has to parse: the stream `s` after its own position. */
  predicate At(t: Tracker, b: seq<byte>, s: seq<byte>)
    requires Valid(t)
  {
    t.remaining <= |b| && t.partial + b[t.remaining..] == s
  }

  lemma BiteOn(t: Tracker, b: seq<byte>, s: seq<byte>)
    requires Valid(t) && b != [] && !t.auth && At(t, b, s) && !SeesAuth(s) && !LengthsOk(s)
    ensures var (u, left) := Bite(t, b);
      || (u == FRESH && left == [])
      || exists s' :: !u.auth && At(u, left, s') && !SeesAuth(s') && !LengthsOk(s')
  {
    hide SeesAuth, LengthsOk, SizeOf;
    var (u, left) := Bite(t, b);
    if t.remaining > 0 {
      assert left[u.remaining..] == b[t.remaining..];
      assert At(u, left, s);
    } else {
      var take := Min(|b|, 5 - |t.partial|);
      var header := t.partial + b[..take];
      assert s == header + b[take..];
      if |header| == 5 {
        ParseHeader(header, b[take..]);
        if SizeOf(header) >= 4 {
          assert u.partial + left[u.remaining..] == left[u.remaining..];
          assert At(u, left, left[u.remaining..]);
        }
      } else {
        assert u.partial + left[0..] == header + b[take..];
        assert At(u, left, s);
      }
    }
  }

  /** After a short length the tracker starts afresh at the next chunk, so cutting
      right before a byte 'R' makes it see one. */
  lemma {:induction false} FeedToEnd(t: Tracker, b: seq<byte>, s: seq<byte>)
    requires Valid(t) && !t.auth && At(t, b, s) && !SeesAuth(s) && !LengthsOk(s)
    ensures Feed(t, b) == FRESH
    decreases |b|
  {
    hide Bite, SeesAuth, LengthsOk, At;
    if b == [] {
      AtEnd(t, s);
    } else {
      var (u, left) := Bite(t, b);
      BiteOn(t, b, s);
      if u != FRESH || left != [] {
        var s' :| !u.auth && At(u, left, s') && !SeesAuth(s') && !LengthsOk(s');
        FeedToEnd(u, left, s');
      }
    }
  }

  lemma AtEnd(t: Tracker, s: seq<byte>)
    requires Valid(t) && At(t, [], s)
    ensures LengthsOk(s)
  {}

  lemma {:induction false} PrefixParse(s: seq<byte>, q: nat)
    requires !LengthsOk(s) && ParseEnd(s) <= q <= |s|
    ensures !LengthsOk(s[..q]) && SeesAuth(s[..q]) == SeesAuth(s) && ParseEnd(s[..q]) == ParseEnd(s)
    decreases |s|
  {
    var p, size := s[..q], SizeOf(s[..5]);
    assert ParseEnd(s) >= 5;
    assert p[..5] == s[..5];
    if size >= 4 {
      assert p[1 + size..] == s[1 + size..][..q - 1 - size];
      PrefixParse(s[1 + size..], q - 1 - size);
    }
  }

  lemma AuthFirst(b: seq<byte>)
    requires |b| >= 5 && b[0] == AUTHENTICATION
    ensures Feed(FRESH, b).auth
  {
    var header := [] + b[..5];
    assert header[0] == AUTHENTICATION;
    if SizeOf(header) >= 4 {
      FeedKeepsAuth(Tracker([], SizeOf(header) - 4, true), b[5..]);
    }
  }

  lemma TwoChunks(first: seq<byte>, second: seq<byte>)
    ensures Concat([first, second]) == first + second
    ensures FeedAll(FRESH, [first, second]) == Feed(Feed(FRESH, first), second)
  {
    hide Feed;
    var last: seq<seq<byte>> := [second];
    assert [first, second][1..] == last;
    assert Concat(last) == second;
    assert FeedAll(Feed(FRESH, first), last) == FeedAll(Feed(Feed(FRESH, first), second), last[1..]);
  }

  lemma CutBeforeAuth(s: seq<byte>, q: nat)
    requires !LengthsOk(s) && !SeesAuth(s) && ParseEnd(s) <= q && q + 5 <= |s| && s[q] == AUTHENTICATION
    ensures !CuttingIrrelevant(s)
  {
    hide Feed, FeedAll, Concat, LengthsOk, SeesAuth, ParseEnd;
    TwoChunks(s[..q], s[q..]);
    assert s[..q] + s[q..] == s;
    PrefixParse(s, q);
    assert [] + s[..q][0..] == s[..q];
    FeedToEnd(FRESH, s[..q], s[..q]);
    AuthFirst(s[q..]);
  }

  lemma {:induction false} FeedKeepsAuth(t: Tracker, b: seq<byte>)
    requires Valid(t) && t.auth
    ensures Feed(t, b).auth
    decreases |b|
  {
    if b != [] {
      FeedKeepsAuth(Bite(t, b).0, Bite(t, b).1);
    }
  }

  /** No way to read a header of type 'R' from here on, whatever the cutting. */
  predicate Harmless(t: Tracker, rest: seq<byte>)
    requires Valid(t)
  {
    && !t.auth
    && (!AuthByteFrom(t.partial + rest, 0) ||
        (t.remaining <= |rest| &&
         var s := t.partial + rest[t.remaining..];
         !LengthsOk(s) && !SeesAuth(s) && !AuthByteFrom(s, ParseEnd(s))))
  }

  lemma AuthByteSuffix(s: seq<byte>, k: nat, at: nat, from: nat)
    requires k <= |s| && at <= from + k && !AuthByteFrom(s, at)
    ensures !AuthByteFrom(s[k..], from)
  {
    assert forall q :: 0 <= q < |s[k..]| ==> s[k..][q] == s[k + q];
  }

  lemma NoAuthAtStart(s: seq<byte>)
    requires |s| >= 5 && !AuthByteFrom(s, 0)
    ensures s[0] != AUTHENTICATION
  {}

  lemma BiteClean(t: Tracker, b: seq<byte>, rest: seq<byte>)
    requires Valid(t) && b != [] && !t.auth && !AuthByteFrom(t.partial + (b + rest), 0)
    ensures var (u, left) := Bite(t, b); !u.auth && !AuthByteFrom(u.partial + (left + rest), 0)
  {
    hide AuthByteFrom, SizeOf;
    var (u, left) := Bite(t, b);
    var take := Min(|b|, if t.remaining > 0 then t.remaining else 5 - |t.partial|);
    var header := t.partial + b[..take];
    var whole := t.partial + (b + rest);
    assert whole == header + (b[take..] + rest);
    var drop := |whole| - |u.partial + (left + rest)|;
    assert whole[drop..] == u.partial + (left + rest);
    AuthByteSuffix(whole, drop, 0, 0);
    if t.remaining == 0 && |header| == 5 {
      NoAuthAtStart(whole);
    }
  }

  lemma HeaderHarmless(t: Tracker, b: seq<byte>, rest: seq<byte>, take: nat)
    requires Valid(t) && b != [] && !t.auth && t.remaining == 0 && take <= |b| && |t.partial| + take == 5
    requires var s := t.partial + (b + rest); !LengthsOk(s) && !SeesAuth(s) && !AuthByteFrom(s, ParseEnd(s))
    ensures var header, left := t.partial + b[..take], b[take..];
      && header[0] != AUTHENTICATION
      && if SizeOf(header) < 4 then Harmless(FRESH, [] + rest) else Harmless(Tracker([], SizeOf(header) - 4, false), left + rest)
  {
    hide SeesAuth, LengthsOk, ParseEnd, SizeOf, AuthByteFrom;
    var header, left := t.partial + b[..take], b[take..];
    var whole, size := t.partial + (b + rest), SizeOf(header);
    assert whole == header + (left + rest);
    ParseHeader(header, left + rest);
    if size < 4 {
      AuthByteSuffix(whole, 5 + |left|, 5, 0);
      assert whole[5 + |left|..] == rest && [] + ([] + rest) == rest;
    } else {
      assert whole[1 + size..] == (left + rest)[size - 4..] == [] + (left + rest)[size - 4..];
      AuthByteSuffix(whole, 1 + size, ParseEnd(whole), ParseEnd(whole[1 + size..]));
    }
  }

  lemma BiteHarmless(t: Tracker, b: seq<byte>, rest: seq<byte>)
    requires Valid(t) && b != [] && Harmless(t, b + rest)
    ensures var (u, left) := Bite(t, b); Harmless(u, left + rest)
  {
    hide SeesAuth, LengthsOk, ParseEnd, SizeOf, AuthByteFrom;
    var (u, left) := Bite(t, b);
    if !AuthByteFrom(t.partial + (b + rest), 0) {
      BiteClean(t, b, rest);
    } else if t.remaining > 0 {
      assert (b + rest)[t.remaining..] == (left + rest)[u.remaining..];
    } else {
      var take := Min(|b|, 5 - |t.partial|);
      assert (b + rest)[0..] == b + rest;
      if |t.partial| + take == 5 {
        HeaderHarmless(t, b, rest, take);
      } else {
        assert u.partial + (left + rest)[0..] == t.partial + b[..take] + (b[take..] + rest) == t.partial + (b + rest);
      }
    }
  }

  lemma {:induction false} HarmlessStays(t: Tracker, b: seq<byte>, rest: seq<byte>)
    requires Valid(t) && Harmless(t, b + rest)
    ensures Harmless(Feed(t, b), rest)
    decreases |b|
  {
    hide Bite, Harmless;
    if b == [] {
      assert b + rest == rest;
    } else {
      BiteHarmless(t, b, rest);
      HarmlessStays(Bite(t, b).0, Bite(t, b).1, rest);
    }
  }

  lemma {:induction false} HarmlessToEnd(t: Tracker, chunks: seq<seq<byte>>)
    requires Valid(t) && Harmless(t, Concat(chunks))
    ensures !FeedAll(t, chunks).auth
    decreases |chunks|
  {
    if chunks != [] {
      HarmlessStays(t, chunks[0], Concat(chunks[1..]));
      HarmlessToEnd(Feed(t, chunks[0]), chunks[1..]);
    }
  }

  /** The cutting into reads never changes the answer exactly when no complete header
      has a short length, or an 'R' header comes first, or no byte 'R' with four more
      bytes after it follows the short header. */
  lemma CuttingIrrelevantExactly(s: seq<byte>)
    ensures CuttingIrrelevant(s) <==> LengthsOk(s) || SeesAuth(s) || !AuthByteFrom(s, ParseEnd(s))
  {
    forall chunks | Concat(chunks) == s && (LengthsOk(s) || SeesAuth(s) || !AuthByteFrom(s, ParseEnd(s)))
      ensures FeedAll(FRESH, chunks).auth == SeesAuth(s)
    {
      assert [] + s[0..] == s;
      if LengthsOk(s) || SeesAuth(s) {
        FeedAllRefines(FRESH, chunks);
      } else {
        HarmlessToEnd(FRESH, chunks);
      }
    }
    if !LengthsOk(s) && !SeesAuth(s) && AuthByteFrom(s, ParseEnd(s)) {
      var q :| ParseEnd(s) <= q && q + 5 <= |s| && s[q] == AUTHENTICATION;
      CutBeforeAuth(s, q);
    }
  }

  /** A message of length zero, and then bytes that begin with 'R': read at once they are
      dropped, and cut behind the short header they pass for authentication. */
  lemma CuttingCanMatter()
    ensures var s: seq<byte> := [0, 0, 0, 0, 0, 82, 0, 0, 0, 4];
      && !SeesAuth(s) && !Feed(FRESH, s).auth
      && Feed(Feed(FRESH, s[..5]), s[5..]).auth
      && !CuttingIrrelevant(s)
  {
    var s: seq<byte> := [0, 0, 0, 0, 0, 82, 0, 0, 0, 4];
    assert s[..5] == [0, 0, 0, 0, 0] && [] + s[..5] == s[..5];
    assert SizeOf(s[..5]) == 0;
    assert Bite(FRESH, s) == (FRESH, []);
    var first := s[..5];
    assert first[..5] == first;
    assert Bite(FRESH, first) == (FRESH, []);
    assert Feed(FRESH, first) == FRESH;
    AuthFirst(s[5..]);
    CutBeforeAuth(s, 5);
  }

  // ---------------------------------------------------------------------
  // The reader
  // ---------------------------------------------------------------------

  class FrameReader {
    const header: array<byte>
    var used: nat
    var remaining: nat
    var authStarted: bool

    ghost predicate Valid()
      reads this, header
    {
      header.Length == 5 && used < 5 && (used > 0 ==> remaining == 0)
    }

    ghost function State(): (t: Tracker)
      requires Valid()
      reads this, header
      ensures |t.partial| == used && t.remaining == remaining
    {
      Tracker(header[..used], remaining, authStarted)
    }

    constructor ()
      ensures Valid() && fresh(header) && State() == FRESH
    {
      header := new byte[5](_ => 0);
      used, remaining, authStarted := 0, 0, false;
    }

    method Fill(b: seq<byte>)
      requires header.Length == 5 && used + |b| <= 5
      modifies header
      ensures header[..used + |b|] == old(header[..used]) + b
    {
      forall i | 0 <= i < |b| {
        header[used + i] := b[i];
      }
      assert header[..used] == old(header[..used]) && header[used..used + |b|] == b;
      assert header[..used + |b|] == header[..used] + header[used..used + |b|];
    }

    /** The bookkeeping for one chunk that the underlying reader returned. */
    method Read(p: seq<byte>)
      requires Valid()
      modifies this, header
      ensures Valid() && State() == Feed(old(State()), p)
    {
      hide SizeOf;
      var b := p;
      while b != []
        invariant Valid() && Feed(State(), b) == Feed(old(State()), p)
        decreases |b|
      {
        ghost var next := Bite(State(), b);
        assert Feed(State(), b) == Feed(next.0, next.1);
        assert Feed(next.0, []) == next.0;
        hide Feed;
        if remaining > 0 {
          var take := Min(|b|, remaining);
          remaining, b := remaining - take, b[take..];
        } else {
          var take := Min(|b|, 5 - used);
          Fill(b[..take]);
          used, b := used + take, b[take..];
          if used == 5 {
            assert header[..5] == header[..];
            if header[0] == AUTHENTICATION {
              authStarted := true;
            }
            var size := SizeOf(header[..]);
            used := 0;
            if size < 4 {
              return;
            }
            remaining := size - 4;
          }
        }
        assert State() == next.0 && b == next.1;
      }
    }
  }
}
