/**
 The bounded JSON check: a stack machine reads the token stream of one JSON text
 (RFC 8259, section 4) and rejects duplicate keys at every depth and, when a limit
 is set, values nested too deeply. It is proved equivalent to a recursive reading.
 */
module JsonKeys {

  /** A JSON value with decoded keys. */
  datatype Value =
    | Scalar
    | Text(text: string)
    | Arr(items: seq<Value>)
    | Obj(members: seq<Member>)

  datatype Member = Member(key: string, value: Value)

  datatype Token = OpenObject | CloseObject | OpenArray | CloseArray | Word(text: string) | Literal

  // ---------------------------------------------------------------------
  // The reference: a recursive reading
  // ---------------------------------------------------------------------

  /** No object in v, at any depth, has two equal keys, and no value has more than
      maxDepth enclosing containers (0 means no limit); v itself has `depth`. */
  ghost predicate Fine(v: Value, depth: nat, maxDepth: nat) {
    && (maxDepth > 0 ==> depth <= maxDepth)
    && match v {
      case Scalar => true
      case Text(_) => true
      case Arr(items) => forall i :: 0 <= i < |items| ==> Fine(items[i], depth + 1, maxDepth)
      case Obj(members) =>
        && (forall i, j :: 0 <= i < j < |members| ==> members[i].key != members[j].key)
        && forall i :: 0 <= i < |members| ==> Fine(members[i].value, depth + 1, maxDepth)
    }
  }

  /** The decoder's token stream. */
  function Tokens(v: Value): seq<Token> {
    match v {
      case Scalar => [Literal]
      case Text(t) => [Word(t)]
      case Arr(items) => [OpenArray] + ItemTokens(items) + [CloseArray]
      case Obj(members) => [OpenObject] + MemberTokens(members) + [CloseObject]
    }
  }

  function ItemTokens(items: seq<Value>): seq<Token> {
    if items == [] then [] else Tokens(items[0]) + ItemTokens(items[1..])
  }

  function MemberTokens(members: seq<Member>): seq<Token> {
    if members == [] then []
    else [Word(members[0].key)] + Tokens(members[0].value) + MemberTokens(members[1..])
  }

  // ---------------------------------------------------------------------
  // The machine
  // ---------------------------------------------------------------------

  /** `keys` is None for an array; `key` says that a key or the end comes next. */
  datatype Frame = ArrayFrame | ObjectFrame(keys: set<string>, key: bool)

  datatype Result = Ok(stack: seq<Frame>) | Bad

  function Top(stack: seq<Frame>): Frame
    requires stack != []
  {
    stack[|stack| - 1]
  }

  function Pop(stack: seq<Frame>): seq<Frame>
    requires stack != []
  {
    stack[..|stack| - 1]
  }

  predicate ExpectsKey(stack: seq<Frame>) {
    stack != [] && Top(stack).ObjectFrame? && Top(stack).key
  }

  /** After a complete value, the enclosing object expects its next key. */
  function Complete(stack: seq<Frame>): seq<Frame> {
    if stack != [] && Top(stack).ObjectFrame? then Pop(stack) + [Top(stack).(key := true)] else stack
  }

  /** The effect of one token. */
  function Read(stack: seq<Frame>, token: Token, maxDepth: nat): Result {
    if token.CloseObject? || token.CloseArray? then
      if stack == [] then Bad else Ok(Complete(Pop(stack)))
    else if ExpectsKey(stack) then
      if !token.Word? || token.text in Top(stack).keys then Bad
      else Ok(Pop(stack) + [ObjectFrame(Top(stack).keys + {token.text}, false)])
    else if maxDepth > 0 && |stack| > maxDepth then Bad
    else match token {
      case OpenObject => Ok(stack + [ObjectFrame({}, true)])
      case OpenArray => Ok(stack + [ArrayFrame])
      case _ => Ok(Complete(stack))
    }
  }

  function ReadAll(stack: seq<Frame>, tokens: seq<Token>, maxDepth: nat): Result
    decreases |tokens|
  {
    if tokens == [] then Ok(stack)
    else
      var r := Read(stack, tokens[0], maxDepth);
      if r.Bad? then Bad else ReadAll(r.stack, tokens[1..], maxDepth)
  }

  lemma ReadCons(stack: seq<Frame>, token: Token, rest: seq<Token>, maxDepth: nat)
    ensures ReadAll(stack, [token] + rest, maxDepth) ==
      (var r := Read(stack, token, maxDepth); if r.Bad? then Bad else ReadAll(r.stack, rest, maxDepth))
  {
    assert ([token] + rest)[1..] == rest;
  }

  /** Reading the tokens of one value either fails, when the recursive reading
      does, or completes one value and changes nothing else. */
  lemma {:induction false} ReadValue(v: Value, stack: seq<Frame>, rest: seq<Token>, maxDepth: nat)
    requires !ExpectsKey(stack)
    ensures ReadAll(stack, Tokens(v) + rest, maxDepth) ==
      if Fine(v, |stack|, maxDepth) then ReadAll(Complete(stack), rest, maxDepth) else Bad
    decreases v, 2
  {
    match v {
      case Scalar => ReadCons(stack, Literal, rest, maxDepth);
      case Text(t) => ReadCons(stack, Word(t), rest, maxDepth);
      case Arr(_) => ReadArray(v, stack, rest, maxDepth);
      case Obj(_) => ReadObject(v, stack, rest, maxDepth);
    }
  }

  lemma {:induction false} ReadArray(v: Value, stack: seq<Frame>, rest: seq<Token>, maxDepth: nat)
    requires v.Arr? && !ExpectsKey(stack)
    ensures ReadAll(stack, Tokens(v) + rest, maxDepth) ==
      if Fine(v, |stack|, maxDepth) then ReadAll(Complete(stack), rest, maxDepth) else Bad
    decreases v, 1
  {
    var inner, tail := stack + [ArrayFrame], [CloseArray] + rest;
    ArrayTokens(v, rest);
    OpenArrayStep(stack, ItemTokens(v.items) + tail, maxDepth);
    if maxDepth == 0 || |stack| <= maxDepth {
      ReadItems(v, 0, inner, tail, maxDepth);
      assert v.items[0..] == v.items;
      CloseArrayStep(stack, rest, maxDepth);
    }
  }

  lemma ArrayTokens(v: Value, rest: seq<Token>)
    requires v.Arr?
    ensures Tokens(v) + rest == [OpenArray] + (ItemTokens(v.items) + ([CloseArray] + rest))
  {
  }

  lemma OpenArrayStep(stack: seq<Frame>, more: seq<Token>, maxDepth: nat)
    requires !ExpectsKey(stack)
    ensures ReadAll(stack, [OpenArray] + more, maxDepth) ==
      if maxDepth == 0 || |stack| <= maxDepth then ReadAll(stack + [ArrayFrame], more, maxDepth) else Bad
  {
    ReadCons(stack, OpenArray, more, maxDepth);
  }

  lemma CloseArrayStep(stack: seq<Frame>, rest: seq<Token>, maxDepth: nat)
    ensures ReadAll(stack + [ArrayFrame], [CloseArray] + rest, maxDepth) == ReadAll(Complete(stack), rest, maxDepth)
  {
    ReadCons(stack + [ArrayFrame], CloseArray, rest, maxDepth);
    assert Pop(stack + [ArrayFrame]) == stack;
  }

  lemma ObjectTokens(v: Value, rest: seq<Token>)
    requires v.Obj?
    ensures Tokens(v) + rest == [OpenObject] + (MemberTokens(v.members) + ([CloseObject] + rest))
  {
  }

  lemma FineObject(v: Value, depth: nat, maxDepth: nat)
    requires v.Obj?
    ensures Fine(v, depth, maxDepth) <==>
      (maxDepth > 0 ==> depth <= maxDepth) && RestFine(v.members, 0, depth + 1, maxDepth)
  {
  }

  lemma {:induction false} ReadObject(v: Value, stack: seq<Frame>, rest: seq<Token>, maxDepth: nat)
    requires v.Obj? && !ExpectsKey(stack)
    ensures ReadAll(stack, Tokens(v) + rest, maxDepth) ==
      if Fine(v, |stack|, maxDepth) then ReadAll(Complete(stack), rest, maxDepth) else Bad
    decreases v, 1
  {
    var tail := [CloseObject] + rest;
    var members := v.members;
    ObjectTokens(v, rest);
    FineObject(v, |stack|, maxDepth);
    OpenStep(stack, MemberTokens(members) + tail, maxDepth);
    if maxDepth == 0 || |stack| <= maxDepth {
      ReadMembers(v, 0, stack, tail, maxDepth);
      assert members[0..] == members && KeysBefore(members, 0) == {};
      CloseStep(stack, KeysBefore(members, |members|), rest, maxDepth);
    }
  }

  lemma OpenStep(stack: seq<Frame>, more: seq<Token>, maxDepth: nat)
    requires !ExpectsKey(stack)
    ensures ReadAll(stack, [OpenObject] + more, maxDepth) ==
      if maxDepth == 0 || |stack| <= maxDepth then ReadAll(stack + [ObjectFrame({}, true)], more, maxDepth) else Bad
  {
    ReadCons(stack, OpenObject, more, maxDepth);
  }

  lemma CloseStep(stack: seq<Frame>, keys: set<string>, rest: seq<Token>, maxDepth: nat)
    ensures ReadAll(stack + [ObjectFrame(keys, true)], [CloseObject] + rest, maxDepth)
         == ReadAll(Complete(stack), rest, maxDepth)
  {
    var last := stack + [ObjectFrame(keys, true)];
    ReadCons(last, CloseObject, rest, maxDepth);
    assert Pop(last) == stack;
  }

  lemma {:induction false} ReadItems(v: Value, k: nat, stack: seq<Frame>, rest: seq<Token>, maxDepth: nat)
    requires v.Arr? && k <= |v.items| && stack != [] && Top(stack).ArrayFrame?
    ensures ReadAll(stack, ItemTokens(v.items[k..]) + rest, maxDepth) ==
      if forall i :: k <= i < |v.items| ==> Fine(v.items[i], |stack|, maxDepth) then ReadAll(stack, rest, maxDepth) else Bad
    decreases v, 0, |v.items| - k
  {
    var items := v.items;
    if k == |items| {
      assert items[k..] == [] && ItemTokens(items[k..]) + rest == rest;
    } else {
      var more := ItemTokens(items[k + 1..]) + rest;
      assert items[k..][0] == items[k] && items[k..][1..] == items[k + 1..];
      assert ItemTokens(items[k..]) + rest == Tokens(items[k]) + more;
      ReadValue(items[k], stack, more, maxDepth);
      ReadItems(v, k + 1, stack, rest, maxDepth);
      assert Complete(stack) == stack;
    }
  }

  function KeysBefore(members: seq<Member>, k: nat): set<string>
    requires k <= |members|
  {
    set i | 0 <= i < k :: members[i].key
  }

  /** The members from k on are fine and bring new keys. */
  ghost predicate RestFine(members: seq<Member>, k: nat, depth: nat, maxDepth: nat)
    requires k <= |members|
  {
    && (forall i, j :: 0 <= i < j < |members| && k <= j ==> members[i].key != members[j].key)
    && forall i :: k <= i < |members| ==> Fine(members[i].value, depth, maxDepth)
  }

  lemma RestFineStep(members: seq<Member>, k: nat, depth: nat, maxDepth: nat)
    requires k < |members|
    ensures RestFine(members, k, depth, maxDepth) <==>
      members[k].key !in KeysBefore(members, k) && Fine(members[k].value, depth, maxDepth)
      && RestFine(members, k + 1, depth, maxDepth)
  {
  }

  lemma {:induction false} ReadMembers(v: Value, k: nat, below: seq<Frame>, rest: seq<Token>, maxDepth: nat)
    requires v.Obj? && k <= |v.members|
    ensures
      var keys := KeysBefore(v.members, k);
      ReadAll(below + [ObjectFrame(keys, true)], MemberTokens(v.members[k..]) + rest, maxDepth) ==
        if RestFine(v.members, k, |below| + 1, maxDepth)
        then ReadAll(below + [ObjectFrame(KeysBefore(v.members, |v.members|), true)], rest, maxDepth)
        else Bad
    decreases v, 0, |v.members| - k
  {
    var members := v.members;
    var keys := KeysBefore(members, k);
    var stack := below + [ObjectFrame(keys, true)];
    if k == |members| {
      assert members[k..] == [] && MemberTokens(members[k..]) + rest == rest;
    } else {
      var key, value := members[k].key, members[k].value;
      var more := MemberTokens(members[k + 1..]) + rest;
      assert members[k..][0] == members[k] && members[k..][1..] == members[k + 1..];
      assert MemberTokens(members[k..]) + rest == [Word(key)] + (Tokens(value) + more);
      ReadCons(stack, Word(key), Tokens(value) + more, maxDepth);
      RestFineStep(members, k, |below| + 1, maxDepth);
      if key !in keys {
        var named := below + [ObjectFrame(keys + {key}, false)];
        assert Pop(stack) == below;
        ReadValue(value, named, more, maxDepth);
        ReadMembers(v, k + 1, below, rest, maxDepth);
        assert KeysBefore(members, k + 1) == keys + {key};
        assert Complete(named) == below + [ObjectFrame(keys + {key}, true)];
      }
    }
  }

  /** The machine accepts a text exactly when the recursive reading does, and its
      stack is empty at the end. */
  lemma MachineAgrees(v: Value, maxDepth: nat)
    ensures ReadAll([], Tokens(v), maxDepth) == if Fine(v, 0, maxDepth) then Ok([]) else Bad
  {
    assert Tokens(v) + [] == Tokens(v);
    ReadValue(v, [], [], maxDepth);
  }

  /** The check over the token stream of a valid text. */
  method CheckTokens(tokens: seq<Token>, maxDepth: nat) returns (ok: bool)
    ensures ok == ReadAll([], tokens, maxDepth).Ok?
  {
    var stack: seq<Frame> := [];
    for i := 0 to |tokens|
      invariant ReadAll([], tokens, maxDepth) == ReadAll(stack, tokens[i..], maxDepth)
    {
      var token := tokens[i];
      assert tokens[i..][0] == token && tokens[i..][1..] == tokens[i + 1..];
      if token == CloseObject || token == CloseArray {
        if stack == [] {
          return false;
        }
        stack := stack[..|stack| - 1];
        stack := CompleteTop(stack);
        continue;
      }
      if |stack| > 0 && stack[|stack| - 1].ObjectFrame? && stack[|stack| - 1].key {
        var f := stack[|stack| - 1];
        if !token.Word? || token.text in f.keys {
          return false;
        }
        stack := stack[..|stack| - 1] + [ObjectFrame(f.keys + {token.text}, false)];
        continue;
      }
      if maxDepth > 0 && |stack| > maxDepth {
        return false;
      }
      match token {
        case OpenObject => stack := stack + [ObjectFrame({}, true)];
        case OpenArray => stack := stack + [ArrayFrame];
        case _ => stack := CompleteTop(stack);
      }
    }
    assert tokens[|tokens|..] == [];
    return true;
  }

  method CompleteTop(stack: seq<Frame>) returns (completed: seq<Frame>)
    ensures completed == Complete(stack)
  {
    completed := stack;
    if |stack| > 0 && stack[|stack| - 1].ObjectFrame? {
      completed := stack[..|stack| - 1] + [stack[|stack| - 1].(key := true)];
    }
  }

  /** For every valid JSON text: accepted exactly when no object repeats a key and
      no value is nested too deeply. */
  method CheckJson(v: Value, maxDepth: nat) returns (ok: bool)
    ensures ok == Fine(v, 0, maxDepth)
  {
    MachineAgrees(v, maxDepth);
    ok := CheckTokens(Tokens(v), maxDepth);
  }

  // ---------------------------------------------------------------------
  // What a limit means
  // ---------------------------------------------------------------------

  /** The most containers that enclose any value inside v. */
  function Height(v: Value): nat {
    match v {
      case Scalar => 0
      case Text(_) => 0
      case Arr(items) => Tallest(seq(|items|, i requires 0 <= i < |items| => Height(items[i])))
      case Obj(members) => Tallest(seq(|members|, i requires 0 <= i < |members| => Height(members[i].value)))
    }
  }

  /** One more than the largest, or 0 for an empty container. */
  function Tallest(heights: seq<nat>): nat {
    if heights == [] then 0
    else
      var rest := Tallest(heights[1..]);
      if heights[0] + 1 > rest then heights[0] + 1 else rest
  }

  lemma {:induction false} TallestBound(heights: seq<nat>, bound: nat)
    ensures Tallest(heights) <= bound <==> forall i :: 0 <= i < |heights| ==> heights[i] + 1 <= bound
  {
    if heights != [] {
      TallestBound(heights[1..], bound);
      assert forall i :: 0 < i < |heights| ==> heights[i] == heights[1..][i - 1];
    }
  }

  /** A limit rejects exactly the texts that are taller than it; below the limit it
      changes nothing. */
  lemma {:induction false} LimitIsHeight(v: Value, depth: nat, maxDepth: nat)
    requires maxDepth > 0
    ensures Fine(v, depth, maxDepth) <==> Fine(v, depth, 0) && depth + Height(v) <= maxDepth
  {
    match v {
      case Scalar =>
      case Text(_) =>
      case Arr(items) =>
        var heights := seq(|items|, i requires 0 <= i < |items| => Height(items[i]));
        forall i | 0 <= i < |items|
          ensures Fine(items[i], depth + 1, maxDepth) <==> Fine(items[i], depth + 1, 0) && depth + 1 + heights[i] <= maxDepth
        {
          LimitIsHeight(items[i], depth + 1, maxDepth);
        }
        if depth <= maxDepth {
          TallestBound(heights, maxDepth - depth);
        }
      case Obj(members) =>
        var heights := seq(|members|, i requires 0 <= i < |members| => Height(members[i].value));
        forall i | 0 <= i < |members|
          ensures Fine(members[i].value, depth + 1, maxDepth)
             <==> Fine(members[i].value, depth + 1, 0) && depth + 1 + heights[i] <= maxDepth
        {
          LimitIsHeight(members[i].value, depth + 1, maxDepth);
        }
        if depth <= maxDepth {
          TallestBound(heights, maxDepth - depth);
        }
    }
  }
}
