/** evaluatePostfix: the postfix string is read back word by word, as
    `iss >> token` reads it, and evaluated on a stack of values whose top is
    the last element. */
module Evaluator {
  import opened Results
  import opened Operators
  import opened Numerals
  import opened Converter

  /** The longest prefix of s free of whitespace. */
  function FirstWord(s: string): (w: string)
    ensures w <= s && NoSpace(w)
    ensures |w| < |s| ==> IsSpace(s[|w|])
    ensures s != [] && !IsSpace(s[0]) ==> |w| > 0
  {
    if s != [] && !IsSpace(s[0]) then [s[0]] + FirstWord(s[1..]) else []
  }

  /** The words `iss >> token` extracts from s, in order. */
  function Words(s: string): seq<string>
    decreases |s|
  {
    if s == [] then []
    else if IsSpace(s[0]) then Words(s[1..])
    else
      var w := FirstWord(s);
      [w] + Words(s[|w|..])
  }

  /** One word of the loop: numbers are pushed as std::stof reads them,
      operators pop b, then a, and push applyOp(a, b); any other word is
      skipped. `top` on an empty std::stack is undefined behaviour in the
      source; here it is the error StackUnderflow. */
  function Exec(stack: seq<real>, t: string, pow: (real, real) -> real): Result<seq<real>> {
    if IsNumber(t) then
      match ParseNumber(t)
      case None => Err(MalformedNumber)
      case Some(v) => Ok(stack + [v])
    else if IsOperator(t) then
      if |stack| < 2 then Err(StackUnderflow)
      else
        match ApplyOp(stack[|stack| - 2], stack[|stack| - 1], t[0], pow)
        case Err(e) => Err(e)
        case Ok(v) => Ok(stack[..|stack| - 2] + [v])
    else Ok(stack)
  }

  /** The loop over the remaining words ts from the given stack. */
  function Run(stack: seq<real>, ts: seq<string>, pow: (real, real) -> real): Result<seq<real>>
    decreases |ts|
  {
    if ts == [] then Ok(stack)
    else
      match Exec(stack, ts[0], pow)
      case Err(e) => Err(e)
      case Ok(stack') => Run(stack', ts[1..], pow)
  }

  /** The value evaluatePostfix returns: the top of the stack once every
      word is read, whatever lies beneath it. */
  function Evaluate(postfix: string, pow: (real, real) -> real): Result<real> {
    match Run([], Words(postfix), pow)
    case Err(e) => Err(e)
    case Ok(stack) => if stack == [] then Err(StackUnderflow) else Ok(stack[|stack| - 1])
  }

  /** evaluatePostfix: the string stream is a cursor into postfix. */
  method EvaluatePostfix(postfix: string, pow: (real, real) -> real) returns (r: Result<real>)
    ensures r == Evaluate(postfix, pow)
  {
    var stack: seq<real> := [];
    var i := 0;
    while i < |postfix|
      invariant 0 <= i <= |postfix|
      invariant Run(stack, Words(postfix[i..]), pow) == Run([], Words(postfix), pow)
      decreases |postfix| - i
    {
      if IsSpace(postfix[i]) {
        assert postfix[i..][1..] == postfix[i + 1..];
        i := i + 1;
      } else {
        var j := WordEnd(postfix, i);
        var token := postfix[i..j];
        WordAt(postfix, i, j);
        RunCons(stack, token, Words(postfix[j..]), pow);
        var next := ExecToken(stack, token, pow);
        if next.Err? {
          return Err(next.error);
        }
        stack := next.value;
        i := j;
      }
    }
    assert postfix[|postfix|..] == [];
    if stack == [] {
      return Err(StackUnderflow);
    }
    return Ok(stack[|stack| - 1]);
  }

  /** One word of evaluatePostfix's loop: a number is pushed, an operator
      pops its right and then its left operand and pushes the result. */
  method ExecToken(stack: seq<real>, token: string, pow: (real, real) -> real) returns (r: Result<seq<real>>)
    ensures r == Exec(stack, token, pow)
  {
    if IsNumber(token) {
      var v := ParseNumber(token);
      if v.None? {
        return Err(MalformedNumber);
      }
      return Ok(stack + [v.value]);
    } else if IsOperator(token) {
      var rest := stack;
      if |rest| == 0 {
        return Err(StackUnderflow);
      }
      var b := rest[|rest| - 1];
      rest := rest[..|rest| - 1];
      if |rest| == 0 {
        return Err(StackUnderflow);
      }
      var a := rest[|rest| - 1];
      rest := rest[..|rest| - 1];
      var x := ApplyOp(a, b, token[0], pow);
      if x.Err? {
        return Err(x.error);
      }
      assert rest == stack[..|stack| - 2];
      return Ok(rest + [x.value]);
    }
    return Ok(stack);
  }

  /** The end of the word that starts at i: `>>` reads up to the next space. */
  method WordEnd(s: string, i: nat) returns (j: nat)
    requires i < |s| && !IsSpace(s[i])
    ensures i < j <= |s| && (j == |s| || IsSpace(s[j]))
    ensures forall k :: i <= k < j ==> !IsSpace(s[k])
  {
    j := i;
    while j < |s| && !IsSpace(s[j])
      invariant i <= j <= |s|
      invariant forall k :: i <= k < j ==> !IsSpace(s[k])
      decreases |s| - j
    {
      j := j + 1;
    }
  }

  /** The cursor loop reads exactly the next word. */
  lemma WordAt(s: string, i: int, j: int)
    requires 0 <= i < j <= |s|
    requires forall k :: i <= k < j ==> !IsSpace(s[k])
    requires j == |s| || IsSpace(s[j])
    ensures Words(s[i..]) == [s[i..j]] + Words(s[j..])
  {
    var w := FirstWord(s[i..]);
    FirstWordStop(s[i..j], s[j..]);
    assert s[i..] == s[i..j] + s[j..];
    assert s[i..][|w|..] == s[j..];
  }

  /** A non-empty word followed by whitespace or the end is read whole. */
  lemma {:induction false} FirstWordStop(w: string, rest: string)
    requires NoSpace(w)
    requires rest == [] || IsSpace(rest[0])
    ensures FirstWord(w + rest) == w
  {
    if w == [] {
      assert w + rest == rest;
    } else {
      assert (w + rest)[1..] == w[1..] + rest;
      FirstWordStop(w[1..], rest);
    }
  }

  /** Reading back what infixToPostfix wrote gives its tokens back, as long
      as none of them is empty or holds whitespace. */
  lemma {:induction false} WordsOfJoin(ts: seq<string>)
    requires forall i :: 0 <= i < |ts| ==> |ts[i]| > 0 && NoSpace(ts[i])
    ensures Words(Join(ts)) == ts
  {
    if ts != [] {
      var t, rest := ts[0], ts[1..];
      var s := t + " " + Join(rest);
      assert s == t + (" " + Join(rest));
      FirstWordStop(t, " " + Join(rest));
      assert s[0] == t[0];
      assert s[|t|..] == " " + Join(rest);
      assert (" " + Join(rest))[1..] == Join(rest);
      WordsOfJoin(rest);
    }
  }

  /** How many values a word sequence leaves on a stack of height h, or
      None when some operator finds fewer than two values. */
  function HeightFrom(h: nat, ts: seq<string>): Option<nat>
    decreases |ts|
  {
    if ts == [] then Some(h)
    else if IsNumber(ts[0]) then HeightFrom(h + 1, ts[1..])
    else if IsOperator(ts[0]) then (if h < 2 then None else HeightFrom(h - 1, ts[1..]))
    else HeightFrom(h, ts[1..])
  }

  lemma {:induction false} HeightAppend(h: nat, a: seq<string>, b: seq<string>)
    ensures HeightFrom(h, a).None? ==> HeightFrom(h, a + b).None?
    ensures HeightFrom(h, a).Some? ==> HeightFrom(h, a + b) == HeightFrom(HeightFrom(h, a).value, b)
    decreases |a|
  {
    if a == [] {
      assert a + b == b;
    } else {
      assert (a + b)[0] == a[0] && (a + b)[1..] == a[1..] + b;
      if IsNumber(a[0]) {
        HeightAppend(h + 1, a[1..], b);
      } else if IsOperator(a[0]) {
        if h >= 2 {
          HeightAppend(h - 1, a[1..], b);
        }
      } else {
        HeightAppend(h, a[1..], b);
      }
    }
  }

  /** The stack heights the evaluator goes through are those HeightFrom
      counts: a run that succeeds ends at that height, a run whose count
      fails fails, and a run fails with StackUnderflow only when its count
      fails. Every other failure is a malformed number or a zero divisor. */
  lemma {:induction false} RunHeight(stack: seq<real>, ts: seq<string>, pow: (real, real) -> real)
    ensures Run(stack, ts, pow).Ok? ==> HeightFrom(|stack|, ts) == Some(|Run(stack, ts, pow).value|)
    ensures HeightFrom(|stack|, ts).None? ==> Run(stack, ts, pow).Err?
    ensures Run(stack, ts, pow) == Err(StackUnderflow) ==> HeightFrom(|stack|, ts).None?
    ensures Run(stack, ts, pow).Err? ==>
              Run(stack, ts, pow).error in {StackUnderflow, MalformedNumber, DivisionByZero, ModuloByZero}
    decreases |ts|
  {
    if ts != [] {
      var t := ts[0];
      if Exec(stack, t, pow).Ok? {
        var stack' := Exec(stack, t, pow).value;
        assert |stack'| == (if IsNumber(t) then |stack| + 1 else if IsOperator(t) then |stack| - 1 else |stack|);
        RunHeight(stack', ts[1..], pow);
      }
    }
  }

  /** evaluatePostfix runs out of values exactly when the count of its
      words fails or ends at zero, unless a malformed number or a zero
      divisor stops it first; when it succeeds on words that leave one
      value, that value is the whole stack. */
  lemma EvaluateHeight(postfix: string, pow: (real, real) -> real)
    ensures HeightFrom(0, Words(postfix)) in {None, Some(0)} ==> Evaluate(postfix, pow).Err?
    ensures Evaluate(postfix, pow) == Err(StackUnderflow) ==> HeightFrom(0, Words(postfix)) in {None, Some(0)}
    ensures Evaluate(postfix, pow).Err? ==>
              Evaluate(postfix, pow).error in {StackUnderflow, MalformedNumber, DivisionByZero, ModuloByZero}
    ensures HeightFrom(0, Words(postfix)) == Some(1) && Evaluate(postfix, pow).Ok? ==>
              Run([], Words(postfix), pow) == Ok([Evaluate(postfix, pow).value])
  {
    RunHeight([], Words(postfix), pow);
    var r := Run([], Words(postfix), pow);
    if r.Ok? && |r.value| == 1 {
      assert r.value == [r.value[0]];
    }
  }

  /** A word of decimal digits, leading zeros included, pushes the number
      it spells. */
  lemma PushDigitWord(stack: seq<real>, d: string, pow: (real, real) -> real)
    requires |d| > 0 && AllDigits(d)
    ensures Exec(stack, d, pow) == Ok(stack + [Value(d) as real])
  {
    ReadDigits(d);
    assert IsDigit(d[0]);
  }

  /** The decimal numeral of n pushes n. */
  lemma PushDigits(stack: seq<real>, n: nat, pow: (real, real) -> real)
    ensures Exec(stack, Digits(n), pow) == Ok(stack + [n as real])
  {
    PushDigitWord(stack, Digits(n), pow);
  }

  /** An operator word is not read as a number. */
  lemma OperatorWord(t: string)
    requires IsOperator(t)
    ensures !IsNumber(t)
  {
  }

  lemma RunCons(stack: seq<real>, t: string, ts: seq<string>, pow: (real, real) -> real)
    ensures Exec(stack, t, pow).Err? ==> Run(stack, [t] + ts, pow) == Err(Exec(stack, t, pow).error)
    ensures Exec(stack, t, pow).Ok? ==> Run(stack, [t] + ts, pow) == Run(Exec(stack, t, pow).value, ts, pow)
  {
    assert ([t] + ts)[0] == t && ([t] + ts)[1..] == ts;
  }

  /** "3 4 2 * + " evaluates to 11: the three numbers are pushed ... */
  lemma PrecedenceExample(pow: (real, real) -> real)
    ensures Run([], ["3", "4", "2", "*", "+"], pow) == Ok([11.0])
  {
    var none: seq<real> := [];
    assert Digits(3) == "3" && Digits(4) == "4" && Digits(2) == "2";
    PushDigits(none, 3, pow);
    PushDigits([3.0], 4, pow);
    PushDigits([3.0, 4.0], 2, pow);
    assert none + [3.0] == [3.0] && [3.0] + [4.0] == [3.0, 4.0] && [3.0, 4.0] + [2.0] == [3.0, 4.0, 2.0];
    RunCons([3.0, 4.0], "2", ["*", "+"], pow);
    RunCons([3.0], "4", ["2", "*", "+"], pow);
    RunCons(none, "3", ["4", "2", "*", "+"], pow);
    MultiplyThenAdd(pow);
  }

  /** ... and then folded by the two operators. */
  lemma MultiplyThenAdd(pow: (real, real) -> real)
    ensures Run([3.0, 4.0, 2.0], ["*", "+"], pow) == Ok([11.0])
  {
    OperatorWord("*");
    assert [3.0, 4.0, 2.0][..1] == [3.0] && [3.0] + [8.0] == [3.0, 8.0];
    assert ApplyOp(4.0, 2.0, '*', pow) == Ok(8.0);
    assert Exec([3.0, 4.0, 2.0], "*", pow) == Ok([3.0, 8.0]);
    RunCons([3.0, 4.0, 2.0], "*", ["+"], pow);
    AddLast(pow);
  }

  lemma AddLast(pow: (real, real) -> real)
    ensures Run([3.0, 8.0], ["+"], pow) == Ok([11.0])
  {
    OperatorWord("+");
    assert [3.0, 8.0][..0] == [] && [] + [11.0] == [11.0];
    assert ApplyOp(3.0, 8.0, '+', pow) == Ok(11.0);
    assert Exec([3.0, 8.0], "+", pow) == Ok([11.0]);
    RunCons([3.0, 8.0], "+", [], pow);
    assert ["+"] + [] == ["+"];
  }

  /** "1 0 / " fails with a division by zero. */
  lemma DivisionByZeroExample(pow: (real, real) -> real)
    ensures Run([], ["1", "0", "/"], pow) == Err(DivisionByZero)
  {
    var none: seq<real> := [];
    assert Digits(1) == "1" && Digits(0) == "0";
    PushDigits(none, 1, pow);
    PushDigits([1.0], 0, pow);
    assert none + [1.0] == [1.0] && [1.0] + [0.0] == [1.0, 0.0];
    OperatorWord("/");
    assert Exec([1.0, 0.0], "/", pow) == Err(DivisionByZero);
    assert ["/"] + [] == ["/"];
    RunCons([1.0, 0.0], "/", [], pow);
    RunCons([1.0], "0", ["/"], pow);
    RunCons(none, "1", ["0", "/"], pow);
  }

  /** "1 + " runs out of values at the operator. */
  lemma UnderflowExample(pow: (real, real) -> real)
    ensures Run([], ["1", "+"], pow) == Err(StackUnderflow)
  {
    var none: seq<real> := [];
    assert Digits(1) == "1";
    PushDigits(none, 1, pow);
    assert none + [1.0] == [1.0];
    assert ["+"] + [] == ["+"];
    RunCons([1.0], "+", [], pow);
    RunCons(none, "1", ["+"], pow);
  }
}
