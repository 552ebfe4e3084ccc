/** The infix grammar the evaluator needs: operands and binary operators
    alternate, parentheses open where an operand is due and close after one.
    isValidExpression and hasConsecutiveOperators together admit inputs
    such as "1 +", "+ 1" and "( )", for which evaluatePostfix calls top()
    on an empty stack. WellFormed is the check that closes that gap, and the
    theorem here is that the postfix of a well-formed input never runs out
    of values and leaves exactly one. */
module Grammar {
  import opened Results
  import opened Operators
  import opened Validator
  import opened Converter
  import opened Evaluator

  /** The automaton of the grammar: `due` holds when an operand is due
      next and `depth` counts the open parentheses. Tokens that are neither
      numbers, parentheses nor operators are skipped, as the converter
      drops them. */
  function Accepts(due: bool, depth: nat, ts: seq<string>): bool
    decreases |ts|
  {
    if ts == [] then !due && depth == 0
    else
      var t, rest := ts[0], ts[1..];
      if IsNumber(t) then due && Accepts(false, depth, rest)
      else if t == "(" then due && Accepts(true, depth + 1, rest)
      else if t == ")" then !due && depth > 0 && Accepts(false, depth - 1, rest)
      else if IsOperator(t) then !due && Accepts(true, depth, rest)
      else Accepts(due, depth, rest)
  }

  predicate WellFormed(ts: seq<string>) {
    Accepts(true, 0, ts)
  }

  /** The grammar check, one token at a time as the source's two checks go. */
  method IsWellFormed(tokens: seq<string>) returns (ok: bool)
    ensures ok == WellFormed(tokens)
  {
    var due := true;
    var depth: nat := 0;
    for i := 0 to |tokens|
      invariant Accepts(due, depth, tokens[i..]) == WellFormed(tokens)
    {
      assert tokens[i..][1..] == tokens[i + 1..];
      var t := tokens[i];
      if IsNumber(t) {
        if !due {
          return false;
        }
        due := false;
      } else if t == "(" {
        if !due {
          return false;
        }
        depth := depth + 1;
      } else if t == ")" {
        if due || depth == 0 {
          return false;
        }
        depth := depth - 1;
      } else if IsOperator(t) {
        if due {
          return false;
        }
        due := true;
      }
    }
    assert tokens[|tokens|..] == [];
    return !due && depth == 0;
  }

  /** The parentheses of an accepted sequence never close more than are
      open, and all are closed at the end. */
  lemma {:induction false} AcceptsBalanced(due: bool, depth: nat, ts: seq<string>)
    requires Accepts(due, depth, ts)
    ensures !Dips(depth, ts) && depth + Depth(ts) == 0
    decreases |ts|
  {
    if ts == [] {
      assert ts[..0] == [];
    } else {
      var t, rest := ts[0], ts[1..];
      assert ts == [t] + rest;
      DepthCons(t, rest);
      DipsCons(depth, ts);
      if IsNumber(t) {
        AcceptsBalanced(false, depth, rest);
      } else if t == "(" {
        AcceptsBalanced(true, depth + 1, rest);
      } else if t == ")" {
        AcceptsBalanced(false, depth - 1, rest);
      } else if IsOperator(t) {
        AcceptsBalanced(true, depth, rest);
      } else {
        AcceptsBalanced(due, depth, rest);
      }
    }
  }

  lemma AdjacentCons(ts: seq<string>)
    requires |ts| >= 2
    ensures AdjacentOperators(ts) <==> (IsOperator(ts[0]) && IsOperator(ts[1])) || AdjacentOperators(ts[1..])
  {
    if AdjacentOperators(ts) {
      var i :| 0 <= i < |ts| - 1 && IsOperator(ts[i]) && IsOperator(ts[i + 1]);
      if i > 0 {
        assert IsOperator(ts[1..][i - 1]) && IsOperator(ts[1..][i]);
      }
    }
    if AdjacentOperators(ts[1..]) {
      var i :| 0 <= i < |ts[1..]| - 1 && IsOperator(ts[1..][i]) && IsOperator(ts[1..][i + 1]);
      assert IsOperator(ts[i + 1]) && IsOperator(ts[i + 2]);
    }
  }

  /** After an operator an operand is due, so an accepted sequence never
      holds two operators side by side; and when an operand is due the next
      token is no operator. */
  lemma {:induction false} AcceptsNoAdjacent(due: bool, depth: nat, ts: seq<string>)
    requires Accepts(due, depth, ts)
    ensures !AdjacentOperators(ts)
    ensures due && ts != [] ==> !IsOperator(ts[0])
    decreases |ts|
  {
    if ts != [] {
      var t, rest := ts[0], ts[1..];
      if IsNumber(t) {
        AcceptsNoAdjacent(false, depth, rest);
      } else if t == "(" {
        AcceptsNoAdjacent(true, depth + 1, rest);
      } else if t == ")" {
        AcceptsNoAdjacent(false, depth - 1, rest);
      } else if IsOperator(t) {
        AcceptsNoAdjacent(true, depth, rest);
      } else {
        AcceptsNoAdjacent(due, depth, rest);
      }
      if |ts| >= 2 {
        AdjacentCons(ts);
        assert ts[1] == rest[0];
      } else {
        assert !AdjacentOperators(ts);
      }
    }
  }

  /** The grammar check is stricter than the source's two checks: whatever
      it accepts, they accept. */
  lemma WellFormedPassesChecks(ts: seq<string>)
    requires WellFormed(ts)
    ensures ParenVerdict(ts) == Ok(true) && Balanced(ts)
    ensures !AdjacentOperators(ts)
  {
    AcceptsBalanced(true, 0, ts);
    AcceptsNoAdjacent(true, 0, ts);
    ParenVerdictCases(ts);
  }

  /** The operators on a stack: everything but "(". */
  function OpCount(stack: seq<string>): nat {
    if stack == [] then 0 else OpCount(stack[..|stack| - 1]) + (if stack[|stack| - 1] == "(" then 0 else 1)
  }

  /** The converter's state after a prefix the automaton is in state
      (due, depth) after: the output, read as postfix, leaves one value
      per operator waiting on the stack, and one more when an operand was
      read last. */
  ghost predicate Inv(due: bool, depth: nat, s: Shunt) {
    && StackShape(s.stack)
    && OpenCount(s.stack) == depth
    && HeightFrom(0, s.out) == Some(OpCount(s.stack) + (if due then 0 else 1))
  }

  /** Writing a number to the output adds a value; writing an operator
      where at least two are left takes one away. */
  lemma OutPush(out: seq<string>, t: string, k: nat)
    requires HeightFrom(0, out) == Some(k)
    ensures IsNumber(t) ==> HeightFrom(0, out + [t]) == Some(k + 1)
    ensures IsOperator(t) && k >= 2 ==> HeightFrom(0, out + [t]) == Some(k - 1)
  {
    HeightAppend(0, out, [t]);
    assert [t][1..] == [];
  }

  /** Moving one operator from the stack to the output keeps the count. */
  lemma PopOneHeight(stack: seq<string>, out: seq<string>)
    requires stack != [] && StackShape(stack) && stack[|stack| - 1] != "("
    requires HeightFrom(0, out) == Some(OpCount(stack) + 1)
    ensures var rest := stack[..|stack| - 1];
            HeightFrom(0, out + [stack[|stack| - 1]]) == Some(OpCount(rest) + 1)
  {
    PopShape(stack);
    OutPush(out, stack[|stack| - 1], OpCount(stack) + 1);
  }

  lemma {:induction false} PopWhileHigherHeight(stack: seq<string>, out: seq<string>, p: int)
    requires StackShape(stack) && HeightFrom(0, out) == Some(OpCount(stack) + 1)
    ensures var s := PopWhileHigher(stack, out, p);
            HeightFrom(0, s.out) == Some(OpCount(s.stack) + 1)
    decreases |stack|
  {
    if stack != [] && stack[|stack| - 1] != "(" && Prec(stack[|stack| - 1]) >= p {
      PopShape(stack);
      PopOneHeight(stack, out);
      PopWhileHigherHeight(stack[..|stack| - 1], out + [stack[|stack| - 1]], p);
    }
  }

  lemma {:induction false} PopToOpenHeight(stack: seq<string>, out: seq<string>)
    requires StackShape(stack) && PopToOpen(stack, out).Ok?
    requires HeightFrom(0, out) == Some(OpCount(stack) + 1)
    ensures var s := PopToOpen(stack, out).value;
            HeightFrom(0, s.out) == Some(OpCount(s.stack) + 1)
    decreases |stack|
  {
    var top := stack[|stack| - 1];
    PopShape(stack);
    if top != "(" {
      PopOneHeight(stack, out);
      PopToOpenHeight(stack[..|stack| - 1], out + [top]);
    }
  }

  lemma {:induction false} FlushAllHeight(stack: seq<string>, out: seq<string>)
    requires StackShape(stack) && OpenCount(stack) == 0
    requires HeightFrom(0, out) == Some(OpCount(stack) + 1)
    ensures HeightFrom(0, FlushAll(stack, out)) == Some(1)
    decreases |stack|
  {
    if stack != [] {
      PopShape(stack);
      PopOneHeight(stack, out);
      FlushAllHeight(stack[..|stack| - 1], out + [stack[|stack| - 1]]);
    }
  }

  lemma PushOpen(stack: seq<string>)
    ensures OpCount(stack + ["("]) == OpCount(stack)
    ensures OpenCount(stack + ["("]) == OpenCount(stack) + 1
  {
    assert (stack + ["("])[..|stack|] == stack;
  }

  /** A pushed operator is one more stacked operator. */
  lemma PushOperatorCount(stack: seq<string>, t: string)
    requires IsOperator(t)
    ensures OpCount(stack + [t]) == OpCount(stack) + 1
  {
    assert (stack + [t])[..|stack|] == stack;
  }

  /** An operator token pops while the top binds at least as tightly, then
      is pushed. */
  lemma StepOperator(s: Shunt, t: string)
    requires IsOperator(t)
    ensures var p := PopWhileHigher(s.stack, s.out, Prec(t));
            Step(s, t) == Ok(Shunt(p.stack + [t], p.out))
  {
  }

  lemma StepOpenInv(depth: nat, s: Shunt)
    requires Inv(true, depth, s)
    ensures Step(s, "(") == Ok(Shunt(s.stack + ["("], s.out))
    ensures Inv(true, depth + 1, Shunt(s.stack + ["("], s.out))
  {
    PushOpen(s.stack);
  }

  lemma StepCloseInv(depth: nat, s: Shunt)
    requires Inv(false, depth, s) && depth > 0
    ensures Step(s, ")").Ok? && Inv(false, depth - 1, Step(s, ")").value)
  {
    PopToOpenShape(s.stack, s.out);
    PopToOpenHeight(s.stack, s.out);
  }

  lemma StepOperatorInv(depth: nat, s: Shunt, t: string)
    requires Inv(false, depth, s) && IsOperator(t)
    ensures Step(s, t).Ok? && Inv(true, depth, Step(s, t).value)
  {
    var p := PopWhileHigher(s.stack, s.out, Prec(t));
    var q := Shunt(p.stack + [t], p.out);
    StepOperator(s, t);
    assert Step(s, t) == Ok(q);
    assert StackShape(p.stack) && OpenCount(p.stack) == OpenCount(s.stack) by {
      PopWhileHigherKeeps(s.stack, s.out, Prec(t));
    }
    PopWhileHigherHeight(s.stack, s.out, Prec(t));
    PushShape(p.stack, t);
    PushOperatorCount(p.stack, t);
    assert Inv(true, depth, q);
  }

  /** The conversion of the rest of an accepted sequence succeeds, and its
      output, read as postfix, leaves exactly one value. */
  lemma {:induction false} ConvHeight(due: bool, depth: nat, s: Shunt, ts: seq<string>)
    requires Inv(due, depth, s) && Accepts(due, depth, ts)
    ensures Conv(s, ts).Ok? && HeightFrom(0, Conv(s, ts).value) == Some(1)
    decreases |ts|
  {
    if ts == [] {
      FlushAllHeight(s.stack, s.out);
    } else {
      var t, rest := ts[0], ts[1..];
      if IsNumber(t) {
        OutPush(s.out, t, OpCount(s.stack));
        ConvAdvance(s, ts, Shunt(s.stack, s.out + [t]));
        ConvHeight(false, depth, Shunt(s.stack, s.out + [t]), rest);
      } else if t == "(" {
        StepOpenInv(depth, s);
        ConvAdvance(s, ts, Shunt(s.stack + ["("], s.out));
        ConvHeight(true, depth + 1, Shunt(s.stack + ["("], s.out), rest);
      } else if t == ")" {
        StepCloseInv(depth, s);
        ConvAdvance(s, ts, Step(s, t).value);
        ConvHeight(false, depth - 1, Step(s, t).value, rest);
      } else if IsOperator(t) {
        StepOperatorInv(depth, s, t);
        ConvAdvance(s, ts, Step(s, t).value);
        ConvHeight(true, depth, Step(s, t).value, rest);
      } else {
        ConvAdvance(s, ts, s);
        ConvHeight(due, depth, s, rest);
      }
    }
  }

  /** A well-formed token sequence converts, and its postfix leaves exactly
      one value when read as stack operations. */
  lemma WellFormedConverts(ts: seq<string>)
    requires WellFormed(ts)
    ensures Convert(ts).Ok? && HeightFrom(0, Convert(ts).value) == Some(1)
  {
    ConvHeight(true, 0, Shunt([], []), ts);
  }

  lemma {:induction false} KeptHas(ts: seq<string>, x: string)
    requires x in Kept(ts)
    ensures x in ts
    decreases |ts|
  {
    if ts != [] && x != ts[0] {
      KeptHas(ts[1..], x);
    }
  }

  lemma {:induction false} AllKept(ts: seq<string>)
    requires AllVisible(ts)
    ensures Kept(ts) == ts
    decreases |ts|
  {
    if ts != [] {
      AllKept(ts[1..]);
    }
  }

  /** Every token of the postfix of a balanced sequence is one of its own. */
  lemma OutputFromInput(ts: seq<string>)
    requires Balanced(ts)
    ensures Convert(ts).Ok?
    ensures forall i :: 0 <= i < |Convert(ts).value| ==> Convert(ts).value[i] in ts
  {
    ConvertSpec(ts);
    var out := Convert(ts).value;
    AllKept(out);
    forall i | 0 <= i < |out|
      ensures out[i] in ts
    {
      assert out[i] in multiset(Kept(out));
      KeptHas(ts, out[i]);
    }
  }

  /** The corrected pipeline on tokens as tokenize makes them: a
      well-formed input converts, the evaluator reads back exactly the
      tokens the converter wrote, it never runs out of values, and when it
      succeeds the value it returns is the only one left. */
  lemma WellFormedEvaluates(ts: seq<string>, pow: (real, real) -> real)
    requires forall i :: 0 <= i < |ts| ==> |ts[i]| > 0 && NoSpace(ts[i])
    requires WellFormed(ts)
    ensures Postfix(ts).Ok? && Words(Postfix(ts).value) == Convert(ts).value
    ensures Evaluate(Postfix(ts).value, pow) != Err(StackUnderflow)
    ensures Evaluate(Postfix(ts).value, pow).Ok? ==>
              Run([], Convert(ts).value, pow) == Ok([Evaluate(Postfix(ts).value, pow).value])
  {
    WellFormedPassesChecks(ts);
    WellFormedConverts(ts);
    OutputFromInput(ts);
    var out := Convert(ts).value;
    WordsOfJoin(out);
    EvaluateHeight(Join(out), pow);
  }

  /** "1 +" passes both of the source's checks and converts to "1 + ",
      on which evaluatePostfix runs out of values; the grammar check
      rejects it. */
  lemma DanglingOperator(pow: (real, real) -> real)
    ensures ParenVerdict(["1", "+"]) == Ok(true) && !AdjacentOperators(["1", "+"])
    ensures Convert(["1", "+"]) == Ok(["1", "+"])
    ensures Evaluate(Join(["1", "+"]), pow) == Err(StackUnderflow)
    ensures !WellFormed(["1", "+"])
  {
    DanglingChecks();
    DanglingConverts();
    DanglingUnderflows(pow);
    DanglingRejected();
  }

  lemma DanglingUnderflows(pow: (real, real) -> real)
    ensures Evaluate(Join(["1", "+"]), pow) == Err(StackUnderflow)
  {
    var ts := ["1", "+"];
    assert |ts[0]| > 0 && NoSpace(ts[0]) && |ts[1]| > 0 && NoSpace(ts[1]);
    WordsOfJoin(ts);
    UnderflowExample(pow);
  }

  /** The grammar check sees the operator with no right operand. */
  lemma DanglingRejected()
    ensures !WellFormed(["1", "+"])
  {
    var ts := ["1", "+"];
    assert IsNumber(ts[0]) by { assert IsDigit(FirstChar(ts[0])); }
    OperatorWord(ts[1]);
    assert ts[1..] == ["+"] && ts[1..][1..] == [];
    assert !Accepts(true, 0, []);
  }

  lemma DanglingChecks()
    ensures ParenVerdict(["1", "+"]) == Ok(true) && !AdjacentOperators(["1", "+"])
  {
    var ts := ["1", "+"];
    assert ts[..0] == [] && ts[..2] == ts;
    DepthSnoc(ts, 0);
    DepthSnoc(ts, 1);
    assert Depth(ts[..0]) == 0 && Depth(ts[..1]) == 0 && Depth(ts[..2]) == 0;
    assert !ClosesTooMany(ts);
  }

  lemma DanglingConverts()
    ensures Convert(["1", "+"]) == Ok(["1", "+"])
  {
    var none: seq<string> := [];
    var ts := ["1", "+"];
    assert IsDigit("1"[0]);
    assert Step(Shunt([], []), "1") == Ok(Shunt([], ["1"])) by {
      assert none + ["1"] == ["1"];
    }
    ConvAdvance(Shunt([], []), ts, Shunt([], ["1"]));
    assert ts[1..] == ["+"];
    assert !IsNumber("+");
    assert Step(Shunt([], ["1"]), "+") == Ok(Shunt(["+"], ["1"])) by {
      assert PopWhileHigher([], ["1"], Prec("+")) == Shunt([], ["1"]);
      assert none + ["+"] == ["+"];
    }
    ConvAdvance(Shunt([], ["1"]), ["+"], Shunt(["+"], ["1"]));
    assert ["+"][1..] == [];
    FlushOne("+", ["1"]);
    assert ["1"] + ["+"] == ts;
  }
}
