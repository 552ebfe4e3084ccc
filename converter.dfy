/** infixToPostfix: the shunting-yard conversion of the token sequence into
    a space-separated postfix string. The operator stack is a sequence whose
    top is its last element. */
module Converter {
  import opened Results
  import opened Operators
  import opened Validator

  /** The converter's state: the operator stack and the output emitted so far. */
  datatype Shunt = Shunt(stack: seq<string>, out: seq<string>)

  /** Tokens that reach the postfix output from the input: numbers and
      operators, never parentheses. */
  predicate Visible(t: string) {
    IsNumber(t) || IsOperator(t)
  }

  /** The numbers and operators of ts, in their order. */
  function Kept(ts: seq<string>): seq<string> {
    if ts == [] then [] else (if Visible(ts[0]) then [ts[0]] else []) + Kept(ts[1..])
  }

  /** The numbers of ts, in their order. */
  function Numbers(ts: seq<string>): seq<string> {
    if ts == [] then [] else (if IsNumber(ts[0]) then [ts[0]] else []) + Numbers(ts[1..])
  }

  /** The number of "(" on a stack. */
  function OpenCount(stack: seq<string>): nat {
    if stack == [] then 0 else OpenCount(stack[..|stack| - 1]) + (if stack[|stack| - 1] == "(" then 1 else 0)
  }

  /** What the converter ever pushes: "(" and operators. */
  predicate StackShape(stack: seq<string>) {
    forall i :: 0 <= i < |stack| ==> stack[i] == "(" || IsOperator(stack[i])
  }

  predicate AllVisible(ts: seq<string>) {
    forall i :: 0 <= i < |ts| ==> Visible(ts[i])
  }

  /** The loop of an incoming operator: pop to the output while the top is
      not "(" and binds at least as tightly as precedence p. */
  function PopWhileHigher(stack: seq<string>, out: seq<string>, p: int): Shunt
    decreases |stack|
  {
    if stack != [] && stack[|stack| - 1] != "(" && Prec(stack[|stack| - 1]) >= p then
      PopWhileHigher(stack[..|stack| - 1], out + [stack[|stack| - 1]], p)
    else Shunt(stack, out)
  }

  /** The loop of ")": pop to the output down to the nearest "(", which is
      discarded. Popping the empty stack is undefined behaviour in the source;
      here it is the error MissingOpenParen. */
  function PopToOpen(stack: seq<string>, out: seq<string>): Result<Shunt>
    decreases |stack|
  {
    if stack == [] then Err(MissingOpenParen)
    else if stack[|stack| - 1] == "(" then Ok(Shunt(stack[..|stack| - 1], out))
    else PopToOpen(stack[..|stack| - 1], out + [stack[|stack| - 1]])
  }

  /** The final loop: everything left on the stack, top first, "(" included. */
  function FlushAll(stack: seq<string>, out: seq<string>): seq<string>
    decreases |stack|
  {
    if stack == [] then out else FlushAll(stack[..|stack| - 1], out + [stack[|stack| - 1]])
  }

  /** One token of the main loop. Tokens that are neither numbers,
      parentheses nor operators are dropped. */
  function Step(s: Shunt, t: string): Result<Shunt> {
    if IsNumber(t) then Ok(Shunt(s.stack, s.out + [t]))
    else if t == "(" then Ok(Shunt(s.stack + [t], s.out))
    else if t == ")" then PopToOpen(s.stack, s.out)
    else if IsOperator(t) then
      var s' := PopWhileHigher(s.stack, s.out, Prec(t));
      Ok(Shunt(s'.stack + [t], s'.out))
    else Ok(s)
  }

  /** The conversion of the remaining tokens ts from state s. */
  function Conv(s: Shunt, ts: seq<string>): Result<seq<string>>
    decreases |ts|
  {
    if ts == [] then Ok(FlushAll(s.stack, s.out))
    else
      match Step(s, ts[0])
      case Err(e) => Err(e)
      case Ok(s') => Conv(s', ts[1..])
  }

  /** The postfix tokens of an infix token sequence. */
  function Convert(ts: seq<string>): Result<seq<string>> {
    Conv(Shunt([], []), ts)
  }

  /** Every token followed by one space, as `postfix += token + " "` builds it. */
  function Join(ts: seq<string>): string {
    if ts == [] then "" else ts[0] + " " + Join(ts[1..])
  }

  /** The string infixToPostfix returns. */
  function Postfix(ts: seq<string>): Result<string> {
    match Convert(ts)
    case Ok(out) => Ok(Join(out))
    case Err(e) => Err(e)
  }

  /** infixToPostfix, with the trace output left out. */
  method InfixToPostfix(tokens: seq<string>) returns (r: Result<string>)
    ensures r == Postfix(tokens)
  {
    var stack: seq<string> := [];
    var postfix := "";
    ghost var out: seq<string> := [];
    for i := 0 to |tokens|
      invariant postfix == Join(out)
      invariant Conv(Shunt(stack, out), tokens[i..]) == Convert(tokens)
    {
      var token := tokens[i];
      assert tokens[i..][1..] == tokens[i + 1..];
      if IsNumber(token) {
        JoinSnoc(out, token);
        postfix := postfix + token + " ";
        out := out + [token];
      } else if token == "(" {
        stack := stack + [token];
      } else if token == ")" {
        ghost var before := Shunt(stack, out);
        while stack != [] && stack[|stack| - 1] != "("
          invariant postfix == Join(out)
          invariant PopToOpen(stack, out) == PopToOpen(before.stack, before.out)
          decreases |stack|
        {
          var top := stack[|stack| - 1];
          JoinSnoc(out, top);
          postfix := postfix + top + " ";
          out := out + [top];
          stack := stack[..|stack| - 1];
        }
        if stack == [] {
          return Err(MissingOpenParen);
        }
        stack := stack[..|stack| - 1];
      } else if IsOperator(token) {
        ghost var before := Shunt(stack, out);
        while stack != [] && stack[|stack| - 1] != "(" && Prec(stack[|stack| - 1]) >= Prec(token)
          invariant postfix == Join(out)
          invariant PopWhileHigher(stack, out, Prec(token)) == PopWhileHigher(before.stack, before.out, Prec(token))
          decreases |stack|
        {
          var top := stack[|stack| - 1];
          JoinSnoc(out, top);
          postfix := postfix + top + " ";
          out := out + [top];
          stack := stack[..|stack| - 1];
        }
        stack := stack + [token];
      }
    }
    assert tokens[|tokens|..] == [];
    ghost var before := Shunt(stack, out);
    while stack != []
      invariant postfix == Join(out)
      invariant FlushAll(stack, out) == FlushAll(before.stack, before.out)
      decreases |stack|
    {
      var top := stack[|stack| - 1];
      JoinSnoc(out, top);
      postfix := postfix + top + " ";
      out := out + [top];
      stack := stack[..|stack| - 1];
    }
    return Ok(postfix);
  }

  lemma {:induction false} JoinSnoc(ts: seq<string>, t: string)
    ensures Join(ts + [t]) == Join(ts) + t + " "
  {
    if ts != [] {
      assert (ts + [t])[1..] == ts[1..] + [t];
      JoinSnoc(ts[1..], t);
    } else {
      assert ts + [t] == [t];
    }
  }

  lemma {:induction false} KeptAppend(a: seq<string>, b: seq<string>)
    ensures Kept(a + b) == Kept(a) + Kept(b)
  {
    if a == [] {
      assert a + b == b;
    } else {
      assert (a + b)[1..] == a[1..] + b;
      KeptAppend(a[1..], b);
    }
  }

  lemma {:induction false} NumbersAppend(a: seq<string>, b: seq<string>)
    ensures Numbers(a + b) == Numbers(a) + Numbers(b)
  {
    if a == [] {
      assert a + b == b;
    } else {
      assert (a + b)[1..] == a[1..] + b;
      NumbersAppend(a[1..], b);
    }
  }

  /** Taking the top off the stack leaves a stack of the same shape, with
      one "(" fewer when the top was one. */
  lemma PopShape(stack: seq<string>)
    requires stack != [] && StackShape(stack)
    ensures var top, rest := stack[|stack| - 1], stack[..|stack| - 1];
            && StackShape(rest)
            && Visible(top) == (top != "(")
            && OpenCount(stack) == OpenCount(rest) + (if top == "(" then 1 else 0)
  {
  }

  /** Moving the top of the stack to the output moves its visible part and
      adds no number. */
  lemma PopKept(stack: seq<string>, out: seq<string>)
    requires stack != [] && StackShape(stack)
    ensures var top, rest := stack[|stack| - 1], stack[..|stack| - 1];
            && multiset(Kept(stack)) == multiset(Kept(rest)) + multiset(Kept([top]))
            && Kept(out + [top]) == Kept(out) + Kept([top])
  {
    var top, rest := stack[|stack| - 1], stack[..|stack| - 1];
    assert stack == rest + [top];
    KeptAppend(out, [top]);
    KeptAppend(rest, [top]);
  }

  lemma PopNumbers(stack: seq<string>, out: seq<string>)
    requires stack != [] && StackShape(stack)
    ensures Numbers(out + [stack[|stack| - 1]]) == Numbers(out)
  {
    var top := stack[|stack| - 1];
    NumbersAppend(out, [top]);
    assert !IsNumber(top);
  }

  lemma PopVisible(stack: seq<string>, out: seq<string>)
    requires stack != [] && StackShape(stack) && AllVisible(out) && stack[|stack| - 1] != "("
    ensures AllVisible(out + [stack[|stack| - 1]])
  {
  }

  /** An incoming operator pops only operators: the visible tokens of stack
      and output together, the "(" of the stack and the numbers of the
      output are kept. */
  lemma {:induction false} PopWhileHigherKeeps(stack: seq<string>, out: seq<string>, p: int)
    requires StackShape(stack)
    ensures var s := PopWhileHigher(stack, out, p);
            && StackShape(s.stack)
            && OpenCount(s.stack) == OpenCount(stack)
            && multiset(Kept(s.out)) + multiset(Kept(s.stack)) == multiset(Kept(out)) + multiset(Kept(stack))
            && Numbers(s.out) == Numbers(out)
    decreases |stack|
  {
    if stack != [] && stack[|stack| - 1] != "(" && Prec(stack[|stack| - 1]) >= p {
      var top := stack[|stack| - 1];
      PopShape(stack);
      PopKept(stack, out);
      PopNumbers(stack, out);
      PopWhileHigherKeeps(stack[..|stack| - 1], out + [top], p);
    }
  }

  lemma {:induction false} PopWhileHigherVisible(stack: seq<string>, out: seq<string>, p: int)
    requires StackShape(stack) && AllVisible(out)
    ensures AllVisible(PopWhileHigher(stack, out, p).out)
    decreases |stack|
  {
    if stack != [] && stack[|stack| - 1] != "(" && Prec(stack[|stack| - 1]) >= p {
      var top := stack[|stack| - 1];
      PopShape(stack);
      PopVisible(stack, out);
      PopWhileHigherVisible(stack[..|stack| - 1], out + [top], p);
    }
  }

  /** ")" fails exactly when no "(" is open, and otherwise removes one "(". */
  lemma {:induction false} PopToOpenShape(stack: seq<string>, out: seq<string>)
    requires StackShape(stack)
    ensures PopToOpen(stack, out).Err? <==> OpenCount(stack) == 0
    ensures PopToOpen(stack, out).Err? ==> PopToOpen(stack, out).error == MissingOpenParen
    ensures PopToOpen(stack, out).Ok? ==>
              && StackShape(PopToOpen(stack, out).value.stack)
              && OpenCount(PopToOpen(stack, out).value.stack) == OpenCount(stack) - 1
    decreases |stack|
  {
    if stack != [] {
      var top := stack[|stack| - 1];
      PopShape(stack);
      if top != "(" {
        PopToOpenShape(stack[..|stack| - 1], out + [top]);
      }
    }
  }

  /** ")" moves operators from the stack to the output and drops one "(". */
  lemma {:induction false} PopToOpenKeeps(stack: seq<string>, out: seq<string>)
    requires StackShape(stack) && PopToOpen(stack, out).Ok?
    ensures var s := PopToOpen(stack, out).value;
            multiset(Kept(s.out)) + multiset(Kept(s.stack)) == multiset(Kept(out)) + multiset(Kept(stack))
    decreases |stack|
  {
    var top := stack[|stack| - 1];
    PopShape(stack);
    PopKept(stack, out);
    if top != "(" {
      PopToOpenKeeps(stack[..|stack| - 1], out + [top]);
    }
  }

  lemma {:induction false} PopToOpenNumbers(stack: seq<string>, out: seq<string>)
    requires StackShape(stack) && PopToOpen(stack, out).Ok?
    ensures Numbers(PopToOpen(stack, out).value.out) == Numbers(out)
    decreases |stack|
  {
    var top := stack[|stack| - 1];
    if top != "(" {
      PopShape(stack);
      PopNumbers(stack, out);
      PopToOpenNumbers(stack[..|stack| - 1], out + [top]);
    }
  }

  lemma {:induction false} PopToOpenVisible(stack: seq<string>, out: seq<string>)
    requires StackShape(stack) && AllVisible(out) && PopToOpen(stack, out).Ok?
    ensures AllVisible(PopToOpen(stack, out).value.out)
    decreases |stack|
  {
    var top := stack[|stack| - 1];
    if top != "(" {
      PopShape(stack);
      PopVisible(stack, out);
      PopToOpenVisible(stack[..|stack| - 1], out + [top]);
    }
  }

  /** The final flush moves the whole stack to the output, top first. */
  lemma FlushAllKeeps(stack: seq<string>, out: seq<string>)
    requires StackShape(stack)
    ensures FlushAll(stack, out) == out + Reversed(stack)
    ensures multiset(Kept(FlushAll(stack, out))) == multiset(Kept(out)) + multiset(Kept(stack))
    ensures Numbers(FlushAll(stack, out)) == Numbers(out)
  {
    FlushAllWrites(stack, out);
    FlushAllKept(stack, out);
    FlushAllNumbers(stack, out);
  }

  /** A stack read from the top down. */
  function Reversed(stack: seq<string>): seq<string>
    decreases |stack|
  {
    if stack == [] then [] else [stack[|stack| - 1]] + Reversed(stack[..|stack| - 1])
  }

  lemma {:induction false} FlushAllWrites(stack: seq<string>, out: seq<string>)
    ensures FlushAll(stack, out) == out + Reversed(stack)
    decreases |stack|
  {
    if stack != [] {
      var top := stack[|stack| - 1];
      FlushAllWrites(stack[..|stack| - 1], out + [top]);
      assert out + [top] + Reversed(stack[..|stack| - 1]) == out + Reversed(stack);
    }
  }

  lemma {:induction false} FlushAllKept(stack: seq<string>, out: seq<string>)
    requires StackShape(stack)
    ensures multiset(Kept(FlushAll(stack, out))) == multiset(Kept(out)) + multiset(Kept(stack))
    decreases |stack|
  {
    if stack != [] {
      var top := stack[|stack| - 1];
      PopShape(stack);
      PopKept(stack, out);
      FlushAllKept(stack[..|stack| - 1], out + [top]);
    }
  }

  lemma {:induction false} FlushAllNumbers(stack: seq<string>, out: seq<string>)
    requires StackShape(stack)
    ensures Numbers(FlushAll(stack, out)) == Numbers(out)
    decreases |stack|
  {
    if stack != [] {
      var top := stack[|stack| - 1];
      PopShape(stack);
      PopNumbers(stack, out);
      FlushAllNumbers(stack[..|stack| - 1], out + [top]);
    }
  }

  /** With no "(" left, the final flush emits only operators. */
  lemma {:induction false} FlushAllVisible(stack: seq<string>, out: seq<string>)
    requires StackShape(stack) && AllVisible(out) && OpenCount(stack) == 0
    ensures AllVisible(FlushAll(stack, out))
    decreases |stack|
  {
    if stack != [] {
      var top := stack[|stack| - 1];
      PopShape(stack);
      PopVisible(stack, out);
      FlushAllVisible(stack[..|stack| - 1], out + [top]);
    }
  }

  /** One token fails exactly when it is a ")" with no "(" open. */
  lemma StepFails(s: Shunt, t: string)
    requires StackShape(s.stack)
    ensures Step(s, t).Err? <==> OpenCount(s.stack) + Delta(t) < 0
    ensures Step(s, t).Err? ==> Step(s, t).error == MissingOpenParen
  {
    if t == ")" && !IsNumber(t) {
      PopToOpenShape(s.stack, s.out);
    }
  }

  /** One token keeps the stack's shape and moves its open count by Delta(t). */
  lemma StepShape(s: Shunt, t: string)
    requires StackShape(s.stack) && Step(s, t).Ok?
    ensures StackShape(Step(s, t).value.stack)
    ensures OpenCount(Step(s, t).value.stack) == OpenCount(s.stack) + Delta(t)
  {
    if IsNumber(t) {
    } else if t == "(" {
      PushShape(s.stack, t);
    } else if t == ")" {
      PopToOpenShape(s.stack, s.out);
    } else if IsOperator(t) {
      var p := PopWhileHigher(s.stack, s.out, Prec(t));
      PopWhileHigherKeeps(s.stack, s.out, Prec(t));
      PushShape(p.stack, t);
    }
  }

  lemma PushShape(stack: seq<string>, t: string)
    requires StackShape(stack) && (t == "(" || IsOperator(t))
    ensures StackShape(stack + [t])
    ensures OpenCount(stack + [t]) == OpenCount(stack) + (if t == "(" then 1 else 0)
  {
    assert (stack + [t])[..|stack|] == stack;
  }

  /** s' is what one token t may leave of s: no number or operator is lost
      or invented, and the numbers keep their order. */
  ghost predicate Conserves(s: Shunt, t: string, s': Shunt) {
    && multiset(Kept(s'.out)) + multiset(Kept(s'.stack))
       == multiset(Kept(s.out)) + multiset(Kept(s.stack)) + multiset(Kept([t]))
    && Numbers(s'.out) == Numbers(s.out) + Numbers([t])
  }

  lemma StepKeeps(s: Shunt, t: string)
    requires StackShape(s.stack) && Step(s, t).Ok?
    ensures Conserves(s, t, Step(s, t).value)
  {
    if IsNumber(t) {
      StepNumberKeeps(s, t);
    } else if t == "(" {
      StepOpenKeeps(s, t);
    } else if t == ")" {
      StepCloseKeeps(s, t);
    } else if IsOperator(t) {
      StepOperatorKeeps(s, t);
    }
  }

  lemma Single(t: string)
    ensures Kept([t]) == if Visible(t) then [t] else []
    ensures Numbers([t]) == if IsNumber(t) then [t] else []
  {
    assert [t][1..] == [];
  }

  lemma StepNumberKeeps(s: Shunt, t: string)
    requires IsNumber(t)
    ensures Conserves(s, t, Shunt(s.stack, s.out + [t]))
  {
    Single(t);
    KeptAppend(s.out, [t]);
    NumbersAppend(s.out, [t]);
  }

  lemma StepOpenKeeps(s: Shunt, t: string)
    requires t == "("
    ensures Conserves(s, t, Shunt(s.stack + [t], s.out))
  {
    Single(t);
    KeptAppend(s.stack, [t]);
  }

  lemma StepCloseKeeps(s: Shunt, t: string)
    requires StackShape(s.stack) && t == ")" && PopToOpen(s.stack, s.out).Ok?
    ensures Conserves(s, t, PopToOpen(s.stack, s.out).value)
  {
    PopToOpenKeeps(s.stack, s.out);
    PopToOpenNumbers(s.stack, s.out);
    CloseInvisible(t);
  }

  lemma CloseInvisible(t: string)
    requires t == ")"
    ensures multiset(Kept([t])) == multiset{} && Numbers([t]) == []
  {
    Single(t);
  }

  lemma StepOperatorKeeps(s: Shunt, t: string)
    requires StackShape(s.stack) && IsOperator(t)
    ensures var p := PopWhileHigher(s.stack, s.out, Prec(t));
            Conserves(s, t, Shunt(p.stack + [t], p.out))
  {
    var p := PopWhileHigher(s.stack, s.out, Prec(t));
    PopWhileHigherKeeps(s.stack, s.out, Prec(t));
    PushKept(p.stack, t);
  }

  /** Pushing an operator adds it to the visible tokens of the stack. */
  lemma PushKept(stack: seq<string>, t: string)
    requires IsOperator(t)
    ensures multiset(Kept(stack + [t])) == multiset(Kept(stack)) + multiset(Kept([t]))
    ensures Numbers([t]) == []
  {
    Single(t);
    KeptAppend(stack, [t]);
  }

  /** No token puts a parenthesis in the output. */
  lemma StepVisible(s: Shunt, t: string)
    requires StackShape(s.stack) && AllVisible(s.out) && Step(s, t).Ok?
    ensures AllVisible(Step(s, t).value.out)
  {
    if t == ")" {
      PopToOpenVisible(s.stack, s.out);
    } else if !IsNumber(t) && t != "(" && IsOperator(t) {
      PopWhileHigherVisible(s.stack, s.out, Prec(t));
    }
  }

  /** The conversion from any reachable state fails exactly when some prefix
      of the remaining tokens closes more parentheses than the stack holds. */
  lemma {:induction false} ConvFails(s: Shunt, ts: seq<string>)
    requires StackShape(s.stack)
    ensures Conv(s, ts).Err? <==> Dips(OpenCount(s.stack), ts)
    ensures Conv(s, ts).Err? ==> Conv(s, ts).error == MissingOpenParen
    decreases |ts|
  {
    if ts != [] {
      DipsCons(OpenCount(s.stack), ts);
      StepFails(s, ts[0]);
      if Step(s, ts[0]).Ok? {
        StepShape(s, ts[0]);
      }
      if Step(s, ts[0]).Ok? {
        ConvFails(Step(s, ts[0]).value, ts[1..]);
      }
    } else {
      assert ts[..0] == [];
    }
  }

  /** A successful conversion loses no number and no operator and invents
      none. */
  lemma {:induction false} ConvKeeps(s: Shunt, ts: seq<string>)
    requires StackShape(s.stack) && Conv(s, ts).Ok?
    ensures multiset(Kept(Conv(s, ts).value)) == multiset(Kept(s.out)) + multiset(Kept(s.stack)) + multiset(Kept(ts))
    decreases |ts|
  {
    if ts == [] {
      FlushAllKeeps(s.stack, s.out);
    } else {
      var t, rest := ts[0], ts[1..];
      var s' := Step(s, t).value;
      assert ts == [t] + rest;
      KeptAppend([t], rest);
      StepShape(s, t);
      StepKeeps(s, t);
      ConvKeeps(s', rest);
      assert Conv(s, ts) == Conv(s', rest);
    }
  }

  /** A successful conversion emits the numbers in their input order. */
  lemma {:induction false} ConvOrdersNumbers(s: Shunt, ts: seq<string>)
    requires StackShape(s.stack) && Conv(s, ts).Ok?
    ensures Numbers(Conv(s, ts).value) == Numbers(s.out) + Numbers(ts)
    decreases |ts|
  {
    if ts == [] {
      FlushAllKeeps(s.stack, s.out);
    } else {
      var t, rest := ts[0], ts[1..];
      var s' := Step(s, t).value;
      assert ts == [t] + rest;
      NumbersAppend([t], rest);
      StepShape(s, t);
      StepKeeps(s, t);
      ConvOrdersNumbers(s', rest);
      assert Conv(s, ts) == Conv(s', rest);
    }
  }

  lemma {:induction false} ConvVisible(s: Shunt, ts: seq<string>)
    requires StackShape(s.stack) && AllVisible(s.out) && Conv(s, ts).Ok?
    requires OpenCount(s.stack) + Depth(ts) == 0
    ensures AllVisible(Conv(s, ts).value)
    decreases |ts|
  {
    if ts == [] {
      FlushAllVisible(s.stack, s.out);
    } else {
      var t, rest := ts[0], ts[1..];
      assert ts == [t] + rest;
      DepthCons(t, rest);
      StepShape(s, t);
      StepVisible(s, t);
      ConvVisible(Step(s, t).value, rest);
    }
  }

  /** What infixToPostfix promises: it fails exactly when a ")" has no "("
      to match; otherwise the output holds exactly the numbers and operators
      of the input, the numbers in their input order, and no parenthesis when
      the input balances. */
  lemma ConvertSpec(ts: seq<string>)
    ensures Convert(ts).Err? <==> ClosesTooMany(ts)
    ensures Convert(ts).Err? ==> Convert(ts).error == MissingOpenParen
    ensures Convert(ts).Ok? ==>
              && multiset(Kept(Convert(ts).value)) == multiset(Kept(ts))
              && Numbers(Convert(ts).value) == Numbers(ts)
    ensures Balanced(ts) ==> Convert(ts).Ok? && AllVisible(Convert(ts).value)
  {
    ConvFails(Shunt([], []), ts);
    if Convert(ts).Ok? {
      ConvKeeps(Shunt([], []), ts);
      ConvOrdersNumbers(Shunt([], []), ts);
    }
    if Balanced(ts) {
      ConvVisible(Shunt([], []), ts);
    }
  }

  /** The conversion advances by one successful token. */
  lemma ConvAdvance(s: Shunt, ts: seq<string>, s': Shunt)
    requires ts != [] && Step(s, ts[0]) == Ok(s')
    ensures Conv(s, ts) == Conv(s', ts[1..])
  {
  }

  /** A number, an operator and a number: the operator waits on the stack. */
  lemma NumberOperatorNumber(a: string, o1: string, b: string, rest: seq<string>)
    requires IsNumber(a) && IsNumber(b) && IsOperator(o1)
    ensures Convert([a, o1, b] + rest) == Conv(Shunt([o1], [a, b]), rest)
  {
    var none: seq<string> := [];
    assert !IsNumber(o1);
    assert none + [a] == [a] && none + [o1] == [o1] && [a] + [b] == [a, b];
    var ts := [a, o1, b] + rest;
    assert ts[1..] == [o1, b] + rest && ts[1..][1..] == [b] + rest && ts[1..][1..][1..] == rest;
    ConvAdvance(Shunt([], []), ts, Shunt([], [a]));
    ConvAdvance(Shunt([], [a]), ts[1..], Shunt([o1], [a]));
    ConvAdvance(Shunt([o1], [a]), ts[1..][1..], Shunt([o1], [a, b]));
  }

  lemma FlushOne(o: string, out: seq<string>)
    ensures FlushAll([o], out) == out + [o]
  {
    assert [o][..0] == [];
  }

  lemma FlushTwo(o1: string, o2: string, out: seq<string>)
    ensures FlushAll([o1, o2], out) == out + [o2, o1]
  {
    assert [o1, o2][..1] == [o1];
    FlushOne(o1, out + [o2]);
  }

  lemma PopsOne(o: string, out: seq<string>, p: int)
    requires IsOperator(o) && Prec(o) >= p
    ensures PopWhileHigher([o], out, p) == Shunt([], out + [o])
  {
    assert o != "(";
    assert [o][..0] == [];
  }

  /** The last number of the input, then the flush of the stack. */
  lemma LastNumber(stack: seq<string>, out: seq<string>, c: string)
    requires IsNumber(c)
    ensures Conv(Shunt(stack, out), [c]) == Ok(FlushAll(stack, out + [c]))
  {
    assert [c][1..] == [];
    ConvAdvance(Shunt(stack, out), [c], Shunt(stack, out + [c]));
  }

  lemma PopsFirst(a: string, o1: string, b: string, o2: string, c: string)
    requires IsNumber(c) && IsOperator(o1) && IsOperator(o2) && Prec(o1) >= Prec(o2)
    ensures Conv(Shunt([o1], [a, b]), [o2, c]) == Ok([a, b, o1, c, o2])
  {
    var none: seq<string> := [];
    assert !IsNumber(o2) && o2 != "(" && o2 != ")";
    PopsOne(o1, [a, b], Prec(o2));
    assert [a, b] + [o1] == [a, b, o1] && none + [o2] == [o2];
    assert Step(Shunt([o1], [a, b]), o2) == Ok(Shunt([o2], [a, b, o1]));
    assert [o2, c][1..] == [c];
    ConvAdvance(Shunt([o1], [a, b]), [o2, c], Shunt([o2], [a, b, o1]));
    LastNumber([o2], [a, b, o1], c);
    FlushOne(o2, [a, b, o1] + [c]);
    assert [a, b, o1] + [c] + [o2] == [a, b, o1, c, o2];
  }

  lemma StacksSecond(a: string, o1: string, b: string, o2: string, c: string)
    requires IsNumber(c) && IsOperator(o1) && IsOperator(o2) && Prec(o1) < Prec(o2)
    ensures Conv(Shunt([o1], [a, b]), [o2, c]) == Ok([a, b, c, o2, o1])
  {
    assert !IsNumber(o2);
    assert [o1] + [o2] == [o1, o2] && [a, b] + [c] == [a, b, c];
    assert [o2, c][1..] == [c] && [c][1..] == [];
    ConvAdvance(Shunt([o1], [a, b]), [o2, c], Shunt([o1, o2], [a, b]));
    ConvAdvance(Shunt([o1, o2], [a, b]), [c], Shunt([o1, o2], [a, b, c]));
    FlushTwo(o1, o2, [a, b, c]);
    assert [a, b, c] + [o2, o1] == [a, b, c, o2, o1];
  }

  /** Two operators between three numbers: the first is emitted before the
      third number exactly when it binds at least as tightly as the second,
      so operators of equal precedence, `^` included, group to the left. */
  lemma TwoOperators(a: string, o1: string, b: string, o2: string, c: string)
    requires IsNumber(a) && IsNumber(b) && IsNumber(c) && IsOperator(o1) && IsOperator(o2)
    ensures Prec(o1) >= Prec(o2) ==> Convert([a, o1, b, o2, c]) == Ok([a, b, o1, c, o2])
    ensures Prec(o1) < Prec(o2) ==> Convert([a, o1, b, o2, c]) == Ok([a, b, c, o2, o1])
  {
    NumberOperatorNumber(a, o1, b, [o2, c]);
    assert [a, o1, b] + [o2, c] == [a, o1, b, o2, c];
    if Prec(o1) >= Prec(o2) {
      PopsFirst(a, o1, b, o2, c);
    } else {
      StacksSecond(a, o1, b, o2, c);
    }
  }

  lemma OpenedOperation(a: string, o1: string, b: string, rest: seq<string>)
    requires IsNumber(a) && IsNumber(b) && IsOperator(o1)
    ensures Convert(["(", a, o1, b] + rest) == Conv(Shunt(["(", o1], [a, b]), rest)
  {
    var none: seq<string> := [];
    assert !IsNumber(o1) && !IsNumber("(");
    assert none + ["("] == ["("] && none + [a] == [a] && ["("] + [o1] == ["(", o1] && [a] + [b] == [a, b];
    assert PopWhileHigher(["("], [a], Prec(o1)) == Shunt(["("], [a]);
    var ts := ["(", a, o1, b] + rest;
    assert ts[1..] == [a, o1, b] + rest && ts[1..][1..] == [o1, b] + rest;
    assert ts[1..][1..][1..] == [b] + rest && ts[1..][1..][1..][1..] == rest;
    ConvAdvance(Shunt([], []), ts, Shunt(["("], []));
    ConvAdvance(Shunt(["("], []), ts[1..], Shunt(["("], [a]));
    ConvAdvance(Shunt(["("], [a]), ts[1..][1..], Shunt(["(", o1], [a]));
    ConvAdvance(Shunt(["(", o1], [a]), ts[1..][1..][1..], Shunt(["(", o1], [a, b]));
  }

  lemma ClosedThenOperator(a: string, o1: string, b: string, o2: string, c: string)
    requires IsNumber(c) && IsOperator(o1) && IsOperator(o2)
    ensures Conv(Shunt(["(", o1], [a, b]), [")", o2, c]) == Ok([a, b, o1, c, o2])
  {
    var none: seq<string> := [];
    assert !IsNumber(o2) && !IsNumber(")");
    assert ["(", o1][..1] == ["("] && ["("][..0] == [];
    assert [a, b] + [o1] == [a, b, o1] && none + [o2] == [o2] && [a, b, o1] + [c] == [a, b, o1, c];
    assert PopToOpen(["(", o1], [a, b]) == Ok(Shunt([], [a, b, o1]));
    assert [")", o2, c][1..] == [o2, c] && [o2, c][1..] == [c] && [c][1..] == [];
    ConvAdvance(Shunt(["(", o1], [a, b]), [")", o2, c], Shunt([], [a, b, o1]));
    ConvAdvance(Shunt([], [a, b, o1]), [o2, c], Shunt([o2], [a, b, o1]));
    ConvAdvance(Shunt([o2], [a, b, o1]), [c], Shunt([o2], [a, b, o1, c]));
    FlushOne(o2, [a, b, o1, c]);
    assert [a, b, o1, c] + [o2] == [a, b, o1, c, o2];
  }

  /** A parenthesised operation is emitted whole before the operator that
      follows it, whatever the precedences. */
  lemma ParenthesisedFirst(a: string, o1: string, b: string, o2: string, c: string)
    requires IsNumber(a) && IsNumber(b) && IsNumber(c) && IsOperator(o1) && IsOperator(o2)
    ensures Convert(["(", a, o1, b, ")", o2, c]) == Ok([a, b, o1, c, o2])
  {
    OpenedOperation(a, o1, b, [")", o2, c]);
    assert ["(", a, o1, b] + [")", o2, c] == ["(", a, o1, b, ")", o2, c];
    ClosedThenOperator(a, o1, b, o2, c);
  }

  /** "3 + 4 * 2" becomes "3 4 2 * +", "2 ^ 3 ^ 2" becomes "2 3 ^ 2 ^" and
      "(1 + 2) * 3" becomes "1 2 + 3 *". */
  lemma ConversionExamples()
    ensures Convert(["3", "+", "4", "*", "2"]) == Ok(["3", "4", "2", "*", "+"])
    ensures Convert(["2", "^", "3", "^", "2"]) == Ok(["2", "3", "^", "2", "^"])
    ensures Convert(["(", "1", "+", "2", ")", "*", "3"]) == Ok(["1", "2", "+", "3", "*"])
  {
    TwoOperators("3", "+", "4", "*", "2");
    TwoOperators("2", "^", "3", "^", "2");
    ParenthesisedFirst("1", "+", "2", "*", "3");
  }
}
