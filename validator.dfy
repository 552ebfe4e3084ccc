/** The two checks run on a token sequence before it is converted:
    isValidExpression (parentheses balance) and hasConsecutiveOperators. */
module Validator {
  import opened Results
  import opened Operators

  /** How a token moves the count of open parentheses. */
  function Delta(t: string): int {
    if t == "(" then 1 else if t == ")" then -1 else 0
  }

  /** Open parentheses minus closed ones over the whole sequence. */
  function Depth(ts: seq<string>): int {
    if ts == [] then 0 else Depth(ts[..|ts| - 1]) + Delta(ts[|ts| - 1])
  }

  /** With c parentheses already open, some prefix of ts closes more than
      are open. */
  ghost predicate Dips(c: int, ts: seq<string>) {
    exists k :: 0 <= k <= |ts| && c + Depth(ts[..k]) < 0
  }

  /** Some prefix closes more parentheses than it opens. */
  ghost predicate ClosesTooMany(ts: seq<string>) {
    Dips(0, ts)
  }

  /** No prefix closes more than it opens, and all that is opened is closed. */
  ghost predicate Balanced(ts: seq<string>) {
    (forall k :: 0 <= k <= |ts| ==> Depth(ts[..k]) >= 0) && Depth(ts) == 0
  }

  /** The verdict on the parentheses, in terms of prefix depths. */
  ghost function ParenVerdict(ts: seq<string>): Result<bool> {
    if ClosesTooMany(ts) then Err(TooManyClosing)
    else if Depth(ts) != 0 then Err(NotAllClosed)
    else Ok(true)
  }

  /** Some two neighbouring tokens are both operators. */
  ghost predicate AdjacentOperators(ts: seq<string>) {
    exists i :: 0 <= i < |ts| - 1 && IsOperator(ts[i]) && IsOperator(ts[i + 1])
  }

  lemma DepthSnoc(ts: seq<string>, i: nat)
    requires i < |ts|
    ensures Depth(ts[..i + 1]) == Depth(ts[..i]) + Delta(ts[i])
  {
    assert ts[..i + 1][..i] == ts[..i];
  }

  /** isValidExpression: true when the parentheses balance, "too many
      closing" as soon as a prefix goes negative, "not all closed" when the
      count ends positive. It never answers false. */
  method IsValidExpression(tokens: seq<string>) returns (r: Result<bool>)
    ensures r == ParenVerdict(tokens)
    ensures r == Ok(true) <==> Balanced(tokens)
  {
    var open := 0;
    for i := 0 to |tokens|
      invariant open == Depth(tokens[..i])
      invariant forall k :: 0 <= k <= i ==> Depth(tokens[..k]) >= 0
    {
      DepthSnoc(tokens, i);
      if tokens[i] == "(" {
        open := open + 1;
      } else if tokens[i] == ")" {
        if open == 0 {
          assert Depth(tokens[..i + 1]) < 0;
          return Err(TooManyClosing);
        }
        open := open - 1;
      }
    }
    assert tokens[..|tokens|] == tokens;
    if open != 0 {
      return Err(NotAllClosed);
    }
    return Ok(true);
  }

  /** hasConsecutiveOperators: any token that is not an operator resets the
      flag, so only two operators side by side are reported. */
  method HasConsecutiveOperators(tokens: seq<string>) returns (b: bool)
    ensures b == AdjacentOperators(tokens)
  {
    var lastWasOperator := false;
    for i := 0 to |tokens|
      invariant lastWasOperator == (i > 0 && IsOperator(tokens[i - 1]))
      invariant forall j :: 0 <= j < i - 1 ==> !(IsOperator(tokens[j]) && IsOperator(tokens[j + 1]))
    {
      if IsOperator(tokens[i]) {
        if lastWasOperator {
          return true;
        }
        lastWasOperator := true;
      } else {
        lastWasOperator := false;
      }
    }
    return false;
  }

  /** Depth read from the front: the first token's effect comes first. */
  lemma {:induction false} DepthCons(t: string, rest: seq<string>)
    ensures Depth([t] + rest) == Delta(t) + Depth(rest)
    decreases |rest|
  {
    if rest == [] {
      assert [t] + rest == [t];
      assert [t][..0] == [];
    } else {
      var last := |rest| - 1;
      assert ([t] + rest)[..|rest|] == [t] + rest[..last];
      DepthCons(t, rest[..last]);
    }
  }

  /** Dips read from the front: the first token either closes one too many
      itself, or the rest dips from the count it leaves. */
  lemma DipsCons(c: int, ts: seq<string>)
    requires ts != [] && c >= 0
    ensures Dips(c, ts) <==> c + Delta(ts[0]) < 0 || Dips(c + Delta(ts[0]), ts[1..])
  {
    var t, rest := ts[0], ts[1..];
    forall k | 1 <= k <= |ts|
      ensures Depth(ts[..k]) == Delta(t) + Depth(rest[..k - 1])
    {
      assert ts[..k] == [t] + rest[..k - 1];
      DepthCons(t, rest[..k - 1]);
    }
    assert ts[..0] == [];
    if Dips(c, ts) {
      var k :| 0 <= k <= |ts| && c + Depth(ts[..k]) < 0;
      assert k >= 1;
      if k - 1 == 0 {
        assert rest[..0] == [];
      } else {
        assert c + Delta(t) + Depth(rest[..k - 1]) < 0;
      }
    }
    if c + Delta(t) < 0 {
      assert rest[..0] == [];
      assert c + Depth(ts[..1]) < 0;
    } else if Dips(c + Delta(t), rest) {
      var k :| 0 <= k <= |rest| && c + Delta(t) + Depth(rest[..k]) < 0;
      assert c + Depth(ts[..k + 1]) < 0;
    }
  }

  /** The two parenthesis errors are told apart exactly: exactly one of the
      three verdicts holds. */
  lemma ParenVerdictCases(ts: seq<string>)
    ensures ParenVerdict(ts) == Ok(true) <==> Balanced(ts)
    ensures ParenVerdict(ts) == Err(TooManyClosing) <==> ClosesTooMany(ts)
    ensures ParenVerdict(ts) == Err(NotAllClosed) <==> !ClosesTooMany(ts) && Depth(ts) > 0
  {
    assert ts[..|ts|] == ts;
    if !ClosesTooMany(ts) {
      assert Depth(ts[..|ts|]) >= 0;
    }
  }

  /** "(1 + 2" leaves a parenthesis open. */
  lemma NotAllClosedExample()
    ensures ParenVerdict(["(", "1", "+", "2"]) == Err(NotAllClosed)
  {
    var a := ["(", "1", "+", "2"];
    assert a[..0] == [] && a[..4] == a;
    DepthSnoc(a, 0); DepthSnoc(a, 1); DepthSnoc(a, 2); DepthSnoc(a, 3);
  }

  /** "1 + 2)" closes one parenthesis too many. */
  lemma TooManyClosingExample()
    ensures ParenVerdict(["1", "+", "2", ")"]) == Err(TooManyClosing)
  {
    var b := ["1", "+", "2", ")"];
    assert b[..0] == [];
    DepthSnoc(b, 0); DepthSnoc(b, 1); DepthSnoc(b, 2); DepthSnoc(b, 3);
    assert Depth(b[..4]) < 0;
  }

  /** "(1 + 2) * 3" balances. */
  lemma BalancedExample()
    ensures ParenVerdict(["(", "1", "+", "2", ")", "*", "3"]) == Ok(true)
  {
    var c := ["(", "1", "+", "2", ")", "*", "3"];
    assert c[..0] == [] && c[..7] == c;
    DepthSnoc(c, 0); DepthSnoc(c, 1); DepthSnoc(c, 2); DepthSnoc(c, 3);
    DepthSnoc(c, 4); DepthSnoc(c, 5); DepthSnoc(c, 6);
  }

  /** "1 + * 2" has two operators side by side; "1 + 2 * 3" has none. */
  lemma ConsecutiveOperatorsExample()
    ensures AdjacentOperators(["1", "+", "*", "2"])
    ensures !AdjacentOperators(["1", "+", "2", "*", "3"])
  {
    var d := ["1", "+", "*", "2"];
    assert IsOperator(d[1]) && IsOperator(d[2]);
  }
}
