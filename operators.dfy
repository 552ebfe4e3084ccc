/** The operator table, the character classes of the C library that the
    evaluator relies on, the one "is this token a number" test shared by the
    converter and the evaluator, and the arithmetic of applyOp. */
module Operators {
  import opened Results

  /** std::isdigit in the "C" locale. */
  predicate IsDigit(c: char) {
    '0' <= c <= '9'
  }

  /** std::isspace in the "C" locale: space, \t, \n, \v, \f and \r. */
  predicate IsSpace(c: char) {
    c == ' ' || 9 <= c as int <= 13
  }

  predicate NoSpace(t: string) {
    forall i :: 0 <= i < |t| ==> !IsSpace(t[i])
  }

  /** The six operator characters. */
  predicate IsOperatorChar(c: char) {
    c == '+' || c == '-' || c == '*' || c == '/' || c == '%' || c == '^'
  }

  /** `token[0]` of a std::string: the first character, or the terminating
      NUL when the string is empty. */
  function FirstChar(t: string): char {
    if |t| > 0 then t[0] else 0 as char
  }

  /** precedence: additive operators bind loosest, '^' tightest, and every
      character that is not an operator has precedence 0. */
  function Precedence(op: char): (p: int)
    ensures 0 <= p <= 3
    ensures p > 0 <==> IsOperatorChar(op)
    ensures p == 1 <==> op == '+' || op == '-'
    ensures p == 2 <==> op == '*' || op == '/' || op == '%'
    ensures p == 3 <==> op == '^'
  {
    if op == '+' || op == '-' then 1
    else if op == '*' || op == '/' || op == '%' then 2
    else if op == '^' then 3
    else 0
  }

  /** Precedence of the first character of a token, as `precedence(t[0])`. */
  function Prec(t: string): int {
    Precedence(FirstChar(t))
  }

  /** isOperator: the token is exactly one of the six operator strings. */
  predicate IsOperator(t: string)
    ensures IsOperator(t) <==> |t| == 1 && IsOperatorChar(t[0])
  {
    t == "+" || t == "-" || t == "*" || t == "/" || t == "%" || t == "^"
  }

  /** The shared number test: the first character is a digit, or the token
      contains a '.', or it is longer than one character and starts with '-'.
      The classes the converter tells apart never overlap: a number is
      neither an operator nor a parenthesis, and only a non-empty token can be
      a number. */
  predicate IsNumber(t: string)
    ensures IsNumber(t) ==> |t| > 0 && !IsOperator(t) && t != "(" && t != ")"
  {
    IsDigit(FirstChar(t)) || (exists i :: 0 <= i < |t| && t[i] == '.') || (|t| > 1 && t[0] == '-')
  }

  /** `int(x)` for a float: truncation toward zero. */
  function Trunc(x: real): (n: int)
    ensures x >= 0.0 ==> 0 <= n && n as real <= x < n as real + 1.0
    ensures x < 0.0 ==> n <= 0 && n as real - 1.0 < x <= n as real
  {
    if x >= 0.0 then x.Floor else -((-x).Floor)
  }

  function Abs(n: int): int {
    if n < 0 then -n else n
  }

  /** C++ integer division: the quotient truncated toward zero. */
  function CQuot(x: int, y: int): int
    requires y != 0
  {
    var q := Abs(x) / Abs(y);
    if (x < 0) == (y < 0) then q else -q
  }

  /** C++ integer `%`: what is left once the truncated quotient is taken out.
      Its sign follows the dividend and it is smaller than the divisor. */
  function CRem(x: int, y: int): (r: int)
    requires y != 0
    ensures x >= 0 ==> 0 <= r < Abs(y)
    ensures x < 0 ==> -Abs(y) < r <= 0
  {
    var r := Abs(x) % Abs(y);
    if x < 0 then -r else r
  }

  /** The C++ guarantee (x / y) * y + x % y == x. */
  lemma RemainderIdentity(x: int, y: int)
    requires y != 0
    ensures x == y * CQuot(x, y) + CRem(x, y)
  {
    QuotientTimesDivisor(x, y);
  }

  lemma QuotientTimesDivisor(x: int, y: int)
    requires y != 0
    ensures y * CQuot(x, y) == if x < 0 then -(Abs(x) - Abs(x) % Abs(y)) else Abs(x) - Abs(x) % Abs(y)
  {
    var ax, ay := Abs(x), Abs(y);
    var q := ax / ay;
    assert ax == ay * q + ax % ay;
    if y < 0 {
      assert y == -ay;
      if x < 0 {
        assert CQuot(x, y) == q;
        assert y * q == -(ay * q);
      } else {
        assert CQuot(x, y) == -q;
        assert y * -q == ay * q;
      }
    } else {
      assert y == ay;
      if x < 0 {
        assert CQuot(x, y) == -q;
        assert y * -q == -(ay * q);
      } else {
        assert CQuot(x, y) == q;
      }
    }
  }

  /** applyOp. `^` is std::pow, which the model takes as the parameter `pow`. */
  function ApplyOp(a: real, b: real, op: char, pow: (real, real) -> real): (r: Result<real>)
    ensures r.Err? <==> (op == '/' && b == 0.0) || (op == '%' && Trunc(b) == 0)
    ensures r.Err? ==> r.error == (if op == '/' then DivisionByZero else ModuloByZero)
    ensures op == '+' ==> r == Ok(a + b)
    ensures op == '-' ==> r == Ok(a - b)
    ensures op == '*' ==> r == Ok(a * b)
    ensures op == '/' && b != 0.0 ==> r == Ok(a / b)
    ensures op == '%' && r.Ok? ==> r.value == CRem(Trunc(a), Trunc(b)) as real
    ensures op == '^' ==> r == Ok(pow(a, b))
    ensures !IsOperatorChar(op) ==> r == Ok(0.0)
  {
    match op
    case '+' => Ok(a + b)
    case '-' => Ok(a - b)
    case '*' => Ok(a * b)
    case '/' => if b == 0.0 then Err(DivisionByZero) else Ok(a / b)
    case '%' =>
      var x, y := Trunc(a), Trunc(b);
      if y == 0 then Err(ModuloByZero) else Ok(CRem(x, y) as real)
    case '^' => Ok(pow(a, b))
    case _ => Ok(0.0)
  }

  /** `%` truncates both operands before taking the remainder: 5.7 % 2 is 1,
      not 1.7, and -7.5 % 2 is -1. */
  lemma ModuloTruncatesOperands(pow: (real, real) -> real)
    ensures ApplyOp(5.7, 2.0, '%', pow) == Ok(1.0)
    ensures ApplyOp(-7.5, 2.0, '%', pow) == Ok(-1.0)
    ensures ApplyOp(5.0, 0.5, '%', pow) == Err(ModuloByZero)
  {
    assert Trunc(5.7) == 5;
    assert Trunc(-7.5) == -7;
    assert Trunc(0.5) == 0;
  }
}
