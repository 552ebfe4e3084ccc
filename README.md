# Infix expression evaluator — Dafny model

This project models the expression pipeline of the calculator in
`FLTK_GUI/Evaluator.h`. One input line goes through these stages:

- `tokenize` splits the line into tokens. It then replaces constant and variable names with the text of their values.
- `hasConsecutiveOperators` and `isValidExpression` reject two operators side by side and unbalanced parentheses.
- `infixToPostfix` turns the tokens into postfix text with the shunting-yard algorithm.
- `evaluatePostfix` runs that text on a value stack, calling `applyOp` for each operator.

Each stage is a specification function on values. The loops of the source are
methods proved equal to those functions: `Lexer.Tokenize`,
`Validator.IsValidExpression`, `Validator.HasConsecutiveOperators`,
`Converter.InfixToPostfix` and `Evaluator.EvaluatePostfix`. The lemmas state what the
source promises about the functions: conservation, ordering, arity and round trips.

One iteration of the console loop `run_val` is modelled as the class
`Session.Calculator`: it binds a variable, or evaluates and records the line in
the history. Reading and printing are left to the caller.

Modelling choices:

- Numbers are `real`. So `+ - * /` are exact, and `std::pow` is a parameter `pow: (real, real) -> real`.
- `std::to_string` is rendered as `"%f"`: an optional sign, the whole digits, a point and six digits, rounded to the nearest, with an exact half rounded to the even neighbour as `"%f"` does.
- `std::stof` reads the longest decimal prefix of a token.
- The undefined behaviour of the source becomes explicit errors:
  - `stack.top()` or `pop()` on an empty stack is `StackUnderflow` or `MissingOpenParen`;
  - `int(a) % 0` is `ModuloByZero`.
- Exceptions become `Result` values carrying an `Error`.

Modules, in dependency order:

| module | file | what it holds |
|---|---|---|
| `Results` | results.dfy | `Option`, `Result` and the error kinds |
| `Operators` | operators.dfy | `precedence`, `isOperator`, the number test, `applyOp` and C++ truncating `%` |
| `Numerals` | numerals.dfy | `std::to_string` as `"%f"`, `std::stof` on decimal numerals, their round trip |
| `Lexer` | lexer.dfy | `tokenize`, both passes |
| `Validator` | validator.dfy | `isValidExpression`, `hasConsecutiveOperators` |
| `Converter` | converter.dfy | `infixToPostfix` |
| `Evaluator` | evaluator.dfy | `evaluatePostfix` |
| `Grammar` | grammar.dfy | the check the validators miss, which is the corrected behaviour of the first finding below |
| `Session` | session.dfy | one line of `run_val` |

## Model

| member | source | states |
|---|---|---|
| Operators.Precedence | FLTK_GUI/Evaluator.h:14-19 | The result is 1 exactly for `+ -`, 2 exactly for `* / %`, 3 exactly for `^`, and 0 exactly for every other character. |
| Operators.IsOperator | FLTK_GUI/Evaluator.h:33-35 | A token is an operator exactly when it is one character long and that character is one of the six operator characters. |
| Operators.IsNumber | FLTK_GUI/Evaluator.h:75 | The number test that the converter uses here and the evaluator repeats at line 136 (the same three conditions in another order). A token that passes it is non-empty, is not an operator and is not a parenthesis, so the converter's branches never overlap. |
| Operators.ApplyOp | FLTK_GUI/Evaluator.h:21-31 | There is an error exactly for `/` by zero (DivisionByZero) or `%` by a divisor that truncates to zero (ModuloByZero). Otherwise: `+ - * /` give the arithmetic result, `%` gives the C++ remainder of the truncated operands, `^` gives `pow(a, b)`, and any other character gives 0. |
| Operators.Trunc | FLTK_GUI/Evaluator.h:27 | `int(x)` truncates toward zero: it lies within one of x, on zero's side of x. |
| Operators.CRem | FLTK_GUI/Evaluator.h:27 | The C++ remainder takes the sign of the dividend, and its magnitude is below the divisor's. |
| Operators.RemainderIdentity | FLTK_GUI/Evaluator.h:27 | The truncating quotient and the remainder rebuild the dividend: `x == y*q + r`. |
| Operators.ModuloTruncatesOperands | FLTK_GUI/Evaluator.h:27 | `5.7 % 2` is 1, `-7.5 % 2` is -1, and `5 % 0.5` fails because 0.5 truncates to 0. |
| Numerals.Render | FLTK_GUI/Evaluator.h:61 | The substituted text of a value is non-empty and has no space. It passes the number test, and it starts with `-` exactly when the value is negative. |
| Numerals.ScaledNearest | FLTK_GUI/Evaluator.h:61 | The six-decimal digits `std::to_string` writes are the nearest integer to the value times 10^6: within a half of it, and equal to any integer strictly nearer than a half. Of two equally near integers they are the even one. |
| Numerals.TieToEvenExample | FLTK_GUI/Evaluator.h:61 | 1/128 = 0.0078125 lies exactly half-way and is written as `0.007812`. |
| Numerals.RenderRoundTrip | FLTK_GUI/Evaluator.h:137 | `std::stof` reading back what `std::to_string` wrote gives the value rounded to six decimals. |
| Numerals.ParseNumber | FLTK_GUI/Evaluator.h:137 | `std::stof` on a token, for decimal numerals only: a token that starts with a digit always reads as a value of at least 0. A negative value comes only from a leading `-`, and a leading `-` never gives a positive value. |
| Numerals.MagnitudeSign | FLTK_GUI/Evaluator.h:137 | The unsigned part of a numeral reads successfully whenever it starts with a digit, and what it reads is never negative. |
| Numerals.ParseNeedsDigit | FLTK_GUI/Evaluator.h:137 | `std::stof` succeeds only on a token that holds at least one digit; `.` or `-.` alone are unreadable. |
| Numerals.ParseDecimalExample | FLTK_GUI/Evaluator.h:137 | `2.5` reads as 2.5. |
| Numerals.ParseFractionExample | FLTK_GUI/Evaluator.h:137 | `-.5` reads as -0.5: the whole part may be empty when a fraction follows. |
| Numerals.ParsePrefixExample | FLTK_GUI/Evaluator.h:137 | `std::stof` reads the longest numeral prefix: `7x` reads as 7, and `x` is unreadable. |
| Numerals.ReadDigits | FLTK_GUI/Evaluator.h:137 | Any non-empty string of decimal digits, leading zeros included, reads as the natural number it spells. |
| Numerals.DigitsRoundTrip | FLTK_GUI/Evaluator.h:137 | The decimal numeral of n (no leading zeros) reads back as n. |
| Numerals.LeadingZerosExample | FLTK_GUI/Evaluator.h:137 | `007` reads as 7. |
| Numerals.LeadingDigitsLongest | FLTK_GUI/Evaluator.h:137 | The digit prefix `std::stof` reads is a prefix of the token and stops at the first character that is not a digit. |
| Lexer.Tokenize | FLTK_GUI/Evaluator.h:37-68 | The character loop and the in-place rewrite return exactly the tokens of the two-pass specification. |
| Lexer.SplitLexemes | FLTK_GUI/Evaluator.h:40-56 | Every token of pass 1 is either a single operator or parenthesis character, or a non-empty run with no delimiter. The tokens joined back together are the input with its whitespace removed. |
| Lexer.ScanConcat | FLTK_GUI/Evaluator.h:40-56 | From any point of the loop, the tokens emitted plus the token being built plus the rest of the input, without spaces, stay the same. |
| Lexer.LexemeShape | FLTK_GUI/Evaluator.h:41-48 | A pass-1 token is non-empty and has no space. A token holding a delimiter is that one character alone, and it is an operator or a parenthesis. |
| Lexer.TokensShape | FLTK_GUI/Evaluator.h:58-66 | Pass 2 keeps the number of tokens. A constant's name becomes its rendering, a variable's name not shadowed by a constant becomes its rendering, and any other token is unchanged. Every token stays non-empty and free of spaces. |
| Lexer.ResolveShape | FLTK_GUI/Evaluator.h:59-66 | A rewritten token is either the token itself or a numeral that passes the number test. |
| Lexer.SplitWord | FLTK_GUI/Evaluator.h:40-56 | A line with no delimiter is a single token. |
| Lexer.SpacedNameNeverResolved | FLTK_GUI/Evaluator.h:63-64 | Binding a name that contains whitespace never changes what any line tokenizes to. |
| Validator.IsValidExpression | FLTK_GUI/Evaluator.h:149-169 | The counter loop returns the verdict on prefix depths. It succeeds exactly when the tokens are balanced. |
| Validator.ParenVerdictCases | FLTK_GUI/Evaluator.h:149-168 | Three iff statements: success iff every prefix depth is non-negative and the total is 0; "too many closing" iff some prefix goes negative; "not all closed" iff no prefix goes negative and the total is positive. |
| Validator.TooManyClosingExample | FLTK_GUI/Evaluator.h:156-159 | `1 + 2 )` is rejected for too many closing parentheses. |
| Validator.NotAllClosedExample | FLTK_GUI/Evaluator.h:164-166 | `( 1 + 2` is rejected because not all parentheses are closed. |
| Validator.BalancedExample | FLTK_GUI/Evaluator.h:149-169 | `( 1 + 2 ) * 3` is accepted. |
| Validator.HasConsecutiveOperators | FLTK_GUI/Evaluator.h:171-185 | The flag loop answers true exactly when some two neighbouring tokens are both operators. |
| Validator.ConsecutiveOperatorsExample | FLTK_GUI/Evaluator.h:171-185 | `1 + * 2` has adjacent operators. In `1 + 2 * 3` the number between the operators resets the flag. |
| Converter.InfixToPostfix | FLTK_GUI/Evaluator.h:70-108 | The stack loops return exactly the postfix text of the conversion specification, or MissingOpenParen. |
| Converter.ConvertSpec | FLTK_GUI/Evaluator.h:74-107 | The conversion fails exactly when some prefix closes more than it opens, and then the error is MissingOpenParen. A successful output is a permutation of the input's numbers and operators, and its numbers keep their input order. On balanced input the conversion succeeds and its output has no parenthesis and no unknown token. |
| Converter.ConvFails | FLTK_GUI/Evaluator.h:83-91 | From any converter state, the rest of the conversion fails exactly when the remaining tokens close more parentheses than the stack holds. |
| Converter.ConvKeeps | FLTK_GUI/Evaluator.h:74-107 | The output is, as a multiset, the numbers and operators already written, plus those still stacked, plus those still to come. |
| Converter.ConvOrdersNumbers | FLTK_GUI/Evaluator.h:75-78 | The numbers of the output are those already written, followed by those of the remaining input, in order. |
| Converter.ConvVisible | FLTK_GUI/Evaluator.h:102-106 | When the parentheses close up, nothing but numbers and operators reaches the output. |
| Converter.StepFails | FLTK_GUI/Evaluator.h:83-91 | One token fails exactly when it is `)` and the stack holds no `(`. |
| Converter.StepShape | FLTK_GUI/Evaluator.h:79-100 | After one token the stack holds only `(` and operators. Its count of `(` changes by the token's parenthesis weight. |
| Converter.StepKeeps | FLTK_GUI/Evaluator.h:74-101 | One token moves numbers and operators between input, stack and output without losing or duplicating any. The numbers of the output grow by the token if it is a number. |
| Converter.PopToOpenShape | FLTK_GUI/Evaluator.h:84-89 | Popping to `(` fails exactly when the stack holds no `(`. On success exactly one `(` is removed. |
| Converter.PopWhileHigherKeeps | FLTK_GUI/Evaluator.h:93-97 | The popping loop of an incoming operator only moves operators from stack to output. It removes no `(` and writes no number. |
| Converter.FlushAllKeeps | FLTK_GUI/Evaluator.h:102-106 | The final flush appends the whole stack to the output, top first, including any `(` still on it. So every stacked operator reaches the output and no number is written. |
| Converter.TwoOperators | FLTK_GUI/Evaluator.h:92-100 | In `a o1 b o2 c`, `o1` is written before `c` when its precedence is greater or equal. Otherwise `o2` is written first. Equal precedence therefore groups to the left. |
| Converter.ParenthesisedFirst | FLTK_GUI/Evaluator.h:79-100 | `( a o1 b ) o2 c` writes `o1` before `c`, whatever the two precedences. |
| Converter.ConversionExamples | FLTK_GUI/Evaluator.h:93-98 | `3+4*2` gives `3 4 2 * +`, `2^3^2` gives `2 3 ^ 2 ^` (left-associative), and `(1+2)*3` gives `1 2 + 3 *`. |
| Evaluator.EvaluatePostfix | FLTK_GUI/Evaluator.h:131-146 | The stream loop returns exactly the value of the stack-machine specification on the words of the text, or its error. |
| Evaluator.ExecToken | FLTK_GUI/Evaluator.h:136-143 | One word pushes the number it reads, or pops `b` then `a` and pushes `applyOp(a, b)`, or fails as the specification says. |
| Evaluator.WordEnd | FLTK_GUI/Evaluator.h:135 | The word `>>` extracts ends at the first whitespace or at the end of the text, and holds no whitespace. |
| Evaluator.FirstWord | FLTK_GUI/Evaluator.h:135 | The first word is a space-free prefix that stops at whitespace, and it is non-empty when the text starts with a non-space. |
| Evaluator.WordsOfJoin | FLTK_GUI/Evaluator.h:133-135 | Reading back, word by word, the tokens that the converter wrote each followed by a space gives exactly those tokens. |
| Evaluator.RunHeight | FLTK_GUI/Evaluator.h:135-144 | A successful run leaves as many values as the arity count predicts: numbers add one, operators take one. An underflow implies that the count drops below two before some operator. Conversely, when the count does so the run fails: with an underflow, unless an unreadable number or a zero divisor stops it first (`1 0 / +` fails with DivisionByZero). The only errors are underflow, an unreadable number and the two zero divisors. |
| Evaluator.EvaluateHeight | FLTK_GUI/Evaluator.h:131-146 | An underflow implies that the count runs out or ends at 0. When it does, evaluation fails: with an underflow, unless an unreadable number or a zero divisor stops it first. The only errors are those four. When the count ends at 1, the result is the one value left. |
| Evaluator.RunCons | FLTK_GUI/Evaluator.h:135-144 | The loop over words is one word executed, then the loop over the rest; an error stops it. |
| Evaluator.PushDigitWord | FLTK_GUI/Evaluator.h:136-137 | Any word of decimal digits, leading zeros included, pushes the natural number it spells. |
| Evaluator.PushDigits | FLTK_GUI/Evaluator.h:136-137 | The decimal numeral of n (no leading zeros) pushes n. |
| Evaluator.OperatorWord | FLTK_GUI/Evaluator.h:136-139 | An operator word never takes the number branch. |
| Evaluator.PrecedenceExample | FLTK_GUI/Evaluator.h:135-145 | `3 4 2 * +` evaluates to 11. |
| Evaluator.MultiplyThenAdd | FLTK_GUI/Evaluator.h:139-143 | From stack 3 4 2, `* +` leaves 11. |
| Evaluator.AddLast | FLTK_GUI/Evaluator.h:139-143 | From stack 3 8, `+` leaves 11. |
| Evaluator.DivisionByZeroExample | FLTK_GUI/Evaluator.h:26 | `1 0 /` fails with DivisionByZero. |
| Evaluator.UnderflowExample | FLTK_GUI/Evaluator.h:140-141 | `1 +` pops from a stack holding one value and fails with StackUnderflow. |
| Grammar.IsWellFormed | FLTK_GUI/Evaluator.h:210-215 | The one-pass check accepts exactly the token sequences the expression automaton accepts. |
| Grammar.AcceptsBalanced | FLTK_GUI/Evaluator.h:149-168 | Every accepted sequence has balanced parentheses. |
| Grammar.AcceptsNoAdjacent | FLTK_GUI/Evaluator.h:171-185 | No accepted sequence has two neighbouring operators, and none starts with an operator. |
| Grammar.WellFormedPassesChecks | FLTK_GUI/Evaluator.h:210-215 | A well-formed sequence passes both checks of the source. |
| Grammar.StepOpenInv | FLTK_GUI/Evaluator.h:79-82 | Where an operand is due, `(` keeps the arity invariant and opens one more level. |
| Grammar.StepCloseInv | FLTK_GUI/Evaluator.h:83-91 | After an operand, `)` succeeds and keeps the arity invariant. |
| Grammar.StepOperatorInv | FLTK_GUI/Evaluator.h:92-100 | After an operand, an operator keeps the arity invariant: one value is waiting per stacked operator. |
| Grammar.ConvHeight | FLTK_GUI/Evaluator.h:70-108 | From a state that meets the invariant, an accepted rest converts successfully to postfix that leaves exactly one value. |
| Grammar.WellFormedConverts | FLTK_GUI/Evaluator.h:216 | A well-formed sequence converts without error, and its postfix leaves exactly one value. |
| Grammar.OutputFromInput | FLTK_GUI/Evaluator.h:74-107 | On balanced input, every output token is one of the input tokens. |
| Grammar.WellFormedEvaluates | FLTK_GUI/Evaluator.h:216-217 | For well-formed tokens, the evaluator reads back exactly the converted tokens and never underflows. A success is the single value left on the stack. |
| Grammar.DanglingOperator | FLTK_GUI/Evaluator.h:140-145 | `1 +` passes both checks of the source and converts to `1 +`. Evaluating it then pops an empty stack. The grammar check rejects it. |
| Grammar.DanglingChecks | FLTK_GUI/Evaluator.h:210-215 | `1 +` has balanced parentheses and no adjacent operators. |
| Grammar.DanglingConverts | FLTK_GUI/Evaluator.h:70-108 | `1 +` converts to `1 +`. |
| Grammar.DanglingUnderflows | FLTK_GUI/Evaluator.h:140-141 | Evaluating `1 + ` underflows. |
| Grammar.DanglingRejected | FLTK_GUI/Evaluator.h:210-215 | The grammar check rejects `1 +`. |
| Session.Find | FLTK_GUI/Evaluator.h:203 | A found position holds the first `=`. No position means the line has no `=`. |
| Session.TrimStart | FLTK_GUI/Evaluator.h:205 | The result is a suffix that starts with a non-space, and only whitespace was dropped. |
| Session.TrimEnd | FLTK_GUI/Evaluator.h:205 | The result is a prefix that ends with a non-space, and only whitespace was dropped. |
| Session.Calculator.constructor | FLTK_GUI/Evaluator.h:190-192 | A session starts with the given constants, no variables and an empty history. |
| Session.Calculator.Compute | FLTK_GUI/Evaluator.h:228-237 | The method follows the pipeline of one `try` block: tokenize, the two checks, the grammar check, conversion and evaluation, and the first failure wins. |
| Session.Calculator.ProcessLine | FLTK_GUI/Evaluator.h:195-245 | One line leaves the variables and the history exactly as the specification of one loop iteration says. |
| Session.CalculationErrors | FLTK_GUI/Evaluator.h:208-245 | A line fails only with a check's error, an unreadable number or a zero divisor. It never fails for want of an operand or of a `(`. A success is the single value its postfix leaves. |
| Session.ProcessEffects | FLTK_GUI/Evaluator.h:203-245 | Exit and failures leave variables and history unchanged. An assignment binds one variable and leaves the history alone. An evaluation appends `line = value` to the history and leaves the variables alone. |
| Session.RecallVariable | FLTK_GUI/Evaluator.h:63-64 | A bound plain name, read alone, evaluates to its value rounded to six decimals, unless a constant shadows it. |
| Session.AssignThenRecall | FLTK_GUI/Evaluator.h:218 | With the name trimmed, a later line holding only that name recalls the value bound by an assignment. |
| Session.SingleNumber | FLTK_GUI/Evaluator.h:136-137 | A one-numeral line passes every check, converts to itself and evaluates to what `std::stof` reads. |
| Session.ProcessExit | FLTK_GUI/Evaluator.h:199-201 | `exit` and `Exit` end the session and change nothing, in the model and as written. |
| Session.ProcessAssignment | FLTK_GUI/Evaluator.h:203-225 | A line other than `exit`/`Exit` that holds `=` is an assignment of what follows the first `=`, in the model and as written. |
| Session.ProcessExpression | FLTK_GUI/Evaluator.h:227-245 | A line other than `exit`/`Exit` without `=` is evaluated and recorded, in the model and as written. |
| Session.CalculationAgrees | FLTK_GUI/Evaluator.h:208-245 | The grammar check only adds rejections: a line either gives what the code gives or is rejected as ill-formed. On a line whose tokens are well formed the two agree exactly. |
| Session.JuxtapositionExample | FLTK_GUI/Evaluator.h:145 | As written, `1 2` passes both checks, its postfix `1 2 ` leaves two values, and the top one, 2, is the answer. The grammar check rejects that line. |
| Session.ProcessAgrees | FLTK_GUI/Evaluator.h:195-245 | On a line whose expression is well formed and whose variable name has no surrounding whitespace, one step of the model is exactly one step of `run_val` as written. |
| Session.SpacedAssignmentName | FLTK_GUI/Evaluator.h:205 | For `x = 10` the source binds `x ` with its space, and the trimmed name is `x`. |
| Session.SpacedNameIsLost | FLTK_GUI/Evaluator.h:205 | Binding `x ` changes no later line's tokens, so `x` is never found. |

## Left out

- Floating point: values are exact reals. `float` rounding, overflow, infinities and NaN, and the float-to-double conversion around `std::to_string`, are not modelled.
- `std::pow` is an uninterpreted parameter: nothing is assumed about it.
- Operators.ApplyOp: `int(a) % int(b)` does not model the out-of-range conversion of values beyond the `int` range.
- Numerals.ParseNumber: `std::stof` reads only decimal numerals with an optional sign, digits and a fraction. Exponents, hexadecimal forms, `inf`/`nan`, leading whitespace and `std::out_of_range` are not modelled.
- `loadConstants` reads a file. The constants map is a parameter of the session.
- The console I/O of `run_val` is not modelled: reading the line, printing the result, the postfix, the errors and the history. The `std::cout` trace lines of `infixToPostfix` are not modelled either. Only the state change of one line is.
- Postfix evaluation is not proved equal to a direct recursive evaluation of the infix expression; no infix evaluator is modelled. The model proves the conversion's conservation, number order, absence of parentheses and arity, and worked examples of precedence and associativity.
- Tokens that are neither numbers, parentheses nor operators are dropped by the converter and skipped by the evaluator, as the code does. They are not reported as unreadable numbers.
- When more than one value is left on the stack, `evaluatePostfix` returns the top one and reports no error (Evaluator.Evaluate, Session.JuxtapositionExample). For well-formed input exactly one value is left (Grammar.WellFormedEvaluates).
- `^` is left-associative, because the converter compares precedence with `>=` (Converter.ConversionExamples).
- The `continue` taken when `isValidExpression` returns false cannot be reached: that function either throws or returns true (Validator.IsValidExpression).
- Session.Calculator.Compute: the grammar check rejects more than the dangling operators of the first finding. It also rejects every line whose postfix would leave more than one value, such as `1 2` or `2 (3 + 4)`, where the code answers with the top value (2 and 7). Session.CalculationAsWritten models the code without that check, and Session.CalculationAgrees and Session.JuxtapositionExample relate the two.
- Session.Calculator.ProcessLine: it adds the grammar check and trims the variable name, the corrected behaviours of the two findings below. So it differs from `run_val` as written on dangling operators, on juxtaposed operands and on names with surrounding whitespace. Session.ProcessAsWritten models `run_val` as written, and Session.ProcessAgrees shows that the two agree on every line whose expression is well formed and whose variable name has no surrounding whitespace.

## Findings

| source | as written | input that shows it | evidently intended | confidence | as-written member | corrected member |
|---|---|---|---|---|---|---|
| FLTK_GUI/Evaluator.h:131-146 | `hasConsecutiveOperators` and `isValidExpression` pass a line that ends or starts with an operator. `evaluatePostfix` then calls `stack.top()` on an empty stack, which is undefined behaviour. | `1 +` | Reject such a line before evaluating, so that evaluation never runs out of operands. | not executed | Grammar.DanglingOperator | Grammar.WellFormedEvaluates |
| FLTK_GUI/Evaluator.h:205 | The variable name is `substr(0, equals)` without trimming, so `x = 10` binds `x ` with a trailing space. No token ever contains a space, so that binding can never be read. | `x = 10`, then `x` | Bind the trimmed name `x`. | not executed | Session.SpacedNameIsLost | Session.AssignThenRecall |
