/** One line of the interactive loop of run_val: "exit" ends the session,
    a line holding '=' binds a variable to the value of the expression on
    its right, and any other line is evaluated and recorded in the history.
    Reading the line and printing the answers are left to the caller. */
module Session {
  import opened Results
  import opened Operators
  import opened Numerals
  import opened Lexer
  import opened Validator
  import opened Converter
  import opened Evaluator
  import opened Grammar

  /** A successful evaluation: the value and the postfix string it came from. */
  datatype Answer = Answer(value: real, postfix: string)

  /** What one line leads to. */
  datatype Outcome =
    | Exit
    | Assigned(name: string, value: real)
    | Evaluated(value: real, postfix: string)
    | Failed(error: Error)

  /** The state one line may change. */
  datatype State = State(variables: map<string, real>, history: seq<string>)

  /** std::string::find of one character. */
  function Find(s: string, c: char): (r: Option<nat>)
    ensures r.Some? ==> r.value < |s| && s[r.value] == c && c !in s[..r.value]
    ensures r.None? ==> c !in s
  {
    if s == [] then None
    else if s[0] == c then Some(0)
    else
      match Find(s[1..], c)
      case None => None
      case Some(k) =>
        assert s[..k + 1] == [s[0]] + s[1..][..k];
        Some(k + 1)
  }

  function TrimStart(s: string): (r: string)
    ensures |r| <= |s| && r == s[|s| - |r|..]
    ensures r == [] || !IsSpace(r[0])
    ensures forall i :: 0 <= i < |s| - |r| ==> IsSpace(s[i])
  {
    if s != [] && IsSpace(s[0]) then TrimStart(s[1..]) else s
  }

  function TrimEnd(s: string): (r: string)
    ensures |r| <= |s| && r == s[..|r|]
    ensures r == [] || !IsSpace(r[|r| - 1])
    ensures forall i :: |r| <= i < |s| ==> IsSpace(s[i])
  {
    if s != [] && IsSpace(s[|s| - 1]) then TrimEnd(s[..|s| - 1]) else s
  }

  /** The text between the first and the last character that is not
      whitespace. */
  function Trim(s: string): string {
    TrimEnd(TrimStart(s))
  }

  /** The name run_val binds: everything before the '=', spaces included. */
  function AsWrittenName(line: string, eq: nat): string
    requires eq <= |line|
  {
    line[..eq]
  }

  /** The name the model binds: the text before the '=' without the
      whitespace around it. */
  function VariableName(line: string, eq: nat): string
    requires eq <= |line|
  {
    Trim(line[..eq])
  }

  /** The pipeline run_val applies to an expression: tokenize, the check for
      two operators side by side, the parenthesis check, the grammar check,
      the conversion and the evaluation, the first failure winning. */
  ghost function Calculation(text: string, constants: map<string, real>, variables: map<string, real>,
                             pow: (real, real) -> real): Result<Answer>
  {
    var tokens := Tokens(text, constants, variables);
    if AdjacentOperators(tokens) then Err(ConsecutiveOperators)
    else if ParenVerdict(tokens).Err? then Err(ParenVerdict(tokens).error)
    else if !WellFormed(tokens) then Err(IllFormed)
    else
      match Postfix(tokens)
      case Err(e) => Err(e)
      case Ok(postfix) =>
        match Evaluate(postfix, pow)
        case Err(e) => Err(e)
        case Ok(v) => Ok(Answer(v, postfix))
  }

  /** One line of the loop. */
  ghost function Process(constants: map<string, real>, st: State, line: string,
                         pow: (real, real) -> real): (Outcome, State)
  {
    if line == "exit" || line == "Exit" then (Exit, st)
    else
      match Find(line, '=')
      case Some(eq) => Bind(st, VariableName(line, eq), Calculation(line[eq + 1..], constants, st.variables, pow))
      case None => Record(st, line, Calculation(line, constants, st.variables, pow))
  }

  /** "exit" and "Exit" end the session and change nothing. */
  lemma ProcessExit(constants: map<string, real>, st: State, line: string, pow: (real, real) -> real)
    requires line == "exit" || line == "Exit"
    ensures Process(constants, st, line, pow) == (Exit, st)
    ensures ProcessAsWritten(constants, st, line, pow) == (Exit, st)
  {
  }

  /** A line holding '=' is an assignment of what is right of the first '='. */
  lemma ProcessAssignment(constants: map<string, real>, st: State, line: string, eq: nat,
                          pow: (real, real) -> real)
    requires line != "exit" && line != "Exit" && Find(line, '=') == Some(eq)
    ensures Process(constants, st, line, pow)
            == Bind(st, VariableName(line, eq), Calculation(line[eq + 1..], constants, st.variables, pow))
    ensures ProcessAsWritten(constants, st, line, pow)
            == Bind(st, AsWrittenName(line, eq), CalculationAsWritten(line[eq + 1..], constants, st.variables, pow))
  {
  }

  /** A line without '=' is an expression to evaluate. */
  lemma ProcessExpression(constants: map<string, real>, st: State, line: string, pow: (real, real) -> real)
    requires line != "exit" && line != "Exit" && Find(line, '=').None?
    ensures Process(constants, st, line, pow) == Record(st, line, Calculation(line, constants, st.variables, pow))
    ensures ProcessAsWritten(constants, st, line, pow)
            == Record(st, line, CalculationAsWritten(line, constants, st.variables, pow))
  {
  }

  /** An assignment line: a success binds the name, a failure changes nothing. */
  function Bind(st: State, name: string, r: Result<Answer>): (Outcome, State) {
    match r
    case Err(e) => (Failed(e), st)
    case Ok(a) => (Assigned(name, a.value), State(st.variables[name := a.value], st.history))
  }

  /** An expression line: a success is recorded in the history, a failure
      changes nothing. */
  function Record(st: State, line: string, r: Result<Answer>): (Outcome, State) {
    match r
    case Err(e) => (Failed(e), st)
    case Ok(a) => (Evaluated(a.value, a.postfix), State(st.variables, st.history + [line + " = " + Render(a.value)]))
  }

  /** The pipeline of run_val's `try` block as written: the same stages
      without the grammar check, so a line the two checks pass is converted
      and evaluated whatever its shape. */
  ghost function CalculationAsWritten(text: string, constants: map<string, real>, variables: map<string, real>,
                                      pow: (real, real) -> real): Result<Answer>
  {
    var tokens := Tokens(text, constants, variables);
    if AdjacentOperators(tokens) then Err(ConsecutiveOperators)
    else if ParenVerdict(tokens).Err? then Err(ParenVerdict(tokens).error)
    else
      match Postfix(tokens)
      case Err(e) => Err(e)
      case Ok(postfix) =>
        match Evaluate(postfix, pow)
        case Err(e) => Err(e)
        case Ok(v) => Ok(Answer(v, postfix))
  }

  /** One line of run_val as written: the name bound is the text before the
      '=' with its whitespace, and there is no grammar check. */
  ghost function ProcessAsWritten(constants: map<string, real>, st: State, line: string,
                                  pow: (real, real) -> real): (Outcome, State)
  {
    if line == "exit" || line == "Exit" then (Exit, st)
    else
      match Find(line, '=')
      case Some(eq) => Bind(st, AsWrittenName(line, eq), CalculationAsWritten(line[eq + 1..], constants, st.variables, pow))
      case None => Record(st, line, CalculationAsWritten(line, constants, st.variables, pow))
  }

  /** The loop's state: the constants loaded once at start-up, the
      variables and the history. */
  class Calculator {
    const constants: map<string, real>
    var variables: map<string, real>
    var history: seq<string>

    constructor(constants: map<string, real>)
      ensures this.constants == constants && variables == map[] && history == []
    {
      this.constants := constants;
      variables := map[];
      history := [];
    }

    /** The body of one `try` block of run_val. */
    method Compute(text: string, pow: (real, real) -> real) returns (r: Result<Answer>)
      ensures r == Calculation(text, constants, variables, pow)
    {
      var tokens := Tokenize(text, constants, variables);
      var adjacent := HasConsecutiveOperators(tokens);
      if adjacent {
        return Err(ConsecutiveOperators);
      }
      var valid := IsValidExpression(tokens);
      if valid.Err? {
        return Err(valid.error);
      }
      var wellFormed := IsWellFormed(tokens);
      if !wellFormed {
        return Err(IllFormed);
      }
      var postfix := InfixToPostfix(tokens);
      if postfix.Err? {
        return Err(postfix.error);
      }
      var value := EvaluatePostfix(postfix.value, pow);
      if value.Err? {
        return Err(value.error);
      }
      return Ok(Answer(value.value, postfix.value));
    }

    /** One iteration of run_val's loop on the line read. */
    method ProcessLine(line: string, pow: (real, real) -> real) returns (o: Outcome)
      modifies this
      ensures (o, State(variables, history)) == Process(constants, State(old(variables), old(history)), line, pow)
    {
      ghost var st := State(variables, history);
      if line == "exit" || line == "Exit" {
        ProcessExit(constants, st, line, pow);
        return Exit;
      }
      var equals := Find(line, '=');
      if equals.Some? {
        var name := VariableName(line, equals.value);
        var r := Compute(line[equals.value + 1..], pow);
        ProcessAssignment(constants, st, line, equals.value, pow);
        assert Process(constants, st, line, pow) == Bind(st, name, r);
        if r.Err? {
          return Failed(r.error);
        }
        variables := variables[name := r.value.value];
        return Assigned(name, r.value.value);
      }
      var r := Compute(line, pow);
      ProcessExpression(constants, st, line, pow);
      assert Process(constants, st, line, pow) == Record(st, line, r);
      if r.Err? {
        return Failed(r.error);
      }
      history := history + [line + " = " + Render(r.value.value)];
      return Evaluated(r.value.value, r.value.postfix);
    }
  }

  /** The checks before the conversion rule out every failure of the
      conversion and every shortage of values in the evaluation: what can
      still fail is a check itself, a number std::stof cannot read, or a
      zero divisor. A successful answer is the value of the only thing left
      on the stack, computed from the postfix the converter wrote. */
  lemma CalculationErrors(text: string, constants: map<string, real>, variables: map<string, real>,
                          pow: (real, real) -> real)
    ensures var r := Calculation(text, constants, variables, pow);
            r.Err? ==> r.error in {ConsecutiveOperators, TooManyClosing, NotAllClosed, IllFormed,
                                   MalformedNumber, DivisionByZero, ModuloByZero}
    ensures var r := Calculation(text, constants, variables, pow);
            var tokens := Tokens(text, constants, variables);
            r.Ok? ==> && WellFormed(tokens) && Convert(tokens).Ok?
                      && r.value.postfix == Join(Convert(tokens).value)
                      && Run([], Convert(tokens).value, pow) == Ok([r.value.value])
  {
    var tokens := Tokens(text, constants, variables);
    TokensShape(text, constants, variables);
    ParenVerdictCases(tokens);
    if !AdjacentOperators(tokens) && ParenVerdict(tokens).Ok? && WellFormed(tokens) {
      WellFormedEvaluates(tokens, pow);
      EvaluateHeight(Postfix(tokens).value, pow);
    }
  }

  /** A line never fails for want of an operand or of a "(", exit and
      failures leave the state as it was, a binding changes one variable
      and no history, an evaluation adds one history entry and changes no
      variable. */
  lemma ProcessEffects(constants: map<string, real>, st: State, line: string, pow: (real, real) -> real)
    ensures var (o, st') := Process(constants, st, line, pow);
            && o != Failed(StackUnderflow) && o != Failed(MissingOpenParen)
            && (o.Exit? <==> line == "exit" || line == "Exit")
            && (o.Exit? || o.Failed? ==> st' == st)
            && (o.Assigned? ==> '=' in line && st' == State(st.variables[o.name := o.value], st.history))
            && (o.Evaluated? ==> '=' !in line && st' == State(st.variables, st.history + [line + " = " + Render(o.value)]))
  {
    if line != "exit" && line != "Exit" {
      match Find(line, '=')
      case Some(eq) =>
        var r := Calculation(line[eq + 1..], constants, st.variables, pow);
        NeverShort(line[eq + 1..], constants, st.variables, pow);
        ProcessAssignment(constants, st, line, eq, pow);
        BindEffects(st, VariableName(line, eq), r);
      case None =>
        var r := Calculation(line, constants, st.variables, pow);
        NeverShort(line, constants, st.variables, pow);
        ProcessExpression(constants, st, line, pow);
        RecordEffects(st, line, r);
    }
  }

  /** No line fails for want of an operand or of a "(". */
  lemma NeverShort(text: string, constants: map<string, real>, variables: map<string, real>,
                   pow: (real, real) -> real)
    ensures var r := Calculation(text, constants, variables, pow);
            r.Err? ==> r.error != StackUnderflow && r.error != MissingOpenParen
  {
    CalculationErrors(text, constants, variables, pow);
  }

  /** What an assignment line may lead to, for a result that never lacks
      an operand or a "(". */
  lemma BindEffects(st: State, name: string, r: Result<Answer>)
    requires r.Err? ==> r.error != StackUnderflow && r.error != MissingOpenParen
    ensures var (o, st') := Bind(st, name, r);
            && o != Failed(StackUnderflow) && o != Failed(MissingOpenParen)
            && (o.Assigned? || o.Failed?)
            && (o.Failed? ==> st' == st)
            && (o.Assigned? ==> o.name == name && st' == State(st.variables[name := o.value], st.history))
  {
  }

  /** What an expression line may lead to, for a result that never lacks
      an operand or a "(". */
  lemma RecordEffects(st: State, line: string, r: Result<Answer>)
    requires r.Err? ==> r.error != StackUnderflow && r.error != MissingOpenParen
    ensures var (o, st') := Record(st, line, r);
            && o != Failed(StackUnderflow) && o != Failed(MissingOpenParen)
            && (o.Evaluated? || o.Failed?)
            && (o.Failed? ==> st' == st)
            && (o.Evaluated? ==> st' == State(st.variables, st.history + [line + " = " + Render(o.value)]))
  {
  }

  /** A plain name bound by an assignment reads back in a later line as its
      value rounded to the six decimals std::to_string keeps, unless a
      constant of that name shadows it. */
  lemma RecallVariable(name: string, constants: map<string, real>, variables: map<string, real>,
                       v: real, pow: (real, real) -> real)
    requires |name| > 0 && forall i :: 0 <= i < |name| ==> !IsDelimiter(name[i])
    requires name !in constants
    ensures Calculation(name, constants, variables[name := v], pow) == Ok(Answer(Rounded(v), Render(v) + " "))
  {
    var vars := variables[name := v];
    var r := Render(v);
    SplitWord(name);
    assert Tokens(name, constants, vars) == [r];
    SingleNumber(r, pow);
    RenderRoundTrip(v);
  }

  /** With the name trimmed, a binding made by one line is found by the
      next: a line that binds a plain name that no constant shadows, read
      back as that name alone, gives the bound value rounded as
      std::to_string rounds it. */
  lemma AssignThenRecall(constants: map<string, real>, st: State, line: string, pow: (real, real) -> real)
    requires Process(constants, st, line, pow).0.Assigned?
    requires var name := Process(constants, st, line, pow).0.name;
             |name| > 0 && (forall i :: 0 <= i < |name| ==> !IsDelimiter(name[i])) && name !in constants
    ensures var (o, st') := Process(constants, st, line, pow);
            Calculation(o.name, constants, st'.variables, pow) == Ok(Answer(Rounded(o.value), Render(o.value) + " "))
  {
    var (o, st') := Process(constants, st, line, pow);
    ProcessEffects(constants, st, line, pow);
    RecallVariable(o.name, constants, st.variables, o.value, pow);
  }

  /** A line that is one numeral is well formed, converts to itself and
      evaluates to what std::stof reads from it. */
  lemma SingleNumber(r: string, pow: (real, real) -> real)
    requires |r| > 0 && NoSpace(r) && IsNumber(r)
    ensures !AdjacentOperators([r]) && ParenVerdict([r]) == Ok(true) && WellFormed([r])
    ensures Postfix([r]) == Ok(r + " ")
    ensures ParseNumber(r).Some? ==> Evaluate(r + " ", pow) == Ok(ParseNumber(r).value)
  {
    assert [r][..0] == [] && [r][..1] == [r];
    DepthSnoc([r], 0);
    assert [r][1..] == [];
    var none: seq<string> := [];
    assert Step(Shunt([], []), r) == Ok(Shunt([], [r])) by {
      assert none + [r] == [r];
    }
    ConvAdvance(Shunt([], []), [r], Shunt([], [r]));
    assert Convert([r]) == Ok([r]);
    assert Join([r]) == r + " ";
    WordsOfJoin([r]);
    if ParseNumber(r).Some? {
      var v := ParseNumber(r).value;
      var empty: seq<real> := [];
      assert Exec([], r, pow) == Ok([v]) by {
        assert empty + [v] == [v];
      }
      assert Run([], [r], pow) == Ok([v]);
    }
  }

  /** run_val binds "x = 10" to the name "x " with its trailing space; no
      token ever holds a space, so that binding changes nothing any later
      line computes. The trimmed name "x" is the one a later "x" finds. */
  lemma SpacedNameIsLost(s: string, constants: map<string, real>, variables: map<string, real>, v: real)
    ensures Find("x = 10", '=') == Some(2)
    ensures AsWrittenName("x = 10", 2) == "x " && VariableName("x = 10", 2) == "x"
    ensures Tokens(s, constants, variables["x " := v]) == Tokens(s, constants, variables)
  {
    SpacedAssignmentName();
    assert IsSpace("x "[1]);
    SpacedNameNeverResolved(s, constants, variables, "x ", v);
  }

  lemma SpacedAssignmentName()
    ensures Find("x = 10", '=') == Some(2)
    ensures AsWrittenName("x = 10", 2) == "x " && VariableName("x = 10", 2) == "x"
  {
    var line := "x = 10";
    assert line[1..][1..] == "= 10";
    assert line[..2] == "x ";
    assert TrimStart("x ") == "x ";
    assert "x "[..1] == "x";
  }

  /** The grammar check changes only which lines fail: on every line the
      checked pipeline gives what the code gives or rejects the line as ill
      formed, and on a well-formed line it gives what the code gives. */
  lemma CalculationAgrees(text: string, constants: map<string, real>, variables: map<string, real>,
                          pow: (real, real) -> real)
    ensures var r, w := Calculation(text, constants, variables, pow), CalculationAsWritten(text, constants, variables, pow);
            r == w || r == Err(IllFormed)
    ensures WellFormed(Tokens(text, constants, variables)) ==>
              Calculation(text, constants, variables, pow) == CalculationAsWritten(text, constants, variables, pow)
  {
  }

  /** The grammar check also rejects lines the code evaluates without fault:
      "1 2" leaves two values, and the code answers with the top one. */
  lemma JuxtapositionExample(pow: (real, real) -> real)
    ensures CalculationAsWritten("1 2", map[], map[], pow) == Ok(Answer(2.0, "1 2 "))
    ensures Calculation("1 2", map[], map[], pow) == Err(IllFormed)
  {
    JuxtapositionTokens();
    JuxtapositionChecks();
    JuxtapositionConverts();
    JuxtapositionEvaluates(pow);
  }

  lemma JuxtapositionTokens()
    ensures Tokens("1 2", map[], map[]) == ["1", "2"]
  {
    var s, none := "1 2", [];
    assert s[1..] == " 2" && s[1..][1..] == "2" && "2"[1..] == [];
    assert none + "1" == "1" && none + "2" == "2";
    assert Scan("2", [], ["1"]) == Scan([], "2", ["1"]) == ["1", "2"];
    assert Scan(" 2", "1", []) == Scan("2", [], ["1"]);
    assert Split(s) == Scan(" 2", "1", []);
  }

  lemma JuxtapositionChecks()
    ensures !AdjacentOperators(["1", "2"])
    ensures ParenVerdict(["1", "2"]) == Ok(true)
    ensures !WellFormed(["1", "2"])
  {
    var ts := ["1", "2"];
    assert ts[1..] == ["2"];
    assert Depth(ts[..0]) == 0 && Depth(ts[..1]) == 0 && Depth(ts[..2]) == 0 by {
      assert ts[..0] == [] && ts[..1] == ["1"] && ts[..1][..0] == [] && ts[..2] == ts;
    }
    ParenVerdictCases(ts);
  }

  lemma JuxtapositionConverts()
    ensures Postfix(["1", "2"]) == Ok("1 2 ")
  {
    var none: seq<string> := [];
    assert none + ["1"] == ["1"] && ["1"] + ["2"] == ["1", "2"];
    assert ["1", "2"][1..] == ["2"];
    ConvAdvance(Shunt([], []), ["1", "2"], Shunt([], ["1"]));
    LastNumber([], ["1"], "2");
    assert Convert(["1", "2"]) == Ok(["1", "2"]);
    assert Join(["1", "2"]) == "1 2 " by {
      assert ["1", "2"][1..][1..] == [];
    }
  }

  lemma JuxtapositionEvaluates(pow: (real, real) -> real)
    ensures Evaluate("1 2 ", pow) == Ok(2.0)
  {
    assert Join(["1", "2"]) == "1 2 " by {
      assert ["1", "2"][1..] == ["2"] && ["1", "2"][1..][1..] == [];
    }
    WordsOfJoin(["1", "2"]);
    RunOneTwo(pow);
  }

  lemma RunOneTwo(pow: (real, real) -> real)
    ensures Run([], ["1", "2"], pow) == Ok([1.0, 2.0])
  {
    assert Digits(1) == "1" && Digits(2) == "2";
    PushDigits([], 1, pow);
    PushDigits([1.0], 2, pow);
    var none: seq<real> := [];
    assert none + [1.0] == [1.0];
    RunCons([], "1", ["2"], pow);
    RunCons([1.0], "2", [], pow);
    var empty: seq<string> := [];
    assert ["1"] + ["2"] == ["1", "2"] && ["2"] + empty == ["2"] && [1.0] + [2.0] == [1.0, 2.0];
    assert Run([1.0, 2.0], [], pow) == Ok([1.0, 2.0]);
  }

  /** On lines with a trimmed name and well-formed tokens, the step modelled
      is the step run_val takes. */
  lemma ProcessAgrees(constants: map<string, real>, st: State, line: string, pow: (real, real) -> real)
    requires Find(line, '=').Some? ==>
               var eq := Find(line, '=').value;
               Trim(line[..eq]) == line[..eq] && WellFormed(Tokens(line[eq + 1..], constants, st.variables))
    requires Find(line, '=').None? ==> WellFormed(Tokens(line, constants, st.variables))
    ensures Process(constants, st, line, pow) == ProcessAsWritten(constants, st, line, pow)
  {
    if line != "exit" && line != "Exit" {
      match Find(line, '=')
      case Some(eq) =>
        ProcessAssignment(constants, st, line, eq, pow);
        CalculationAgrees(line[eq + 1..], constants, st.variables, pow);
        assert VariableName(line, eq) == AsWrittenName(line, eq);
      case None =>
        ProcessExpression(constants, st, line, pow);
        CalculationAgrees(line, constants, st.variables, pow);
    }
  }
}
