/** tokenize: pass 1 cuts the input at whitespace, operator characters and
    parentheses; pass 2 replaces every token that names a constant or a
    variable by the text of its value. */
module Lexer {
  import opened Operators
  import opened Numerals

  /** The characters at which pass 1 ends the token being built. */
  predicate IsDelimiter(c: char) {
    IsSpace(c) || IsOperatorChar(c) || c == '(' || c == ')'
  }

  /** What pass 1 emits: one operator or parenthesis character, or a
      non-empty run of characters none of which is a delimiter. */
  predicate IsLexeme(t: string) {
    || (|t| == 1 && IsDelimiter(t[0]) && !IsSpace(t[0]))
    || (|t| > 0 && forall i :: 0 <= i < |t| ==> !IsDelimiter(t[i]))
  }

  /** The tokens written one after the other. */
  function Concat(ts: seq<string>): string {
    if ts == [] then [] else Concat(ts[..|ts| - 1]) + ts[|ts| - 1]
  }

  /** The input with its whitespace removed. */
  function StripSpace(s: string): string {
    if s == [] then [] else (if IsSpace(s[0]) then [] else [s[0]]) + StripSpace(s[1..])
  }

  /** Pass 1 on the rest `s` of the input, when `current` is the token being
      built and `tokens` are those already emitted. */
  function Scan(s: string, current: string, tokens: seq<string>): seq<string>
    decreases |s|
  {
    if s == [] then
      if current == [] then tokens else tokens + [current]
    else
      var c := s[0];
      if IsDelimiter(c) then
        var flushed := if current == [] then tokens else tokens + [current];
        Scan(s[1..], [], if IsSpace(c) then flushed else flushed + [[c]])
      else
        Scan(s[1..], current + [c], tokens)
  }

  /** The tokens of pass 1. */
  function Split(s: string): seq<string> {
    Scan(s, [], [])
  }

  /** Pass 2 on one token: constants are looked up before variables. */
  function Resolve(t: string, constants: map<string, real>, variables: map<string, real>): string {
    if t in constants then Render(constants[t])
    else if t in variables then Render(variables[t])
    else t
  }

  function ResolveAll(ts: seq<string>, constants: map<string, real>, variables: map<string, real>): seq<string> {
    seq(|ts|, i requires 0 <= i < |ts| => Resolve(ts[i], constants, variables))
  }

  /** The result of tokenize. */
  function Tokens(s: string, constants: map<string, real>, variables: map<string, real>): seq<string> {
    ResolveAll(Split(s), constants, variables)
  }

  /** tokenize: the character loop of pass 1, then the rewrite in place of
      pass 2. */
  method Tokenize(s: string, constants: map<string, real>, variables: map<string, real>)
    returns (tokens: seq<string>)
    ensures tokens == Tokens(s, constants, variables)
  {
    tokens := [];
    var current := "";
    for i := 0 to |s|
      invariant Scan(s[i..], current, tokens) == Split(s)
    {
      var ch := s[i];
      assert s[i..][1..] == s[i + 1..];
      if IsSpace(ch) || IsOperator([ch]) || ch == '(' || ch == ')' {
        if current != [] {
          tokens := tokens + [current];
          current := [];
        }
        if !IsSpace(ch) {
          tokens := tokens + [[ch]];
        }
      } else {
        current := current + [ch];
      }
    }
    assert s[|s|..] == [];
    if current != [] {
      tokens := tokens + [current];
    }

    ghost var raw := tokens;
    for i := 0 to |tokens|
      invariant |tokens| == |raw|
      invariant forall k :: 0 <= k < i ==> tokens[k] == Resolve(raw[k], constants, variables)
      invariant forall k :: i <= k < |tokens| ==> tokens[k] == raw[k]
    {
      var token := tokens[i];
      if token in constants {
        tokens := tokens[i := Render(constants[token])];
      } else if token in variables {
        tokens := tokens[i := Render(variables[token])];
      }
    }
  }

  lemma {:induction false} ScanLexemes(s: string, current: string, tokens: seq<string>)
    requires forall i :: 0 <= i < |tokens| ==> IsLexeme(tokens[i])
    requires forall i :: 0 <= i < |current| ==> !IsDelimiter(current[i])
    ensures forall i :: 0 <= i < |Scan(s, current, tokens)| ==> IsLexeme(Scan(s, current, tokens)[i])
    decreases |s|
  {
    if s != [] {
      var c := s[0];
      if IsDelimiter(c) {
        var flushed := if current == [] then tokens else tokens + [current];
        ScanLexemes(s[1..], [], if IsSpace(c) then flushed else flushed + [[c]]);
      } else {
        ScanLexemes(s[1..], current + [c], tokens);
      }
    }
  }

  lemma {:induction false} ScanConcat(s: string, current: string, tokens: seq<string>)
    ensures Concat(Scan(s, current, tokens)) == Concat(tokens) + current + StripSpace(s)
    decreases |s|, 1
  {
    if s == [] {
      FlushConcat(tokens, current);
      assert StripSpace(s) == [];
    } else if IsDelimiter(s[0]) {
      ScanConcatDelimiter(s, current, tokens);
    } else {
      var c := s[0];
      assert StripSpace(s) == [c] + StripSpace(s[1..]);
      ScanConcat(s[1..], current + [c], tokens);
      assert current + [c] + StripSpace(s[1..]) == current + StripSpace(s);
    }
  }

  lemma {:induction false} ScanConcatDelimiter(s: string, current: string, tokens: seq<string>)
    requires s != [] && IsDelimiter(s[0])
    ensures Concat(Scan(s, current, tokens)) == Concat(tokens) + current + StripSpace(s)
    decreases |s|, 0
  {
    var c := s[0];
    var kept := if IsSpace(c) then [] else [c];
    var flushed := if current == [] then tokens else tokens + [current];
    var next := if kept == [] then flushed else flushed + [kept];
    ScanDelimiterStep(s, current, tokens);
    FlushConcat(tokens, current);
    FlushConcat(flushed, kept);
    ScanConcat(s[1..], [], next);
    assert StripSpace(s) == kept + StripSpace(s[1..]);
  }

  lemma ScanDelimiterStep(s: string, current: string, tokens: seq<string>)
    requires s != [] && IsDelimiter(s[0])
    ensures var kept := if IsSpace(s[0]) then [] else [s[0]];
            var flushed := if current == [] then tokens else tokens + [current];
            Scan(s, current, tokens) == Scan(s[1..], [], if kept == [] then flushed else flushed + [kept])
  {
  }

  /** Emitting a token that is non-empty appends it to the concatenation. */
  lemma FlushConcat(tokens: seq<string>, t: string)
    ensures Concat(if t == [] then tokens else tokens + [t]) == Concat(tokens) + t
  {
    if t != [] {
      ConcatSnoc(tokens, t);
    }
  }

  lemma ConcatSnoc(ts: seq<string>, t: string)
    ensures Concat(ts + [t]) == Concat(ts) + t
  {
    assert (ts + [t])[..|ts|] == ts;
  }

  /** Pass 1 emits only lexemes, and written one after the other they give
      back the input without its whitespace. */
  lemma SplitLexemes(s: string)
    ensures forall i :: 0 <= i < |Split(s)| ==> IsLexeme(Split(s)[i])
    ensures Concat(Split(s)) == StripSpace(s)
  {
    ScanLexemes(s, [], []);
    ScanConcat(s, [], []);
  }

  /** A lexeme is non-empty and has no whitespace; it is an operator or a
      parenthesis exactly when it holds an operator or parenthesis character,
      which is then its only character. */
  lemma LexemeShape(t: string)
    requires IsLexeme(t)
    ensures |t| > 0 && NoSpace(t)
    ensures forall i :: 0 <= i < |t| && IsDelimiter(t[i]) ==> t == [t[i]] && (IsOperator(t) || t == "(" || t == ")")
  {
  }

  /** A token that pass 2 rewrites becomes a number; whatever it became, it
      is still non-empty and free of whitespace. */
  lemma ResolveShape(t: string, constants: map<string, real>, variables: map<string, real>)
    requires |t| > 0 && NoSpace(t)
    ensures var r := Resolve(t, constants, variables);
            |r| > 0 && NoSpace(r) && (r == t || IsNumber(r))
  {
  }

  /** Every token tokenize returns is non-empty and free of whitespace;
      pass 2 keeps the number of tokens and rewrites exactly the names of
      constants and variables, constants first. */
  lemma {:induction false} TokensShape(s: string, constants: map<string, real>, variables: map<string, real>)
    ensures |Tokens(s, constants, variables)| == |Split(s)|
    ensures forall i :: 0 <= i < |Tokens(s, constants, variables)| ==>
              var t, r := Split(s)[i], Tokens(s, constants, variables)[i];
              && |r| > 0 && NoSpace(r)
              && (t in constants ==> r == Render(constants[t]))
              && (t !in constants && t in variables ==> r == Render(variables[t]))
              && (t !in constants && t !in variables ==> r == t)
  {
    SplitLexemes(s);
    forall i | 0 <= i < |Split(s)|
      ensures NoSpace(Split(s)[i]) && |Split(s)[i]| > 0
    {
      LexemeShape(Split(s)[i]);
    }
  }

  /** A run of non-delimiter characters is one token. */
  lemma {:induction false} ScanWord(w: string, current: string, tokens: seq<string>)
    requires forall i :: 0 <= i < |w| ==> !IsDelimiter(w[i])
    requires |current| + |w| > 0
    ensures Scan(w, current, tokens) == tokens + [current + w]
    decreases |w|
  {
    if w == [] {
      assert current + w == current;
    } else {
      ScanWord(w[1..], current + [w[0]], tokens);
      assert current + [w[0]] + w[1..] == current + w;
    }
  }

  lemma SplitWord(w: string)
    requires |w| > 0 && forall i :: 0 <= i < |w| ==> !IsDelimiter(w[i])
    ensures Split(w) == [w]
  {
    ScanWord(w, [], []);
    assert [] + w == w;
  }

  /** A name holding whitespace is never a token, so binding it changes
      no tokenization. */
  lemma {:induction false} SpacedNameNeverResolved(s: string, constants: map<string, real>,
                                                   variables: map<string, real>, name: string, v: real)
    requires exists i :: 0 <= i < |name| && IsSpace(name[i])
    ensures Tokens(s, constants, variables[name := v]) == Tokens(s, constants, variables)
  {
    SplitLexemes(s);
    var ts := Split(s);
    forall i | 0 <= i < |ts|
      ensures Resolve(ts[i], constants, variables[name := v]) == Resolve(ts[i], constants, variables)
    {
      LexemeShape(ts[i]);
      assert ts[i] != name;
    }
  }
}
