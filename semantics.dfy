/**
 * The parser's behaviour as pure functions.  The lexemes of the input file, already classified,
 * are a sequence of tokens; the FILE yields them in order and then reports end of file forever,
 * at which point the current token is the sentinel.  A State records where the current token sits
 * in "input followed by the sentinel", the error counter and the diagnostics printed so far.  Each
 * grammar procedure becomes a function from the state on entry to the state on return.
 */
module Semantics {
  import opened Tokens

  /** One line printed by the error handler: the line counter, the description of what was
      expected, and the lexeme and kind of the token found; the kind is printed as Name(found). */
  datatype Diagnostic = Diagnostic(line: int, expected: string, lexeme: string, found: TokenType)

  /** at = |input| means the current token is the end-of-file sentinel. */
  datatype State = State(at: nat, errors: nat, log: seq<Diagnostic>)

  /** The token at position i of the input followed by the sentinel. */
  function TokenAt(input: seq<Token>, i: nat): Token
  {
    if i < |input| then input[i] else Sentinel
  }

  function KindAt(input: seq<Token>, i: nat): TokenType
  {
    TokenAt(input, i).kind
  }

  /** How many of the first n lexemes contain a newline character. */
  function NewlinesBefore(input: seq<Token>, n: nat): nat
    requires n <= |input|
  {
    if n == 0 then 0
    else NewlinesBefore(input, n - 1) + (if '\n' in input[n - 1].lexeme then 1 else 0)
  }

  /** How many lexemes the FILE has delivered once the current token is at position i. */
  function ReadCount(input: seq<Token>, i: nat): (n: nat)
    ensures n <= |input|
  {
    if i < |input| then i + 1 else |input|
  }

  /** The line counter once the current token is at position i: it starts at 1 and goes up by
      one for every lexeme read that contains a newline. */
  function LineAt(input: seq<Token>, i: nat): int
  {
    1 + NewlinesBefore(input, ReadCount(input, i))
  }

  /** The cursor is within the input followed by the sentinel, and the error counter equals the
      number of diagnostics printed. */
  ghost predicate WithinInput(input: seq<Token>, s: State)
  {
    s.at <= |input| && s.errors == |s.log|
  }

  /** The state syntaxParser hands to parseProgram: the first lexeme has been read (or the FILE
      was empty and the sentinel is current), and nothing has been reported. */
  function Start(input: seq<Token>): (r: State)
    ensures WithinInput(input, r)
  {
    State(0, 0, [])
  }

  /** One step along the input followed by the sentinel, which repeats forever. */
  function NextIndex(input: seq<Token>, i: nat): nat
  {
    if i < |input| then After(i) else i
  }

  /** nextToken: make the next lexeme current, or the sentinel at end of file. */
  function Advance(input: seq<Token>, s: State): (r: State)
    ensures WithinInput(input, s) ==> WithinInput(input, r)
  {
    s.(at := NextIndex(input, s.at))
  }

  /** The diagnostic the error handler prints for the current token. */
  function Report(input: seq<Token>, s: State, expected: string): Diagnostic
  {
    var t := TokenAt(input, s.at);
    Diagnostic(LineAt(input, s.at), expected, t.lexeme, t.kind)
  }

  /** syntaxError: count one error, print one diagnostic, and skip the current token. */
  function Fail(input: seq<Token>, s: State, expected: string): (r: State)
    ensures WithinInput(input, s) ==> WithinInput(input, r)
  {
    Advance(input, s.(errors := s.errors + 1, log := s.log + [Report(input, s, expected)]))
  }

  /** The rest of an expression: the `while` loop of parseExpression, one iteration per call.
      The loop stops only at a token that is neither `+` nor `-`. */
  function ExprTail(input: seq<Token>, s: State): (r: State)
    ensures WithinInput(input, s) ==> WithinInput(input, r)
    ensures s.at <= r.at && s.errors <= r.errors && s.log <= r.log
    ensures !IsAddSub(KindAt(input, r.at))
    decreases |input| - s.at
  {
    if KindAt(input, s.at) == AddOp || KindAt(input, s.at) == SubOp then
      var s1 := Advance(input, s);
      var s2 := if KindAt(input, s1.at) == IntLit || KindAt(input, s1.at) == Ident then Advance(input, s1)
                else Fail(input, s1, "INT_LIT or IDENT");
      ExprTail(input, s2)
    else
      s
  }

  /** parseExpression: a term followed by the loop over `+ term` and `- term`.  Started on a
      term, it returns at a token that cannot continue the expression. */
  function Expression(input: seq<Token>, s: State): (r: State)
    ensures WithinInput(input, s) ==> WithinInput(input, r)
    ensures s.at <= r.at && s.errors <= r.errors && s.log <= r.log
    ensures IsTerm(KindAt(input, s.at)) ==> !IsAddSub(KindAt(input, r.at))
  {
    if KindAt(input, s.at) == IntLit || KindAt(input, s.at) == Ident then
      ExprTail(input, Advance(input, s))
    else
      Fail(input, s, "INT_LIT or IDENT")
  }

  /** parseCondition: an expression, one comparison operator, and an expression. */
  function Condition(input: seq<Token>, s: State): (r: State)
    ensures WithinInput(input, s) ==> WithinInput(input, r)
    ensures s.at <= r.at && s.errors <= r.errors && s.log <= r.log
  {
    var s1 := Expression(input, s);
    if IsComparison(KindAt(input, s1.at)) then
      Expression(input, Advance(input, s1))
    else
      Fail(input, s1, "comparison operator")
  }

  /** parseStatement: dispatch on the first token to an assignment, a conditional, or an
      input/output statement; anything else is an error. */
  function Statement(input: seq<Token>, s: State): (r: State)
    ensures WithinInput(input, s) ==> WithinInput(input, r)
    ensures s.at <= r.at && s.errors <= r.errors && s.log <= r.log
    decreases |input| - s.at, 2
  {
    var k := KindAt(input, s.at);
    if k == Ident then Assignment(input, s)
    else if k == KeyIf then Conditional(input, s)
    else if k == KeyIn || k == KeyOut then InputOutput(input, s)
    else Fail(input, s, "valid statement")
  }

  /** The assignment branch of parseStatement: IDENT `=` expression `;`. */
  function Assignment(input: seq<Token>, s: State): (r: State)
    requires KindAt(input, s.at) == Ident
    ensures WithinInput(input, s) ==> WithinInput(input, r)
    ensures s.at <= r.at && s.errors <= r.errors && s.log <= r.log
  {
    var s1 := Advance(input, s);
    if KindAt(input, s1.at) == AssignOp then
      var s2 := Expression(input, Advance(input, s1));
      if KindAt(input, s2.at) != Semicolon then Fail(input, s2, "SEMICOLON") else Advance(input, s2)
    else
      Fail(input, s1, "ASSIGN_OP")
  }

  /** The conditional branch of parseStatement: `if ( condition ) {`, then the then-block. */
  function Conditional(input: seq<Token>, s: State): (r: State)
    requires KindAt(input, s.at) == KeyIf
    ensures WithinInput(input, s) ==> WithinInput(input, r)
    ensures s.at <= r.at && s.errors <= r.errors && s.log <= r.log
    decreases |input| - s.at, 1
  {
    var s1 := Advance(input, s);
    if KindAt(input, s1.at) == OpenParen then
      var s2 := Condition(input, Advance(input, s1));
      if KindAt(input, s2.at) == CloseParen then
        var s3 := Advance(input, s2);
        if KindAt(input, s3.at) == OpenCurl then ThenBlock(input, Advance(input, s3))
        else Fail(input, s3, "OPEN_CURL")
      else
        Fail(input, s2, "CLOSE_PAREN")
    else
      Fail(input, s1, "OPEN_PAREN")
  }

  /** The rest of the conditional once its opening brace was consumed: a statement, the closing
      brace, then the optional else part. */
  function ThenBlock(input: seq<Token>, s: State): (r: State)
    ensures WithinInput(input, s) ==> WithinInput(input, r)
    ensures s.at <= r.at && s.errors <= r.errors && s.log <= r.log
    decreases |input| - s.at, 3
  {
    var s4 := Statement(input, s);
    if KindAt(input, s4.at) == CloseCurl then OptionalElse(input, Advance(input, s4))
    else Fail(input, s4, "CLOSE_CURL")
  }

  /** What parseStatement does once the closing brace of the then-block was consumed: when the
      next token is `else`, parse `else { statement }`; otherwise leave that token unconsumed. */
  function OptionalElse(input: seq<Token>, s: State): (r: State)
    ensures WithinInput(input, s) ==> WithinInput(input, r)
    ensures s.at <= r.at && s.errors <= r.errors && s.log <= r.log
    decreases |input| - s.at, 0
  {
    if KindAt(input, s.at) == KeyElse then
      var s6 := Advance(input, s);
      if KindAt(input, s6.at) == OpenCurl then
        var s7 := Statement(input, Advance(input, s6));
        if KindAt(input, s7.at) != CloseCurl then Fail(input, s7, "CLOSE_CURL") else Advance(input, s7)
      else
        Fail(input, s6, "OPEN_CURL")
    else
      s
  }

  /** The input/output branch of parseStatement: `input` or `output`, then `( IDENT ) ;`. */
  function InputOutput(input: seq<Token>, s: State): (r: State)
    requires KindAt(input, s.at) == KeyIn || KindAt(input, s.at) == KeyOut
    ensures WithinInput(input, s) ==> WithinInput(input, r)
    ensures s.at <= r.at && s.errors <= r.errors && s.log <= r.log
  {
    var s1 := Advance(input, s);
    if KindAt(input, s1.at) == OpenParen then
      var s2 := Advance(input, s1);
      if KindAt(input, s2.at) == Ident then
        var s3 := Advance(input, s2);
        if KindAt(input, s3.at) == CloseParen then
          var s4 := Advance(input, s3);
          if KindAt(input, s4.at) != Semicolon then Fail(input, s4, "SEMICOLON") else Advance(input, s4)
        else
          Fail(input, s3, "CLOSE_PAREN")
      else
        Fail(input, s2, "IDENT")
    else
      Fail(input, s1, "OPEN_PAREN")
  }

  /** parseProgram: a program is a single statement. */
  function Program(input: seq<Token>, s: State): (r: State)
    ensures WithinInput(input, s) ==> WithinInput(input, r)
    ensures s.at <= r.at && s.errors <= r.errors && s.log <= r.log
  {
    Statement(input, s)
  }

  /** One whole session: read the first lexeme, then parse a program. */
  function Run(input: seq<Token>): (r: State)
    ensures WithinInput(input, r)
  {
    Program(input, Start(input))
  }

  /** The verdict of syntaxParser: "Syntax Validated" is printed exactly when no error was counted. */
  predicate Validated(input: seq<Token>)
  {
    Run(input).errors == 0
  }

  /** No lexeme contains a newline character, as is the case for every lexeme read with the `%s`
      conversion of fscanf, which stops at white space. */
  ghost predicate NoNewlines(input: seq<Token>)
  {
    forall i :: 0 <= i < |input| ==> '\n' !in input[i].lexeme
  }

  lemma {:induction false} NewlinesBeforeNone(input: seq<Token>, n: nat)
    requires NoNewlines(input) && n <= |input|
    ensures NewlinesBefore(input, n) == 0
  {
    if 0 < n {
      NewlinesBeforeNone(input, n - 1);
    }
  }

  /** The line counter never decreases as parsing moves on, and never exceeds one more than the
      number of lexemes that contain a newline. */
  lemma {:induction false} LineMonotone(input: seq<Token>, i: nat, j: nat)
    requires i <= j
    ensures 1 <= LineAt(input, i) <= LineAt(input, j) <= 1 + NewlinesBefore(input, |input|)
  {
    NewlinesMonotone(input, ReadCount(input, i), ReadCount(input, j));
    NewlinesMonotone(input, ReadCount(input, j), |input|);
  }

  lemma {:induction false} NewlinesMonotone(input: seq<Token>, m: nat, n: nat)
    requires m <= n <= |input|
    ensures NewlinesBefore(input, m) <= NewlinesBefore(input, n)
    decreases n
  {
    if m < n {
      NewlinesMonotone(input, m, n - 1);
    }
  }

  /** On lexemes without newlines the line counter stays at 1, so every diagnostic reports line 1. */
  lemma LineAlwaysOne(input: seq<Token>, s: State, expected: string)
    requires NoNewlines(input)
    ensures LineAt(input, s.at) == 1 && Report(input, s, expected).line == 1
  {
    NewlinesBeforeNone(input, ReadCount(input, s.at));
  }
}
