/** The validator on four small programs, as classified token sequences. */
module Examples {
  import opened Tokens
  import opened Semantics
  import opened Grammar
  import opened Correctness

  /** `x = 1 + 2 ;` */
  const AssignmentInput: seq<Token> :=
    [Token("x", Ident), Token("=", AssignOp), Token("1", IntLit), Token("+", AddOp),
     Token("2", IntLit), Token(";", Semicolon)]

  /** `x 1 + 2 ;`: the assignment operator is missing. */
  const MissingAssignInput: seq<Token> :=
    [Token("x", Ident), Token("1", IntLit), Token("+", AddOp), Token("2", IntLit), Token(";", Semicolon)]

  /** `if ( a < b ) { x = 1 ; }` */
  const IfThenInput: seq<Token> :=
    [Token("if", KeyIf), Token("(", OpenParen), Token("a", Ident), Token("<", LesserOp),
     Token("b", Ident), Token(")", CloseParen), Token("{", OpenCurl), Token("x", Ident),
     Token("=", AssignOp), Token("1", IntLit), Token(";", Semicolon), Token("}", CloseCurl)]

  /** `input ( x`: the file ends before the closing parenthesis. */
  const TruncatedInput: seq<Token> :=
    [Token("input", KeyIn), Token("(", OpenParen), Token("x", Ident)]

  /** A well-formed assignment is validated and consumed completely. */
  lemma AssignmentValidated()
    ensures Run(AssignmentInput) == State(|AssignmentInput|, 0, [])
    ensures Validated(AssignmentInput)
  {
    assert ExprIn(AssignmentInput, 2, 5) by {
      assert ExprTailIn(AssignmentInput, 5, 5);
    }
    assert AssignIn(AssignmentInput, 0, 5);
    ProgramAccepted(AssignmentInput);
  }

  /** The missing `=` is reported once, on the literal found in its place. */
  lemma MissingAssignReported()
    ensures Run(MissingAssignInput) == State(2, 1, [Diagnostic(1, "ASSIGN_OP", "1", IntLit)])
    ensures !Validated(MissingAssignInput)
  {
  }

  /** A conditional without an else part is validated and consumed completely. */
  lemma IfThenValidated()
    ensures Run(IfThenInput) == State(|IfThenInput|, 0, [])
    ensures Validated(IfThenInput)
  {
    IfThenIsProgram();
    ProgramAccepted(IfThenInput);
  }

  /** The same conditional read against the grammar: the head `if ( a < b ) {` closes its
      parenthesis at position 5, and the inner assignment spans positions 7 to 10. */
  lemma IfThenIsProgram()
    ensures IsProgram(IfThenInput)
  {
    IfThenHead();
    IfThenInner();
    assert IfThenIn(IfThenInput, 0, 5, 10);
  }

  lemma IfThenHead()
    ensures IfHeadIn(IfThenInput, 0, 5)
  {
    IfThenCondition();
    assert IfThenInput[0].kind == KeyIf && IfThenInput[After(0)].kind == OpenParen;
    assert IfThenInput[5].kind == CloseParen && IfThenInput[After(5)].kind == OpenCurl;
  }

  lemma IfThenCondition()
    ensures CondIn(IfThenInput, After(After(0)), 5)
  {
    assert ExprIn(IfThenInput, 2, 3);
    assert ExprIn(IfThenInput, After(3), 5);
    assert IsComparison(IfThenInput[3].kind);
  }

  lemma IfThenInner()
    ensures StmtIn(IfThenInput, 7, 10)
  {
    assert ExprIn(IfThenInput, 9, 10);
    assert AssignIn(IfThenInput, 7, 10);
  }

  /** The missing `)` is reported once, on the end-of-file sentinel, and nothing else follows. */
  lemma TruncatedReported()
    ensures Run(TruncatedInput) == State(|TruncatedInput|, 1, [Diagnostic(1, "CLOSE_PAREN", "", Unknown)])
  {
    TruncatedSteps();
    TruncatedReport();
  }

  /** The diagnostic printed for the sentinel. */
  lemma TruncatedReport()
    ensures Report(TruncatedInput, State(3, 0, []), "CLOSE_PAREN") == Diagnostic(1, "CLOSE_PAREN", "", Unknown)
  {
    TruncatedLine();
  }

  /** The input/output branch reads `input`, `(` and `x`, then meets the sentinel. */
  lemma TruncatedSteps()
    ensures Run(TruncatedInput) == Fail(TruncatedInput, State(3, 0, []), "CLOSE_PAREN")
  {
  }

  lemma TruncatedLine()
    ensures LineAt(TruncatedInput, 3) == 1
  {
    LineAlwaysOne(TruncatedInput, State(3, 0, []), "CLOSE_PAREN");
  }

  /** `x = 1 ; else`: the token after an assignment is fetched but never examined. */
  const AssignmentElseInput: seq<Token> :=
    [Token("x", Ident), Token("=", AssignOp), Token("1", IntLit), Token(";", Semicolon),
     Token("else", KeyElse)]

  /** A trailing `else` after an assignment goes unnoticed: the input is validated. */
  lemma AssignmentElseValidated()
    ensures Validated(AssignmentElseInput) && Run(AssignmentElseInput).at == 4
  {
    assert ExprIn(AssignmentElseInput, 2, 3);
    assert AssignIn(AssignmentElseInput, 0, 3);
    ValidatedComplete(AssignmentElseInput, 3);
  }
}
