/**
 * The validator as the program runs it: one parser object holding the global state of parser.c
 * (the input FILE, the current token, the line counter and the error counter) and one method per
 * procedure, each updating that state in place.  Every method is proved to have exactly the
 * effect of the corresponding function of Semantics on the abstract state Snapshot().
 */
module CookeParser {
  import opened Tokens
  import opened Semantics

  class Parser {
    /** The classified lexemes the FILE holds, in order. */
    const input: seq<Token>
    /** How many lexemes fscanf has delivered so far. */
    var read: nat
    /** Whether the last fscanf reported end of file. */
    var atEof: bool
    var currentToken: Token
    var currentLine: int
    var errorCount: nat
    /** The diagnostics printed on stderr so far, oldest first. */
    var diagnostics: seq<Diagnostic>

    /** What holds from the start: the FILE position is within the input and only reaches end of
        file once everything was read, the line counter has counted the newlines read, every
        error counted was printed, and every diagnostic printed a line the counter has reached. */
    ghost predicate Consistent()
      reads this
    {
      read <= |input| && (atEof ==> read == |input|) &&
      currentLine == 1 + NewlinesBefore(input, read) && errorCount == |diagnostics| &&
      forall j :: 0 <= j < |diagnostics| ==> 1 <= diagnostics[j].line <= currentLine
    }

    /** What holds once the first lexeme was requested: the current token is the last lexeme read,
        or the sentinel after end of file. */
    ghost predicate Valid()
      reads this
    {
      Consistent() &&
      if atEof then currentToken == Sentinel else 0 < read && currentToken == input[read - 1]
    }

    /** The position of the current token in the input followed by the sentinel. */
    ghost function Index(): nat
      reads this
    {
      if atEof then |input| else if 0 < read then read - 1 else 0
    }

    /** The abstract state the functions of Semantics work on. */
    ghost function Snapshot(): State
      reads this
    {
      State(Index(), errorCount, diagnostics)
    }

    /** The current token and the line counter are those the abstract state determines. */
    lemma CurrentToken()
      requires Valid()
      ensures Index() <= |input|
      ensures currentToken == TokenAt(input, Index())
      ensures currentLine == LineAt(input, Index())
    {
    }

    /** The global initialisers: nothing read, the current token zero-filled (an empty lexeme of
        the first kind, ASSIGN_OP), line 1, no errors. */
    constructor (tokens: seq<Token>)
      ensures input == tokens && read == 0 && !atEof && currentToken == Token("", AssignOp)
      ensures currentLine == 1 && errorCount == 0 && diagnostics == []
      ensures Consistent()
    {
      input := tokens;
      read := 0;
      atEof := false;
      currentToken := Token("", AssignOp);
      currentLine := 1;
      errorCount := 0;
      diagnostics := [];
    }

    /** nextToken: read the next lexeme and make it current, counting a line when it contains a
        newline; at end of file the current token becomes the sentinel.  Nothing else changes. */
    method NextToken()
      requires Consistent()
      modifies this
      ensures Valid()
      ensures errorCount == old(errorCount) && diagnostics == old(diagnostics)
      ensures old(read) < |input| ==> read == old(read) + 1 && !atEof && currentToken == input[old(read)]
      ensures old(read) == |input| ==> read == old(read) && atEof && currentToken == Sentinel
      ensures currentLine ==
              old(currentLine) + if old(read) < |input| && '\n' in input[old(read)].lexeme then 1 else 0
      ensures old(Valid()) ==> Snapshot() == Advance(input, old(Snapshot()))
    {
      if read < |input| {
        var lexeme := input[read].lexeme;
        currentToken := Token(lexeme, input[read].kind);
        if '\n' in lexeme {
          currentLine := currentLine + 1;
        }
        read := read + 1;
        atEof := false;
      } else {
        atEof := true;
        currentToken := Token("", Unknown);
      }
    }

    /** syntaxError: print one diagnostic, count one error, and skip the current token. */
    method SyntaxError(expected: string)
      requires Valid()
      modifies this
      ensures Valid()
      ensures errorCount == old(errorCount) + 1
      ensures diagnostics ==
              old(diagnostics) + [Diagnostic(old(currentLine), expected, old(currentToken).lexeme, old(currentToken).kind)]
      ensures Snapshot() == Fail(input, old(Snapshot()), expected)
    {
      CurrentToken();
      diagnostics := diagnostics + [Diagnostic(currentLine, expected, currentToken.lexeme, currentToken.kind)];
      errorCount := errorCount + 1;
      NextToken();
    }

    /** parseExpression.  Started on a term, it returns on a token that is neither `+` nor `-`;
        it never takes back a counted error. */
    method ParseExpression()
      requires Valid()
      modifies this
      ensures Valid()
      ensures Snapshot() == Expression(input, old(Snapshot()))
      ensures IsTerm(old(currentToken).kind) ==> !IsAddSub(currentToken.kind)
      ensures old(errorCount) <= errorCount && old(diagnostics) <= diagnostics
    {
      CurrentToken();
      ghost var s0 := Snapshot();
      if currentToken.kind == IntLit || currentToken.kind == Ident {
        NextToken();
        while currentToken.kind == AddOp || currentToken.kind == SubOp
          invariant Valid()
          invariant ExprTail(input, Snapshot()) == Expression(input, s0)
          decreases |input| - Index()
        {
          CurrentToken();
          ghost var s := Snapshot();
          NextToken();
          CurrentToken();
          if currentToken.kind == IntLit || currentToken.kind == Ident {
            NextToken();
          } else {
            SyntaxError("INT_LIT or IDENT");
          }
          assert ExprTail(input, s) == ExprTail(input, Snapshot());
        }
        CurrentToken();
      } else {
        SyntaxError("INT_LIT or IDENT");
      }
    }

    /** parseCondition: an expression, one of the six comparison operators, an expression. */
    method ParseCondition()
      requires Valid()
      modifies this
      ensures Valid()
      ensures Snapshot() == Condition(input, old(Snapshot()))
      ensures old(errorCount) <= errorCount && old(diagnostics) <= diagnostics
    {
      ghost var s0 := Snapshot();
      ParseExpression();
      CurrentToken();
      if currentToken.kind == LesserOp || currentToken.kind == GreaterOp ||
         currentToken.kind == EqualOp || currentToken.kind == NequalOp ||
         currentToken.kind == LequalOp || currentToken.kind == GequalOp {
        NextToken();
        ParseExpression();
      } else {
        SyntaxError("comparison operator");
      }
    }

    /** parseStatement: an assignment, a conditional with an optional else part, or an input or
        output statement, chosen by the current token; anything else is reported.  Each branch of
        the C body is a method of its own below. */
    method ParseStatement()
      requires Valid()
      modifies this
      ensures Valid()
      ensures Snapshot() == Statement(input, old(Snapshot()))
      ensures old(errorCount) <= errorCount && old(diagnostics) <= diagnostics
      decreases |input| - Index(), 2
    {
      CurrentToken();
      if currentToken.kind == Ident {
        ParseAssignment();
      } else if currentToken.kind == KeyIf {
        ParseConditional();
      } else if currentToken.kind == KeyIn || currentToken.kind == KeyOut {
        ParseInputOutput();
      } else {
        SyntaxError("valid statement");
      }
    }

    /** The assignment branch of parseStatement: IDENT `=` expression `;`. */
    method ParseAssignment()
      requires Valid() && currentToken.kind == Ident
      modifies this
      ensures Valid()
      ensures Snapshot() == Assignment(input, old(Snapshot()))
      ensures old(errorCount) <= errorCount && old(diagnostics) <= diagnostics
    {
      NextToken();
      CurrentToken();
      if currentToken.kind == AssignOp {
        NextToken();
        ParseExpression();
        CurrentToken();
        if currentToken.kind != Semicolon {
          SyntaxError("SEMICOLON");
        } else {
          NextToken();
        }
      } else {
        SyntaxError("ASSIGN_OP");
      }
    }

    /** The conditional branch of parseStatement up to its opening brace: `if ( condition ) {`. */
    method ParseConditional()
      requires Valid() && currentToken.kind == KeyIf
      modifies this
      ensures Valid()
      ensures Snapshot() == Conditional(input, old(Snapshot()))
      ensures old(errorCount) <= errorCount && old(diagnostics) <= diagnostics
      decreases |input| - Index(), 1
    {
      NextToken();
      CurrentToken();
      if currentToken.kind == OpenParen {
        NextToken();
        ParseCondition();
        CurrentToken();
        if currentToken.kind == CloseParen {
          NextToken();
          CurrentToken();
          if currentToken.kind == OpenCurl {
            NextToken();
            ParseThenBlock();
          } else {
            SyntaxError("OPEN_CURL");
          }
        } else {
          SyntaxError("CLOSE_PAREN");
        }
      } else {
        SyntaxError("OPEN_PAREN");
      }
    }

    /** The then-block of the conditional: a statement, `}`, and the optional else part. */
    method ParseThenBlock()
      requires Valid()
      modifies this
      ensures Valid()
      ensures Snapshot() == ThenBlock(input, old(Snapshot()))
      ensures old(errorCount) <= errorCount && old(diagnostics) <= diagnostics
      decreases |input| - Index(), 3
    {
      ParseStatement();
      CurrentToken();
      if currentToken.kind == CloseCurl {
        NextToken();
        ParseOptionalElse();
      } else {
        SyntaxError("CLOSE_CURL");
      }
    }

    /** After the then-block: on `else`, parse `else { statement }`; otherwise leave the current
        token for the caller. */
    method ParseOptionalElse()
      requires Valid()
      modifies this
      ensures Valid()
      ensures Snapshot() == OptionalElse(input, old(Snapshot()))
      ensures old(errorCount) <= errorCount && old(diagnostics) <= diagnostics
      decreases |input| - Index(), 0
    {
      CurrentToken();
      if currentToken.kind == KeyElse {
        NextToken();
        CurrentToken();
        if currentToken.kind == OpenCurl {
          NextToken();
          ParseStatement();
          CurrentToken();
          if currentToken.kind != CloseCurl {
            SyntaxError("CLOSE_CURL");
          } else {
            NextToken();
          }
        } else {
          SyntaxError("OPEN_CURL");
        }
      }
    }

    /** The input/output branch of parseStatement: `input` or `output`, then `( IDENT ) ;`. */
    method ParseInputOutput()
      requires Valid() && (currentToken.kind == KeyIn || currentToken.kind == KeyOut)
      modifies this
      ensures Valid()
      ensures Snapshot() == InputOutput(input, old(Snapshot()))
      ensures old(errorCount) <= errorCount && old(diagnostics) <= diagnostics
    {
      NextToken();
      CurrentToken();
      if currentToken.kind == OpenParen {
        NextToken();
        CurrentToken();
        if currentToken.kind == Ident {
          NextToken();
          CurrentToken();
          if currentToken.kind == CloseParen {
            NextToken();
            CurrentToken();
            if currentToken.kind != Semicolon {
              SyntaxError("SEMICOLON");
            } else {
              NextToken();
            }
          } else {
            SyntaxError("CLOSE_PAREN");
          }
        } else {
          SyntaxError("IDENT");
        }
      } else {
        SyntaxError("OPEN_PAREN");
      }
    }

    /** parseProgram: a program is one statement. */
    method ParseProgram()
      requires Valid()
      modifies this
      ensures Valid()
      ensures Snapshot() == Program(input, old(Snapshot()))
      ensures old(errorCount) <= errorCount && old(diagnostics) <= diagnostics
    {
      ParseStatement();
    }
  }

  /** syntaxParser on a FILE holding the given classified lexemes: read the first lexeme, parse a
      program, and report the verdict.  It returns whether "Syntax Validated" is printed (exit
      status 0 rather than 1), the final error count and the diagnostics printed. */
  method SyntaxParser(tokens: seq<Token>) returns (validated: bool, errors: nat, printed: seq<Diagnostic>)
    ensures errors == Run(tokens).errors && printed == Run(tokens).log
    ensures errors == |printed|
    ensures validated <==> errors == 0
    ensures validated <==> Validated(tokens)
    ensures validated <==> printed == []
    ensures forall j :: 0 <= j < |printed| ==> 1 <= printed[j].line <= 1 + NewlinesBefore(tokens, |tokens|)
    ensures NoNewlines(tokens) ==> forall j :: 0 <= j < |printed| ==> printed[j].line == 1
  {
    var p := new Parser(tokens);
    p.NextToken();
    assert p.Snapshot() == Start(tokens);
    p.ParseProgram();
    errors := p.errorCount;
    printed := p.diagnostics;
    validated := p.errorCount == 0;
    NewlinesMonotone(tokens, p.read, |tokens|);
    if NoNewlines(tokens) {
      NewlinesBeforeNone(tokens, |tokens|);
    }
  }
}
