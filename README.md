# Cooke parser, modelled in Dafny

This project models `parser.c`, the recursive-descent syntax validator of the Cooke language.
The validator reads whitespace-separated lexemes from a file, and each lexeme is classified into a
token kind. It checks those tokens against a small grammar: a program is one statement, which is
an assignment, a conditional with an optional `else` part, or an `input`/`output` statement. On
each mismatch it prints a diagnostic, counts an error and skips one token. After the program it
reports "Syntax Validated" exactly when no error was counted.

The model has five modules, and a sixth works through examples:

- `Tokens` (`tokens.dfy`) holds the token kinds, in the order of the C enumeration, and the
  parallel name table used in diagnostics. Lemmas show that the table has one distinct entry per
  kind and that looking a kind up by its value gives that kind's own identifier.
- `Semantics` (`semantics.dfy`) describes every parsing procedure as a total function. Each
  function maps the state on entry to the state on return. A state is the position of the
  current token, the error count and the diagnostics printed so far. The position indexes "the
  input followed by the end-of-file sentinel" (an empty lexeme of kind UNKNOWN, which `nextToken`
  repeats forever).
- `Grammar` (`grammar.dfy`) states, independently of the parser, which token ranges form an
  expression, a condition or a statement.
- `Correctness` (`correctness.dfy`) proves each procedure sound and complete against the grammar.
  Sound: when the procedure prints nothing, the tokens it consumed form its phrase. Complete: on
  a phrase that the following token cannot extend, it prints nothing and stops just after the
  phrase. From these follow the verdict lemmas: "Syntax Validated" is printed exactly when the
  input begins with a statement.
- `CookeParser` (`parser.dfy`) is the program as it runs. The class `Parser` is the global state
  of `parser.c`: the FILE (a token sequence and a read position), the current token, the line
  counter, the error counter and the diagnostics printed. It has one method per procedure, each
  updating that state in place. Every method is proved to change the abstract state exactly as
  the corresponding function of `Semantics` does. `SyntaxParser` is proved to return that
  function's error count, diagnostics and verdict.

`Examples` (`examples.dfy`) shows how four concrete inputs fare:

- `x = 1 + 2 ;` is validated.
- `x 1 + 2 ;` gets one diagnostic, expecting ASSIGN_OP, for the INT_LIT `1`.
- `if ( a < b ) { x = 1 ; }` is validated.
- `input ( x` gets one diagnostic, expecting CLOSE_PAREN, for the sentinel, and nothing cascades
  after it.

Modelling choices:

- A diagnostic is the record `(line, expected, lexeme, kind)`. The C program prints the kind
  through `tokenNames[kind]`, which is `Tokens.Name`.
- The body of `parseStatement` (parser.c:74-151) is split into one function and one method per
  branch: assignment; conditional head; then-block; optional else part; input/output. Each keeps
  the branches, the order of `nextToken` calls and the error strings of the C code.
- The line counter is modelled as written. It goes up by one when a lexeme read contains a
  newline character (parser.c:50-53). Lexemes read with the `%s` conversion cannot contain one,
  so the counter never moves. `Semantics.LineAlwaysOne` and `CookeParser.SyntaxParser` prove
  that in that case every diagnostic reports line 1. The model keeps this behaviour and does not correct it.
- A program is a single statement (parser.c:69-71). Every statement fetches the token after it
  with its last `nextToken` call (parser.c:83, 108, 137), but only an if-then examines that
  token, to look for `else` (parser.c:100). After an assignment, an input/output statement or an
  if-then-else, the next token is fetched but never examined. So the grammar treats an `else` right after an
  if-then as part of that if-then: an if-then is a whole statement only where no `else` follows.
  With that reading, `Correctness.ValidatedExactly` proves that "Syntax Validated" is printed
  exactly when the input begins with a statement, whatever tokens follow it.

## Model

| member | source | states |
|---|---|---|
| Tokens.Ordinal | parser.c:8-14 | every kind has an enumeration value below 27, the number of constants |
| Tokens.FromOrdinal | parser.c:8-14 | every value below 27 is the value of a kind |
| Tokens.OrdinalInjective | parser.c:8-14 | distinct kinds have distinct enumeration values |
| Tokens.TokenNamesDistinct | parser.c:16-22 | the name table has exactly one entry per kind, and its entries are pairwise distinct |
| Tokens.NameInjective | parser.c:16-22 | distinct kinds are printed under distinct names |
| Tokens.NameIsSpelling | parser.c:8-22 | the name table entry at a kind's value is that kind's own identifier, so the table and the enumeration are aligned |
| Tokens.Name | parser.c:63 | the name printed for a kind, `tokenNames[kind]`; NameIsSpelling and NameInjective state that it is the kind's own identifier and that distinct kinds print differently |
| Semantics.Start | parser.c:194 | the state handed to parseProgram: first token current, no errors, no diagnostics |
| Semantics.Advance | parser.c:44-58 | nextToken keeps the cursor within the input followed by the sentinel, and leaves the count and diagnostics alone |
| Semantics.Fail | parser.c:61-66 | syntaxError keeps the error count equal to the number of diagnostics printed |
| Semantics.ExprTail | parser.c:157-165 | the loop of parseExpression never moves back or takes back an error, and it stops only on a token that is neither `+` nor `-` |
| Semantics.Expression | parser.c:154-169 | started on INT_LIT or IDENT, parseExpression returns on a token that is neither `+` nor `-`; the cursor, count and diagnostics only grow |
| Semantics.Condition | parser.c:172-183 | the cursor, count and diagnostics only grow, and the count stays equal to the diagnostics printed |
| Semantics.Statement | parser.c:74-151 | the cursor, count and diagnostics only grow, and the count stays equal to the diagnostics printed |
| Semantics.Assignment | parser.c:75-87 | as for Statement, for the assignment branch |
| Semantics.Conditional | parser.c:88-125 | as for Statement, for the conditional branch |
| Semantics.ThenBlock | parser.c:97-116 | as for Statement, for the then-block and what follows it |
| Semantics.OptionalElse | parser.c:100-113 | as for Statement, for the optional else part |
| Semantics.InputOutput | parser.c:126-147 | as for Statement, for the input/output branch |
| Semantics.Program | parser.c:69-71 | as for Statement |
| Semantics.LineAt | parser.c:50-53 | the line counter once a given token is current; LineMonotone states that it starts at 1, never decreases and is bounded by one more than the lexemes with a newline |
| Semantics.Report | parser.c:62-63 | the diagnostic printed for the current token; LineAlwaysOne states that it reports line 1 when no lexeme contains a newline, and Parser.SyntaxError that the class appends exactly it |
| Semantics.Validated | parser.c:197 | the verdict `errorCount == 0`; ValidatedExactly states that it holds exactly when the input begins with a statement, and SyntaxParser that the program's verdict is it |
| Semantics.Run | parser.c:194-195 | a whole session ends within the input followed by the sentinel, with one diagnostic per counted error |
| Semantics.LineMonotone | parser.c:50-53 | the line counter starts at 1, never decreases, and never exceeds one more than the number of lexemes containing a newline |
| Semantics.LineAlwaysOne | parser.c:50-53 | when no lexeme contains a newline (always so under `%s`), the line counter is 1 and every diagnostic reports line 1 |
| Correctness.ExprTailSound | parser.c:157-165 | when the loop prints nothing, the tokens it consumed are zero or more `+`/`-` term pairs |
| Correctness.ExprTailComplete | parser.c:157-165 | on `+`/`-` term pairs that the next token cannot extend, the loop prints nothing and stops right after them |
| Correctness.ExpressionSound | parser.c:154-169 | when parseExpression prints nothing, it consumed an expression and stopped on a token that cannot extend it |
| Correctness.ExpressionComplete | parser.c:154-169 | on an expression that the next token cannot extend, parseExpression prints nothing and stops right after it |
| Correctness.ConditionSound | parser.c:172-183 | when parseCondition prints nothing, it consumed expression, comparison, expression |
| Correctness.ConditionComplete | parser.c:172-183 | on a condition that the next token cannot extend, parseCondition prints nothing and stops right after it |
| Correctness.StatementSound | parser.c:74-151 | when parseStatement prints nothing, it consumed exactly one statement, and it returns that statement's last position |
| Correctness.AssignmentSound | parser.c:75-87 | when the assignment branch prints nothing, it consumed `IDENT = expression ;` |
| Correctness.ConditionalSound | parser.c:88-125 | when the conditional branch prints nothing, it consumed an if-then or an if-then-else statement |
| Correctness.ThenBlockSound | parser.c:97-116 | after a well-formed `if ( condition ) {`, a then-block and else part that print nothing complete a conditional statement |
| Correctness.OptionalElseSound | parser.c:100-113 | after an if-then, an else part that prints nothing leaves the if-then alone or extends it to an if-then-else |
| Correctness.InputOutputSound | parser.c:126-147 | when the input/output branch prints nothing, it consumed `input`/`output ( IDENT ) ;` |
| Correctness.StatementComplete | parser.c:74-151 | on a statement, parseStatement prints nothing and stops right after it (an if-then counts as a statement only where no `else` follows) |
| Correctness.AssignmentComplete | parser.c:75-87 | on an assignment, the assignment branch prints nothing and stops right after the `;` |
| Correctness.InputOutputComplete | parser.c:126-147 | on an input/output statement, its branch prints nothing and stops right after the `;` |
| Correctness.IfThenComplete | parser.c:88-125 | on an if-then whose next token is not `else` (the one token it examines past the `}`), the conditional branch prints nothing and stops after the `}` |
| Correctness.IfElseComplete | parser.c:88-125 | on an if-then-else, the conditional branch prints nothing and stops after the last `}` |
| Correctness.HeadComplete | parser.c:88-96 | on `if ( condition ) {`, the conditional branch prints nothing and continues with the then-block after the brace |
| Correctness.BlockComplete | parser.c:97-99 | on a statement and its `}`, the then-block prints nothing and continues with the else part after the brace |
| Correctness.ElseComplete | parser.c:100-113 | on `else { statement }`, the else part prints nothing and stops after the `}` |
| Correctness.ValidatedSound | parser.c:194-199 | "Syntax Validated" means the input begins with a statement, and parsing stopped just after it |
| Correctness.ValidatedComplete | parser.c:194-199 | an input that begins with a statement is validated, whatever follows, and parsing stops just after the statement |
| Correctness.ValidatedExactly | parser.c:194-199 | "Syntax Validated" is printed if and only if the input begins with a statement |
| Correctness.ProgramAccepted | parser.c:194-199 | an input that is exactly one statement is validated and consumed completely |
| Correctness.ConsumedProgram | parser.c:194-199 | an input consumed completely without errors is exactly one statement |
| Examples.AssignmentValidated | parser.c:75-87 | `x = 1 + 2 ;` is validated and consumed completely |
| Examples.MissingAssignReported | parser.c:85-87 | `x 1 + 2 ;` gets exactly one diagnostic, expecting ASSIGN_OP, for lexeme `1` of kind INT_LIT |
| Examples.IfThenValidated | parser.c:88-125 | `if ( a < b ) { x = 1 ; }` is validated and consumed completely |
| Examples.AssignmentElseValidated | parser.c:75-87 | `x = 1 ; else` is validated: the token after an assignment is fetched but never examined, and parsing stops with the `else` current |
| Examples.TruncatedReported | parser.c:126-147 | `input ( x` gets exactly one diagnostic, expecting CLOSE_PAREN, for the empty UNKNOWN sentinel, and ends at end of file |
| CookeParser.Parser.constructor | parser.c:29-33 | the initial global state: nothing read, a zero-filled current token, line 1, no errors |
| CookeParser.Parser.NextToken | parser.c:44-58 | reads the next lexeme and makes it current, or sets the sentinel at end of file; the line counter goes up exactly when the lexeme holds a newline; the count and diagnostics stay the same; the abstract state moves one token on |
| CookeParser.Parser.SyntaxError | parser.c:61-66 | appends one diagnostic with the line, the expected text and the current lexeme and kind; adds one to the count; skips one token |
| CookeParser.Parser.ParseExpression | parser.c:154-169 | changes the state exactly as Semantics.Expression; started on a term, it returns on a token that is neither `+` nor `-` |
| CookeParser.Parser.ParseCondition | parser.c:172-183 | changes the state exactly as Semantics.Condition |
| CookeParser.Parser.ParseStatement | parser.c:74-151 | changes the state exactly as Semantics.Statement |
| CookeParser.Parser.ParseAssignment | parser.c:75-87 | changes the state exactly as Semantics.Assignment |
| CookeParser.Parser.ParseConditional | parser.c:88-125 | changes the state exactly as Semantics.Conditional |
| CookeParser.Parser.ParseThenBlock | parser.c:97-116 | changes the state exactly as Semantics.ThenBlock |
| CookeParser.Parser.ParseOptionalElse | parser.c:100-113 | changes the state exactly as Semantics.OptionalElse |
| CookeParser.Parser.ParseInputOutput | parser.c:126-147 | changes the state exactly as Semantics.InputOutput |
| CookeParser.Parser.ParseProgram | parser.c:69-71 | changes the state exactly as Semantics.Program |
| CookeParser.SyntaxParser | parser.c:186-205 | returns the error count and diagnostics of Semantics.Run; the verdict is "validated" exactly when the count is 0, that is, exactly when no diagnostic was printed; every diagnostic reports a line between 1 and one more than the number of lexemes containing a newline, so line 1 when none does |

## Left out

- `main` (parser.c:207-215): argument checking and its exit status 2 are not modelled.
- The failure to open the file (parser.c:187-191) and its exit status 3 are not modelled. Neither
  are the banner line, `fclose`, and the exit statuses 0 and 1 (parser.c:193, 197-204). The
  verdict is returned as a boolean instead.
- Reading lexemes with `fscanf("%s")` is not modelled. Neither are the 100-byte buffers and
  `strcpy` (parser.c:45-48) or their overflow on long lexemes. The FILE is modelled as the
  sequence of lexemes it holds.
- `classifyLexeme` and `lexicalAnalyzer.c` are not part of this model. Each token of the input
  carries its kind already.
- The exact text of the diagnostic is not modelled (parser.c:62-63). A diagnostic is recorded as
  its line, expected text, lexeme and kind.
- CookeParser.Parser.SyntaxError: the error counter is an unbounded natural, not a C `int`, so
  its overflow past `INT_MAX` is not modelled.
