/**
 * The grammar the validator enforces, stated declaratively over a sequence of tokens (only their
 * kinds matter).
 *
 *   Statement  ::= IDENT '=' Expression ';'
 *                | 'if' '(' Condition ')' '{' Statement '}' [ 'else' '{' Statement '}' ]
 *                | ('input' | 'output') '(' IDENT ')' ';'
 *   Expression ::= Term { ('+' | '-') Term }        Term ::= INT_LIT | IDENT
 *   Condition  ::= Expression Comparison Expression
 *
 * An `else` always belongs to the if-then just before it, so an if-then counts as a whole
 * statement only where the token after it is not `else`.  This is the one place where a phrase
 * depends on the token that follows it.
 *
 * An expression or a condition is delimited by the position lo of its first token and the
 * position hi just past its last one.  A statement always ends in a definite token (`;` or `}`),
 * so it is delimited by the positions lo and d of its first and its last token.  A range that
 * does not fit in the sequence forms no phrase.
 */
module Grammar {
  import opened Tokens

  /** Zero or more `+ term` / `- term` pairs. */
  ghost predicate ExprTailIn(ts: seq<Token>, lo: nat, hi: nat)
    decreases hi - lo
  {
    lo <= hi <= |ts| &&
    (lo == hi ||
     (After(lo) < hi && IsAddSub(ts[lo].kind) && IsTerm(ts[After(lo)].kind) && ExprTailIn(ts, After(After(lo)), hi)))
  }

  ghost predicate ExprIn(ts: seq<Token>, lo: nat, hi: nat)
  {
    lo < hi <= |ts| && IsTerm(ts[lo].kind) && ExprTailIn(ts, After(lo), hi)
  }

  /** An expression, a comparison operator at some position m, and an expression. */
  ghost predicate CondIn(ts: seq<Token>, lo: nat, hi: nat)
  {
    exists m :: lo < m < hi <= |ts| && ExprIn(ts, lo, m) && IsComparison(ts[m].kind) && ExprIn(ts, After(m), hi)
  }

  ghost predicate AssignIn(ts: seq<Token>, lo: nat, d: nat)
  {
    lo + 3 <= d < |ts| && ts[lo].kind == Ident && ts[After(lo)].kind == AssignOp &&
    ExprIn(ts, After(After(lo)), d) && ts[d].kind == Semicolon
  }

  ghost predicate InputOutputIn(ts: seq<Token>, lo: nat, d: nat)
  {
    d == After(After(After(After(lo)))) && d < |ts| &&
    (ts[lo].kind == KeyIn || ts[lo].kind == KeyOut) && ts[After(lo)].kind == OpenParen &&
    ts[After(After(lo))].kind == Ident && ts[After(After(After(lo)))].kind == CloseParen &&
    ts[d].kind == Semicolon
  }

  /** `if ( condition ) {`, with the closing parenthesis at position a. */
  ghost predicate IfHeadIn(ts: seq<Token>, lo: nat, a: nat)
  {
    lo + 2 < a && After(a) < |ts| &&
    ts[lo].kind == KeyIf && ts[After(lo)].kind == OpenParen && CondIn(ts, After(After(lo)), a) &&
    ts[a].kind == CloseParen && ts[After(a)].kind == OpenCurl
  }

  /** `if ( condition ) { statement }`: the head closes at a, the inner statement ends at c and
      the closing brace follows it. */
  ghost predicate IfThenIn(ts: seq<Token>, lo: nat, a: nat, c: nat)
    decreases c - lo, 0
  {
    lo < a < c && After(c) < |ts| &&
    IfHeadIn(ts, lo, a) && StmtIn(ts, After(After(a)), c) && ts[After(c)].kind == CloseCurl
  }

  /** An if-then whose inner statement ends at c, then `else { statement }` with the second inner
      statement ending at e and the closing brace after it. */
  ghost predicate IfElseIn(ts: seq<Token>, lo: nat, a: nat, c: nat, e: nat)
    decreases e - lo, 0
  {
    lo < a < c && c + 4 <= e && After(e) < |ts| && IfThenIn(ts, lo, a, c) &&
    ts[After(After(c))].kind == KeyElse && ts[After(After(After(c)))].kind == OpenCurl &&
    StmtIn(ts, After(After(After(After(c)))), e) && ts[After(e)].kind == CloseCurl
  }

  /** Position i holds an `else`. */
  ghost predicate ElseAt(ts: seq<Token>, i: nat)
  {
    i < |ts| && ts[i].kind == KeyElse
  }

  /** A statement whose first token is at lo and whose last token is at d. */
  ghost predicate StmtIn(ts: seq<Token>, lo: nat, d: nat)
    decreases d - lo, 1
  {
    AssignIn(ts, lo, d) || InputOutputIn(ts, lo, d) ||
    (exists a, c :: lo < a < c && d == After(c) && IfThenIn(ts, lo, a, c) && !ElseAt(ts, After(d))) ||
    (exists a, c, e :: lo < a < c < e && d == After(e) && IfElseIn(ts, lo, a, c, e))
  }

  /** A whole input that is exactly one statement. */
  ghost predicate IsProgram(ts: seq<Token>)
  {
    0 < |ts| && StmtIn(ts, 0, |ts| - 1)
  }

  /** A statement lies within the sequence, and its first kind decides which form it takes. */
  lemma StmtCases(ts: seq<Token>, lo: nat, d: nat)
    requires StmtIn(ts, lo, d)
    ensures lo < d < |ts|
    ensures ts[lo].kind == Ident ==> AssignIn(ts, lo, d)
    ensures ts[lo].kind != Ident && ts[lo].kind != KeyIf ==> InputOutputIn(ts, lo, d)
  {
    if AssignIn(ts, lo, d) || InputOutputIn(ts, lo, d) {
    } else if a, c :| lo < a < c && d == After(c) && IfThenIn(ts, lo, a, c) && !ElseAt(ts, After(d)) {
    } else {
      var a, c, e :| lo < a < c < e && d == After(e) && IfElseIn(ts, lo, a, c, e);
      IfElseThen(ts, lo, a, c, e);
    }
  }

  /** The if-then part of an if-then-else. */
  lemma IfElseThen(ts: seq<Token>, lo: nat, a: nat, c: nat, e: nat)
    requires IfElseIn(ts, lo, a, c, e)
    ensures IfThenIn(ts, lo, a, c)
  {
  }
}
