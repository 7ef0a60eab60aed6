/**
 * The validator against the grammar.  Each rule of the parser is
 *   sound:    when it prints no diagnostic, the tokens it consumed form the phrase it parses;
 *   complete: when the tokens from the current one on form the phrase, and the token after the
 *             phrase cannot continue it, the rule prints no diagnostic and returns with the
 *             current token just after the phrase.
 * The soundness lemmas for statements return the position of the statement's last token.
 */
module Correctness {
  import opened Tokens
  import opened Semantics
  import opened Grammar

  lemma {:induction false} ExprTailSound(input: seq<Token>, s: State)
    requires WithinInput(input, s)
    ensures ExprTail(input, s).errors == s.errors ==> ExprTailIn(input, s.at, ExprTail(input, s).at)
    decreases |input| - s.at
  {
    if IsAddSub(KindAt(input, s.at)) {
      var s1 := Advance(input, s);
      if IsTerm(KindAt(input, s1.at)) {
        ExprTailSound(input, Advance(input, s1));
      }
    }
  }

  lemma {:induction false} ExprTailComplete(input: seq<Token>, s: State, hi: nat)
    requires WithinInput(input, s) && ExprTailIn(input, s.at, hi) && !IsAddSub(KindAt(input, hi))
    ensures ExprTail(input, s).errors == s.errors && ExprTail(input, s).at == hi
    decreases hi - s.at
  {
    if s.at < hi {
      ExprTailComplete(input, Advance(input, Advance(input, s)), hi);
    }
  }

  /** parseExpression prints nothing exactly on an expression that the next token does not extend. */
  lemma ExpressionSound(input: seq<Token>, s: State)
    requires WithinInput(input, s)
    ensures var r := Expression(input, s);
            r.errors == s.errors ==> ExprIn(input, s.at, r.at) && !IsAddSub(KindAt(input, r.at))
  {
    if IsTerm(KindAt(input, s.at)) {
      ExprTailSound(input, Advance(input, s));
    }
  }

  lemma ExpressionComplete(input: seq<Token>, s: State, hi: nat)
    requires WithinInput(input, s) && ExprIn(input, s.at, hi) && !IsAddSub(KindAt(input, hi))
    ensures Expression(input, s).errors == s.errors && Expression(input, s).at == hi
  {
    ExprTailComplete(input, Advance(input, s), hi);
  }

  lemma ConditionSound(input: seq<Token>, s: State)
    requires WithinInput(input, s)
    ensures var r := Condition(input, s);
            r.errors == s.errors ==> CondIn(input, s.at, r.at)
  {
    var s1 := Expression(input, s);
    ExpressionSound(input, s);
    if IsComparison(KindAt(input, s1.at)) {
      var s2 := Advance(input, s1);
      ExpressionSound(input, s2);
      var r := Condition(input, s);
      if r.errors == s.errors {
        var m := s1.at;
        assert ExprIn(input, s.at, m) && IsComparison(input[m].kind) && ExprIn(input, After(m), r.at);
      }
    }
  }

  lemma ConditionComplete(input: seq<Token>, s: State, hi: nat)
    requires WithinInput(input, s) && CondIn(input, s.at, hi) && !IsAddSub(KindAt(input, hi))
    ensures Condition(input, s).errors == s.errors && Condition(input, s).at == hi
  {
    var m :| s.at < m < hi <= |input| && ExprIn(input, s.at, m) && IsComparison(input[m].kind) &&
             ExprIn(input, After(m), hi);
    ExpressionComplete(input, s, m);
    ExpressionComplete(input, Advance(input, Expression(input, s)), hi);
  }

  lemma {:induction false} StatementSound(input: seq<Token>, s: State) returns (d: nat)
    requires WithinInput(input, s)
    ensures var r := Statement(input, s);
            r.errors == s.errors ==> StmtIn(input, s.at, d) && r.at == After(d)
    decreases |input| - s.at, 2
  {
    var k := KindAt(input, s.at);
    if k == Ident {
      d := AssignmentSound(input, s);
    } else if k == KeyIf {
      d := ConditionalSound(input, s);
    } else if k == KeyIn || k == KeyOut {
      d := InputOutputSound(input, s);
    } else {
      d := 0;
    }
  }

  lemma AssignmentSound(input: seq<Token>, s: State) returns (d: nat)
    requires WithinInput(input, s) && KindAt(input, s.at) == Ident
    ensures var r := Assignment(input, s);
            r.errors == s.errors ==> AssignIn(input, s.at, d) && r.at == After(d)
  {
    var s1 := Advance(input, s);
    var s2 := Expression(input, Advance(input, s1));
    ExpressionSound(input, Advance(input, s1));
    d := s2.at;
  }

  lemma InputOutputSound(input: seq<Token>, s: State) returns (d: nat)
    requires WithinInput(input, s) && (KindAt(input, s.at) == KeyIn || KindAt(input, s.at) == KeyOut)
    ensures var r := InputOutput(input, s);
            r.errors == s.errors ==> InputOutputIn(input, s.at, d) && r.at == After(d)
  {
    d := After(After(After(After(s.at))));
  }

  lemma {:induction false} ConditionalSound(input: seq<Token>, s: State) returns (d: nat)
    requires WithinInput(input, s) && KindAt(input, s.at) == KeyIf
    ensures var r := Conditional(input, s);
            r.errors == s.errors ==> StmtIn(input, s.at, d) && r.at == After(d)
    decreases |input| - s.at, 1
  {
    d := 0;
    if Conditional(input, s).errors == s.errors {
      var s1 := Advance(input, s);
      assert KindAt(input, s1.at) == OpenParen;
      var c := Advance(input, s1);
      var s2 := Condition(input, c);
      assert s2.errors == s.errors && KindAt(input, s2.at) == CloseParen;
      var s3 := Advance(input, s2);
      assert KindAt(input, s3.at) == OpenCurl;
      ConditionSound(input, c);
      assert IfHeadIn(input, s.at, s2.at);
      d := ThenBlockSound(input, Advance(input, s3), s.at, s2.at);
    }
  }

  /** After the head of a conditional that starts at i and whose closing parenthesis is at a, a
      diagnostic-free then-block and else part complete the statement. */
  lemma {:induction false} ThenBlockSound(input: seq<Token>, t: State, i: nat, a: nat) returns (d: nat)
    requires WithinInput(input, t) && IfHeadIn(input, i, a) && t.at == After(After(a))
    ensures var r := ThenBlock(input, t);
            r.errors == t.errors ==> StmtIn(input, i, d) && r.at == After(d)
    decreases |input| - t.at, 3
  {
    d := 0;
    if ThenBlock(input, t).errors == t.errors {
      var s4 := Statement(input, t);
      assert s4.errors == t.errors && KindAt(input, s4.at) == CloseCurl;
      var c := StatementSound(input, t);
      StmtCases(input, t.at, c);
      assert After(c) < |input| && input[After(c)].kind == CloseCurl;
      assert IfThenIn(input, i, a, c);
      d := OptionalElseSound(input, Advance(input, s4), i, a, c);
    }
  }

  /** After an if-then that starts at i and whose inner statement ends at c, a diagnostic-free
      else part extends it to a whole conditional statement. */
  lemma {:induction false} OptionalElseSound(input: seq<Token>, s: State, i: nat, a: nat, c: nat) returns (d: nat)
    requires WithinInput(input, s) && IfThenIn(input, i, a, c) && s.at == After(After(c))
    ensures var r := OptionalElse(input, s);
            r.errors == s.errors ==> StmtIn(input, i, d) && r.at == After(d)
    decreases |input| - s.at, 0
  {
    d := After(c);
    if OptionalElse(input, s).errors == s.errors && KindAt(input, s.at) == KeyElse {
      var x := Advance(input, Advance(input, s));
      var e := StatementSound(input, x);
      StmtCases(input, x.at, e);
      assert IfElseIn(input, i, a, c, e);
      d := After(e);
    }
  }

  lemma {:induction false} StatementComplete(input: seq<Token>, s: State, d: nat)
    requires WithinInput(input, s) && StmtIn(input, s.at, d)
    ensures Statement(input, s).errors == s.errors && Statement(input, s).at == After(d)
    decreases d - s.at, 3
  {
    var i := s.at;
    StmtCases(input, i, d);
    var k := KindAt(input, i);
    if k == Ident {
      AssignmentComplete(input, s, d);
    } else if k == KeyIf {
      if a, c :| i < a < c && d == After(c) && IfThenIn(input, i, a, c) && !ElseAt(input, After(d)) {
        IfThenComplete(input, s, a, c);
      } else {
        var a, c, e :| i < a < c < e && d == After(e) && IfElseIn(input, i, a, c, e);
        IfElseComplete(input, s, a, c, e);
      }
    } else {
      InputOutputComplete(input, s, d);
    }
  }

  lemma AssignmentComplete(input: seq<Token>, s: State, d: nat)
    requires WithinInput(input, s) && AssignIn(input, s.at, d)
    ensures KindAt(input, s.at) == Ident
    ensures Assignment(input, s).errors == s.errors && Assignment(input, s).at == After(d)
  {
    ExpressionComplete(input, Advance(input, Advance(input, s)), d);
  }

  lemma InputOutputComplete(input: seq<Token>, s: State, d: nat)
    requires WithinInput(input, s) && InputOutputIn(input, s.at, d)
    ensures KindAt(input, s.at) == KeyIn || KindAt(input, s.at) == KeyOut
    ensures InputOutput(input, s).errors == s.errors && InputOutput(input, s).at == After(d)
  {
  }

  lemma {:induction false} IfThenComplete(input: seq<Token>, s: State, a: nat, c: nat)
    requires WithinInput(input, s) && IfThenIn(input, s.at, a, c) && KindAt(input, After(After(c))) != KeyElse
    ensures KindAt(input, s.at) == KeyIf
    ensures Conditional(input, s).errors == s.errors && Conditional(input, s).at == After(After(c))
    decreases After(c) - s.at, 2
  {
    var t := HeadComplete(input, s, a);
    var s5 := BlockComplete(input, t, c);
  }

  lemma {:induction false} IfElseComplete(input: seq<Token>, s: State, a: nat, c: nat, e: nat)
    requires WithinInput(input, s) && IfElseIn(input, s.at, a, c, e)
    ensures KindAt(input, s.at) == KeyIf
    ensures Conditional(input, s).errors == s.errors && Conditional(input, s).at == After(After(e))
    decreases After(e) - s.at, 2
  {
    IfElseThen(input, s.at, a, c, e);
    var t := HeadComplete(input, s, a);
    var s5 := BlockComplete(input, t, c);
    ElseComplete(input, s5, s.at, a, c, e);
  }

  /** `if ( condition ) {` prints nothing and stops after the brace. */
  lemma HeadComplete(input: seq<Token>, s: State, a: nat) returns (t: State)
    requires WithinInput(input, s) && IfHeadIn(input, s.at, a)
    ensures KindAt(input, s.at) == KeyIf
    ensures WithinInput(input, t) && t.errors == s.errors && t.at == After(After(a))
    ensures Conditional(input, s) == ThenBlock(input, t)
  {
    var c := Advance(input, Advance(input, s));
    ConditionComplete(input, c, a);
    t := Advance(input, Advance(input, Condition(input, c)));
  }

  /** A statement ending at c and the closing brace after it: nothing is printed, and what is
      left is the optional else part just after the brace. */
  lemma {:induction false} BlockComplete(input: seq<Token>, t: State, c: nat) returns (s5: State)
    requires WithinInput(input, t) && StmtIn(input, t.at, c) && After(c) < |input| && input[After(c)].kind == CloseCurl
    ensures WithinInput(input, s5) && s5.errors == t.errors && s5.at == After(After(c))
    ensures ThenBlock(input, t) == OptionalElse(input, s5)
    decreases c - t.at, 4
  {
    StatementComplete(input, t, c);
    s5 := Advance(input, Statement(input, t));
  }

  /** `else { statement }` of the if-then-else starting at lo, parsed from just after the brace
      that closes the then-block. */
  lemma {:induction false} ElseComplete(input: seq<Token>, s: State, lo: nat, a: nat, c: nat, e: nat)
    requires WithinInput(input, s) && IfElseIn(input, lo, a, c, e) && s.at == After(After(c))
    ensures OptionalElse(input, s).errors == s.errors && OptionalElse(input, s).at == After(After(e))
    decreases e - s.at, 4
  {
    StatementComplete(input, Advance(input, Advance(input, s)), e);
  }

  /** The verdict is sound: when syntaxParser reports "Syntax Validated", the tokens from the first
      one on begin with a statement, and parsing stopped just after its last token d. */
  lemma ValidatedSound(input: seq<Token>) returns (d: nat)
    ensures Validated(input) ==> StmtIn(input, 0, d) && Run(input).at == After(d)
  {
    d := StatementSound(input, Start(input));
  }

  /** The verdict is complete: input that begins with a statement is validated, whatever tokens
      come after it, and parsing stops just after the statement. */
  lemma ValidatedComplete(input: seq<Token>, d: nat)
    requires StmtIn(input, 0, d)
    ensures Validated(input) && Run(input).at == After(d)
  {
    StatementComplete(input, Start(input), d);
  }

  /** "Syntax Validated" is printed exactly when the input begins with a statement. */
  lemma ValidatedExactly(input: seq<Token>)
    ensures Validated(input) <==> exists d :: StmtIn(input, 0, d)
  {
    var d := ValidatedSound(input);
    if Validated(input) {
      assert StmtIn(input, 0, d);
    }
    if d' :| StmtIn(input, 0, d') {
      ValidatedComplete(input, d');
    }
  }

  /** An input that is exactly one statement is validated, and parsing consumes all of it. */
  lemma ProgramAccepted(input: seq<Token>)
    requires IsProgram(input)
    ensures Validated(input) && Run(input).at == |input|
  {
    ValidatedComplete(input, |input| - 1);
  }

  /** Conversely, when the tokens are consumed completely without error, they form a program. */
  lemma ConsumedProgram(input: seq<Token>)
    requires Validated(input) && Run(input).at == |input|
    ensures IsProgram(input)
  {
    var d := ValidatedSound(input);
  }
}
