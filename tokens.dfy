/** Token kinds, their printable names, and classified tokens of the Cooke language. */
module Tokens {

  /** The closed set of token kinds, declared in the order of the C enumeration `TokenType`. */
  datatype TokenType =
    | AssignOp | AddOp | SubOp | MultOp | DivOp | ModOp
    | LesserOp | GreaterOp | EqualOp | NequalOp | LequalOp | GequalOp
    | BoolAnd | BoolOr | BoolNot
    | Ident | IntLit | KeyIn | KeyOut | KeyIf | KeyElse
    | OpenParen | CloseParen | OpenCurl | CloseCurl | Semicolon | Unknown

  /** Number of enumeration constants. */
  const KindCount: nat := 27

  /** The value C gives the enumeration constant: its position in the declaration. */
  function Ordinal(k: TokenType): (n: nat)
    ensures n < KindCount
  {
    match k
    case AssignOp => 0   case AddOp => 1      case SubOp => 2
    case MultOp => 3     case DivOp => 4      case ModOp => 5
    case LesserOp => 6   case GreaterOp => 7  case EqualOp => 8
    case NequalOp => 9   case LequalOp => 10  case GequalOp => 11
    case BoolAnd => 12   case BoolOr => 13    case BoolNot => 14
    case Ident => 15     case IntLit => 16    case KeyIn => 17
    case KeyOut => 18    case KeyIf => 19     case KeyElse => 20
    case OpenParen => 21 case CloseParen => 22 case OpenCurl => 23
    case CloseCurl => 24 case Semicolon => 25 case Unknown => 26
  }

  /** The enumeration constant with a given value; every value below KindCount names exactly one kind. */
  function FromOrdinal(n: nat): (k: TokenType)
    requires n < KindCount
    ensures Ordinal(k) == n
  {
    [AssignOp, AddOp, SubOp, MultOp, DivOp, ModOp,
     LesserOp, GreaterOp, EqualOp, NequalOp, LequalOp, GequalOp,
     BoolAnd, BoolOr, BoolNot,
     Ident, IntLit, KeyIn, KeyOut, KeyIf, KeyElse,
     OpenParen, CloseParen, OpenCurl, CloseCurl, Semicolon, Unknown][n]
  }

  /** Ordinal is one-to-one, so the enumeration and its values are in bijection. */
  lemma OrdinalInjective(a: TokenType, b: TokenType)
    requires Ordinal(a) == Ordinal(b)
    ensures a == b
  {
    assert FromOrdinal(Ordinal(a)) == a;
  }

  /** The parallel name table used in diagnostics, indexed by the enumeration value. */
  const TokenNames: seq<string> := [
    "ASSIGN_OP", "ADD_OP", "SUB_OP", "MULT_OP", "DIV_OP", "MOD_OP",
    "LESSER_OP", "GREATER_OP", "EQUAL_OP", "NEQUAL_OP", "LEQUAL_OP", "GEQUAL_OP",
    "BOOL_AND", "BOOL_OR", "BOOL_NOT",
    "IDENT", "INT_LIT", "KEY_IN", "KEY_OUT", "KEY_IF", "KEY_ELSE",
    "OPEN_PAREN", "CLOSE_PAREN", "OPEN_CURL", "CLOSE_CURL", "SEMICOLON", "UNKNOWN"
  ]

  /** The diagnostic name of a kind: the name table looked up at the kind's enumeration value. */
  function Name(k: TokenType): string
  {
    TokenNames[Ordinal(k)]
  }

  /** The name table has exactly one entry per kind, and no two entries coincide. */
  lemma TokenNamesDistinct()
    ensures |TokenNames| == KindCount
    ensures forall i, j :: 0 <= i < j < |TokenNames| ==> TokenNames[i] != TokenNames[j]
  {
  }

  /** Distinct kinds print under distinct names, so a diagnostic's name identifies the kind found. */
  lemma NameInjective(a: TokenType, b: TokenType)
    requires Name(a) == Name(b)
    ensures a == b
  {
    TokenNamesDistinct();
    OrdinalInjective(a, b);
  }

  /** The position after position i of a token sequence. */
  function After(i: nat): nat
  {
    i + 1
  }

  /** The identifier of each enumeration constant, as spelled in the declaration. */
  function Spelling(k: TokenType): string
  {
    match k
    case AssignOp => "ASSIGN_OP"   case AddOp => "ADD_OP"         case SubOp => "SUB_OP"
    case MultOp => "MULT_OP"       case DivOp => "DIV_OP"         case ModOp => "MOD_OP"
    case LesserOp => "LESSER_OP"   case GreaterOp => "GREATER_OP" case EqualOp => "EQUAL_OP"
    case NequalOp => "NEQUAL_OP"   case LequalOp => "LEQUAL_OP"   case GequalOp => "GEQUAL_OP"
    case BoolAnd => "BOOL_AND"     case BoolOr => "BOOL_OR"       case BoolNot => "BOOL_NOT"
    case Ident => "IDENT"          case IntLit => "INT_LIT"       case KeyIn => "KEY_IN"
    case KeyOut => "KEY_OUT"       case KeyIf => "KEY_IF"         case KeyElse => "KEY_ELSE"
    case OpenParen => "OPEN_PAREN" case CloseParen => "CLOSE_PAREN" case OpenCurl => "OPEN_CURL"
    case CloseCurl => "CLOSE_CURL" case Semicolon => "SEMICOLON"  case Unknown => "UNKNOWN"
  }

  /** The name table is aligned with the enumeration: looking a kind up by its value yields the
      kind's own identifier.  Checked one line of the enumeration at a time. */
  lemma NameIsSpelling(k: TokenType)
    ensures Name(k) == Spelling(k)
  {
    if Ordinal(k) < 6 {
      ArithmeticNames(k);
    } else if Ordinal(k) < 12 {
      ComparisonNames(k);
    } else if Ordinal(k) < 15 {
      LogicalNames(k);
    } else if Ordinal(k) < 21 {
      WordNames(k);
    } else {
      PunctuationNames(k);
    }
  }

  /** The alignment for the assignment and arithmetic operators. */
  lemma ArithmeticNames(k: TokenType)
    requires 0 <= Ordinal(k) < 6
    ensures Name(k) == Spelling(k)
  {
  }

  /** The alignment for the comparison operators. */
  lemma ComparisonNames(k: TokenType)
    requires 6 <= Ordinal(k) < 12
    ensures Name(k) == Spelling(k)
  {
  }

  /** The alignment for the boolean operators. */
  lemma LogicalNames(k: TokenType)
    requires 12 <= Ordinal(k) < 15
    ensures Name(k) == Spelling(k)
  {
  }

  /** The alignment for identifiers, literals and keywords. */
  lemma WordNames(k: TokenType)
    requires 15 <= Ordinal(k) < 21
    ensures Name(k) == Spelling(k)
  {
  }

  /** The alignment for the punctuation and the unknown kind. */
  lemma PunctuationNames(k: TokenType)
    requires 21 <= Ordinal(k)
    ensures Name(k) == Spelling(k)
  {
  }

  /** A classified lexeme. */
  datatype Token = Token(lexeme: string, kind: TokenType)

  /** What the cursor yields once the input is exhausted. */
  const Sentinel: Token := Token("", Unknown)

  /** Operands of an expression. */
  predicate IsTerm(k: TokenType) { k == IntLit || k == Ident }

  /** The operators that continue an expression. */
  predicate IsAddSub(k: TokenType) { k == AddOp || k == SubOp }

  /** The six comparison operators of a condition. */
  predicate IsComparison(k: TokenType)
  {
    k == LesserOp || k == GreaterOp || k == EqualOp || k == NequalOp || k == LequalOp || k == GequalOp
  }
}
