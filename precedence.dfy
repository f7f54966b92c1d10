/** The `PREC` table and the operators of `binary_expression` with the level
    each one is declared at. The table follows the "Operator Precedence" page
    of the MySQL 8.0 Reference Manual; a higher value binds tighter. */
module Precedence {

  datatype Level =
    | Interval | Multiplication | Addition | Bitshift | BitwiseAnd | BitwiseOr
    | Comparison | Not | And | Xor | Or | Assignment | Literal

  function Prec(l: Level): int {
    match l
    case Interval => 14
    case Multiplication => 13
    case Addition => 12
    case Bitshift => 11
    case BitwiseAnd => 10
    case BitwiseOr => 9
    case Comparison => 8
    case Not => 7
    case And => 6
    case Xor => 5
    case Or => 4
    case Assignment => 3
    case Literal => 2
  }

  /** The levels from the tightest to the loosest, as the table lists them. */
  const Levels: seq<Level> :=
    [Interval, Multiplication, Addition, Bitshift, BitwiseAnd, BitwiseOr,
     Comparison, Not, And, Xor, Or, Assignment, Literal]

  /** The table is a strict order: listed first means strictly higher, every
      level is listed, and no two levels share a value. */
  lemma LevelsStrictlyOrdered()
    ensures forall i, j | 0 <= i < j < |Levels| :: Prec(Levels[i]) > Prec(Levels[j])
    ensures forall l: Level :: l in Levels
    ensures forall l1: Level, l2: Level :: Prec(l1) == Prec(l2) ==> l1 == l2
    ensures Prec(Levels[0]) == 14 && Prec(Levels[|Levels| - 1]) == 2
  {
    forall l: Level ensures l in Levels {
      assert Levels[14 - Prec(l)] == l;
    }
    forall i, j | 0 <= i < j < |Levels| ensures Prec(Levels[i]) > Prec(Levels[j]) {
      assert Prec(Levels[i]) == 14 - i;
      assert Prec(Levels[j]) == 14 - j;
    }
  }

  /** The operators of `binary_expression`, named after their symbol. */
  datatype BinaryOperator =
    | Star | Slash | DivWord | Percent | ModWord
    | Minus | Plus
    | ShiftLeft | ShiftRight
    | Ampersand
    | Pipe
    | Equal | Spaceship | GreaterEqual | Greater | LessEqual | Less | LessGreater | BangGreater | IsWord
    | AndWord | AmpAmp
    | XorWord
    | OrWord | PipePipe

  /** The text of each operator's token. */
  function OperatorText(op: BinaryOperator): string {
    match op
    case Star => "*"
    case Slash => "/"
    case DivWord => "DIV"
    case Percent => "%"
    case ModWord => "MOD"
    case Minus => "-"
    case Plus => "+"
    case ShiftLeft => "<<"
    case ShiftRight => ">>"
    case Ampersand => "&"
    case Pipe => "|"
    case Equal => "="
    case Spaceship => "<=>"
    case GreaterEqual => ">="
    case Greater => ">"
    case LessEqual => "<="
    case Less => "<"
    case LessGreater => "<>"
    case BangGreater => "!>"
    case IsWord => "IS"
    case AndWord => "AND"
    case AmpAmp => "&&"
    case XorWord => "XOR"
    case OrWord => "OR"
    case PipePipe => "||"
  }

  function OperatorLevel(op: BinaryOperator): Level {
    match op
    case Star | Slash | DivWord | Percent | ModWord => Multiplication
    case Minus | Plus => Addition
    case ShiftLeft | ShiftRight => Bitshift
    case Ampersand => BitwiseAnd
    case Pipe => BitwiseOr
    case Equal | Spaceship | GreaterEqual | Greater | LessEqual | Less | LessGreater | BangGreater | IsWord => Comparison
    case AndWord | AmpAmp => And
    case XorWord => Xor
    case OrWord | PipePipe => Or
  }

  function OperatorPrec(op: BinaryOperator): int { Prec(OperatorLevel(op)) }

  /** The binary operators lie strictly between LITERAL and INTERVAL, and
      none of them is at the NOT or ASSIGNMENT level. */
  lemma OperatorPrecRange(op: BinaryOperator)
    ensures Prec(Or) <= OperatorPrec(op) <= Prec(Multiplication)
    ensures OperatorLevel(op) != Not && OperatorLevel(op) != Assignment
  {
  }

  /** `&&` shares the AND level and `||` the OR level; the comparison
      operator the grammar lists as `!>` is at the comparison level. */
  lemma SymbolAliases()
    ensures OperatorLevel(AmpAmp) == OperatorLevel(AndWord) == And
    ensures OperatorLevel(PipePipe) == OperatorLevel(OrWord) == Or
    ensures OperatorText(BangGreater) == "!>" && OperatorLevel(BangGreater) == Comparison
  {
  }
}
