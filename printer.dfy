/**
 * The glyphs the debug printer writes for operators and brackets, and the fact
 * that each glyph reads back as the token it was printed for.
 */
module Printer {
  import opened Errors
  import opened Ast

  function OperatorGlyph(op: Operator): (c: char)
    ensures OperatorFromChar(c) == Ok(op)
  {
    match op
    case Add => '+'
    case Sub => '-'
    case Mul => '*'
    case Div => '/'
    case Pow => '^'
  }

  function ParenthesisGlyph(p: ParenthesisType): (c: char)
    ensures ParenthesisFromChar(c) == Ok(p)
  {
    match p
    case Open => '('
    case Close => ')'
    case OpenSquare => '['
    case CloseSquare => ']'
    case OpenCurly => '{'
    case CloseCurly => '}'
  }

  /**
   * `Operator::try_from` is the exact inverse of the printer: it accepts a
   * character precisely when that character is the glyph of the operator it
   * returns, so the five glyphs give five distinct operators.
   */
  lemma OperatorTableExact(c: char, op: Operator)
    ensures OperatorFromChar(c) == Ok(op) <==> c == OperatorGlyph(op)
  {
  }

  /** Likewise for the six bracket glyphs and `ParenthesisType::try_from`. */
  lemma ParenthesisTableExact(c: char, p: ParenthesisType)
    ensures ParenthesisFromChar(c) == Ok(p) <==> c == ParenthesisGlyph(p)
  {
  }
}
