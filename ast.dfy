/**
 * The token types of the first two stages and the lexicon tables that classify
 * single characters (operators, brackets) and function names.
 */
module Ast {
  import opened Errors
  import opened CharClass

  datatype Operator = Add | Sub | Mul | Div | Pow

  datatype ParenthesisType = Open | Close | OpenSquare | CloseSquare | OpenCurly | CloseCurly

  datatype FunctionType =
    | Sin | Cos | Tan | Cot | Sec | Csc
    | Sinh | Cosh | Tanh | Coth | Sech | Csch
    | Log | Ln
    | Sqrt | Root
    | Exp | Mod
    | Ceil | Floor | Round | Abs

  /**
   * First-stage token. Literals, identifiers and function names are half-open
   * `[start, end)` index spans into the equation text.
   */
  datatype RawSyntax =
    | ValueLit(start: nat, end: nat)
    | ValueIdent(start: nat, end: nat)
    | Operator(op: Operator)
    | Parenthesis(kind: ParenthesisType)
    | Function(start: nat, end: nat)
    | Comma
    | Abs
  {
    /** The token refers to a span of the equation text. */
    predicate HasSpan() {
      ValueLit? || ValueIdent? || Function?
    }
  }

  /**
   * Second-stage token: literals converted to values of type `V`, identifiers
   * sliced out of the equation text, function names looked up.
   */
  datatype Syntax<V> =
    | ValueLit(value: V)
    | ValueIdent(name: string)
    | Operator(op: Operator)
    | Parenthesis(kind: ParenthesisType)
    | Function(func: FunctionType)
    | Comma
    | Abs

  /** `Operator::try_from(char)`. */
  function OperatorFromChar(c: char): (r: Result<Operator>)
    ensures r.Ok? <==> c in {'+', '-', '*', '/', '^'}
    ensures r.Err? ==> r.error == NoMatch
  {
    match c
    case '+' => Ok(Add)
    case '-' => Ok(Sub)
    case '*' => Ok(Mul)
    case '/' => Ok(Div)
    case '^' => Ok(Pow)
    case _ => Err(NoMatch)
  }

  /** `ParenthesisType::try_from(char)`. */
  function ParenthesisFromChar(c: char): (r: Result<ParenthesisType>)
    ensures r.Ok? <==> c in {'(', ')', '[', ']', '{', '}'}
    ensures r.Err? ==> r.error == NoMatch
  {
    match c
    case '(' => Ok(Open)
    case ')' => Ok(Close)
    case '[' => Ok(OpenSquare)
    case ']' => Ok(CloseSquare)
    case '{' => Ok(OpenCurly)
    case '}' => Ok(CloseCurly)
    case _ => Err(NoMatch)
  }

  /** `FunctionType::from_str`: case-sensitive lookup of the 22 function names. */
  function FunctionFromStr(s: string): (r: Result<FunctionType>)
    ensures r.Err? ==> r.error == UnknownFunction
  {
    match s
    case "sin" => Ok(Sin)
    case "cos" => Ok(Cos)
    case "tan" => Ok(Tan)
    case "cot" => Ok(Cot)
    case "sec" => Ok(Sec)
    case "csc" => Ok(Csc)
    case "sinh" => Ok(Sinh)
    case "cosh" => Ok(Cosh)
    case "tanh" => Ok(Tanh)
    case "coth" => Ok(Coth)
    case "sech" => Ok(Sech)
    case "csch" => Ok(Csch)
    case "log" => Ok(Log)
    case "ln" => Ok(Ln)
    case "sqrt" => Ok(Sqrt)
    case "root" => Ok(Root)
    case "exp" => Ok(Exp)
    case "mod" => Ok(Mod)
    case "ceil" => Ok(Ceil)
    case "floor" => Ok(Floor)
    case "round" => Ok(Round)
    case "abs" => Ok(FunctionType.Abs)
    case _ => Err(UnknownFunction)
  }

  /**
   * The name `FunctionFromStr` accepts for each function: the lexicon table read
   * backwards. Every name is a non-empty run of letters, so it can arise as the
   * span of a function token.
   */
  function FunctionName(f: FunctionType): (name: string)
    ensures FunctionFromStr(name) == Ok(f)
    ensures |name| > 0 && AllAlphabetic(name)
  {
    match f
    case Sin => "sin"
    case Cos => "cos"
    case Tan => "tan"
    case Cot => "cot"
    case Sec => "sec"
    case Csc => "csc"
    case Sinh => "sinh"
    case Cosh => "cosh"
    case Tanh => "tanh"
    case Coth => "coth"
    case Sech => "sech"
    case Csch => "csch"
    case Log => "log"
    case Ln => "ln"
    case Sqrt => "sqrt"
    case Root => "root"
    case Exp => "exp"
    case Mod => "mod"
    case Ceil => "ceil"
    case Floor => "floor"
    case Round => "round"
    case Abs => "abs"
  }

  /**
   * The function table accepts exactly the listed lower-case names, each for one
   * function only, so distinct accepted names give distinct functions; anything
   * else, a capitalised name included, is `UnknownFunction`.
   */
  lemma FunctionFromStrExact(s: string, f: FunctionType)
    ensures FunctionFromStr(s) == Ok(f) <==> s == FunctionName(f)
    ensures FunctionFromStr("Sin") == Err(UnknownFunction)
  {
  }

  /** Distinct functions have distinct names (there are 22 different names). */
  lemma FunctionNameInjective(f: FunctionType, g: FunctionType)
    ensures FunctionName(f) == FunctionName(g) ==> f == g
  {
  }

  /**
   * The character classes the tokenizer dispatches on do not overlap: no
   * operator glyph is a bracket glyph, neither is a space, comma or bar, and
   * none of them is a digit, a point or a letter.
   */
  lemma LexiconDisjoint(c: char)
    ensures !(OperatorFromChar(c).Ok? && ParenthesisFromChar(c).Ok?)
    ensures c in {' ', ',', '|'} ==> OperatorFromChar(c).Err? && ParenthesisFromChar(c).Err?
    ensures IsNumeric(c) || c == '.' || IsAlphabetic(c) ==>
              OperatorFromChar(c).Err? && ParenthesisFromChar(c).Err? && c !in {' ', ',', '|'}
  {
  }
}
