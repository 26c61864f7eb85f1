/**
 * The second stage, `second_parse`: walks the raw tokens with a one-token
 * look-behind, inserts a multiplication operator where two operands are
 * juxtaposed, slices identifiers out of the equation text, converts literal
 * spans and looks up function names. It stops at the first token that fails.
 */
module Resolver {
  import opened Errors
  import opened CharClass
  import opened Ast
  import opened Tokenizer

  /** Slicing `equation[start..end]` panics unless every span lies within the text. */
  predicate SpansWithin(raw: seq<RawSyntax>, len: nat) {
    forall k :: 0 <= k < |raw| && raw[k].HasSpan() ==> raw[k].start <= raw[k].end <= len
  }

  /** The arms of the look-behind match that rule implicit multiplication out. */
  predicate NoImplicitMul(previous: Option<RawSyntax>, token: RawSyntax) {
    match (previous, token)
    case (None, _) => true
    case (Some(Operator(_)), _) => true
    case (Some(Comma), _) => true
    case (_, Comma) => true
    case (Some(Abs), _) => true
    case (_, Abs) => true
    case (Some(Parenthesis(_)), _) => true
    case (_, Operator(_)) => true
    case (Some(Function(_, _)), _) => true
    case (_, Parenthesis(Close)) => true
    case (_, Parenthesis(CloseSquare)) => true
    case (_, Parenthesis(CloseCurly)) => true
    case _ => false
  }

  /** A token that can stand to the left of an implied product. */
  predicate EndsOperand(t: RawSyntax) {
    t.ValueLit? || t.ValueIdent?
  }

  /** A token that can stand to the right of an implied product. */
  predicate BeginsOperand(t: RawSyntax) {
    || t.ValueLit? || t.ValueIdent? || t.Function?
    || t == RawSyntax.Parenthesis(Open)
    || t == RawSyntax.Parenthesis(OpenSquare)
    || t == RawSyntax.Parenthesis(OpenCurly)
  }

  /**
   * Where a multiplication is inserted. `SkipBeforeLast` is the rule as the
   * resolver applies it: never before the last token. `AllPairs` inserts before
   * every juxtaposed operand, the last one included.
   */
  datatype InsertionRule = SkipBeforeLast | AllPairs

  /**
   * Whether a multiplication goes before token `i`: the look-behind table read
   * positively, restricted by the rule.
   */
  function InsertsMul(raw: seq<RawSyntax>, i: nat, rule: InsertionRule): (b: bool)
    requires i < |raw|
    ensures b <==> && 0 < i
                   && EndsOperand(raw[i - 1])
                   && BeginsOperand(raw[i])
                   && (rule == SkipBeforeLast ==> i != |raw| - 1)
  {
    && !NoImplicitMul(if i == 0 then None else Some(raw[i - 1]), raw[i])
    && (rule == SkipBeforeLast ==> i != |raw| - 1)
  }

  /** The multiplication inserted before token `i`, if any. */
  function MulBefore<V>(raw: seq<RawSyntax>, i: nat, rule: InsertionRule): seq<Syntax<V>>
    requires i < |raw|
  {
    if InsertsMul(raw, i, rule) then [Syntax<V>.Operator(Mul)] else []
  }

  /** How one raw token resolves; `parseLit` is the numeric conversion of a literal's text. */
  function ResolveToken<V>(t: RawSyntax, equation: string, parseLit: string -> Option<V>): Result<Syntax<V>>
    requires t.HasSpan() ==> t.start <= t.end <= |equation|
  {
    match t
    case ValueLit(start, end) =>
      (match parseLit(equation[start..end])
       case Some(v) => Ok(Syntax.ValueLit(v))
       case None => Err(LiteralParseError))
    case ValueIdent(start, end) => Ok(Syntax.ValueIdent(equation[start..end]))
    case Operator(op) => Ok(Syntax.Operator(op))
    case Parenthesis(p) => Ok(Syntax.Parenthesis(p))
    case Function(start, end) =>
      (match FunctionFromStr(equation[start..end])
       case Ok(f) => Ok(Syntax.Function(f))
       case Err(e) => Err(e))
    case Comma => Ok(Syntax.Comma)
    case Abs => Ok(Syntax.Abs)
  }

  /** Resolution of the first `n` raw tokens. */
  function ResolvePrefix<V>(raw: seq<RawSyntax>, equation: string, parseLit: string -> Option<V>,
                            rule: InsertionRule, n: nat): Result<seq<Syntax<V>>>
    requires n <= |raw| && SpansWithin(raw, |equation|)
  {
    if n == 0 then Ok([])
    else
      match ResolvePrefix(raw, equation, parseLit, rule, n - 1)
      case Err(e) => Err(e)
      case Ok(done) =>
        match ResolveToken(raw[n - 1], equation, parseLit)
        case Err(e) => Err(e)
        case Ok(t) => Ok(done + MulBefore(raw, n - 1, rule) + [t])
  }

  function Resolve<V>(raw: seq<RawSyntax>, equation: string, parseLit: string -> Option<V>,
                      rule: InsertionRule): Result<seq<Syntax<V>>>
    requires SpansWithin(raw, |equation|)
  {
    ResolvePrefix(raw, equation, parseLit, rule, |raw|)
  }

  /** Once a prefix fails, every longer prefix fails with the same error. */
  lemma {:induction false} ErrorPersists<V>(raw: seq<RawSyntax>, equation: string, parseLit: string -> Option<V>,
                                            rule: InsertionRule, m: nat, n: nat)
    requires m <= n <= |raw| && SpansWithin(raw, |equation|)
    requires ResolvePrefix(raw, equation, parseLit, rule, m).Err?
    ensures ResolvePrefix(raw, equation, parseLit, rule, n) == ResolvePrefix(raw, equation, parseLit, rule, m)
    decreases n - m
  {
    if m < n {
      ErrorPersists(raw, equation, parseLit, rule, m, n - 1);
    }
  }

  /**
   * `second_parse`, with the literal conversion `T::from_str_radix(.., 10)`
   * passed in as `parseLit`.
   */
  method SecondParse<V>(ast: seq<RawSyntax>, equation: string, parseLit: string -> Option<V>)
    returns (r: Result<seq<Syntax<V>>>)
    requires SpansWithin(ast, |equation|)
    ensures r == Resolve(ast, equation, parseLit, SkipBeforeLast)
  {
    var vec: seq<Syntax<V>> := [];
    var previousToken: Option<RawSyntax> := None;
    var index := 0;
    while index < |ast|
      invariant 0 <= index <= |ast|
      invariant previousToken == if index == 0 then None else Some(ast[index - 1])
      invariant ResolvePrefix(ast, equation, parseLit, SkipBeforeLast, index) == Ok(vec)
    {
      var token := ast[index];
      if !NoImplicitMul(previousToken, token) {
        if index != |ast| - 1 {
          vec := vec + [Syntax.Operator(Mul)];
        }
      }
      assert vec == ResolvePrefix(ast, equation, parseLit, SkipBeforeLast, index).value
                    + MulBefore(ast, index, SkipBeforeLast);

      match token {
        case ValueLit(start, end) =>
          match parseLit(equation[start..end]) {
            case Some(v) => vec := vec + [Syntax.ValueLit(v)];
            case None =>
              ErrorPersists(ast, equation, parseLit, SkipBeforeLast, index + 1, |ast|);
              return Err(LiteralParseError);
          }
        case ValueIdent(start, end) =>
          vec := vec + [Syntax.ValueIdent(equation[start..end])];
        case Operator(operator) =>
          vec := vec + [Syntax.Operator(operator)];
        case Parenthesis(parenthesisType) =>
          vec := vec + [Syntax.Parenthesis(parenthesisType)];
        case Function(start, end) =>
          var f := FunctionFromStr(equation[start..end]);
          if f.Err? {
            ErrorPersists(ast, equation, parseLit, SkipBeforeLast, index + 1, |ast|);
            return Err(f.error);
          }
          vec := vec + [Syntax.Function(f.value)];
        case Comma =>
          vec := vec + [Syntax.Comma];
        case Abs =>
          vec := vec + [Syntax.Abs];
      }

      previousToken := Some(token);
      index := index + 1;
    }
    r := Ok(vec);
  }

  // Properties of the resolution

  /**
   * Resolution succeeds exactly when every raw token resolves; when it fails,
   * the error is that of the first token that does not resolve, and no partial
   * output is returned.
   */
  lemma {:induction false} ResolvePrefixFailure<V>(raw: seq<RawSyntax>, equation: string, parseLit: string -> Option<V>,
                                                   rule: InsertionRule, n: nat)
    requires n <= |raw| && SpansWithin(raw, |equation|)
    ensures ResolvePrefix(raw, equation, parseLit, rule, n).Ok? <==>
              forall k :: 0 <= k < n ==> ResolveToken(raw[k], equation, parseLit).Ok?
    ensures ResolvePrefix(raw, equation, parseLit, rule, n).Err? ==>
              exists k :: && 0 <= k < n
                          && ResolveToken(raw[k], equation, parseLit) == Err(ResolvePrefix(raw, equation, parseLit, rule, n).error)
                          && forall j :: 0 <= j < k ==> ResolveToken(raw[j], equation, parseLit).Ok?
  {
    if n > 0 {
      ResolvePrefixFailure(raw, equation, parseLit, rule, n - 1);
    }
  }

  lemma ResolveFailure<V>(raw: seq<RawSyntax>, equation: string, parseLit: string -> Option<V>, rule: InsertionRule)
    requires SpansWithin(raw, |equation|)
    ensures Resolve(raw, equation, parseLit, rule).Ok? <==>
              forall k :: 0 <= k < |raw| ==> ResolveToken(raw[k], equation, parseLit).Ok?
    ensures Resolve(raw, equation, parseLit, rule).Err? ==>
              exists k :: && 0 <= k < |raw|
                          && ResolveToken(raw[k], equation, parseLit) == Err(Resolve(raw, equation, parseLit, rule).error)
                          && forall j :: 0 <= j < k ==> ResolveToken(raw[j], equation, parseLit).Ok?
  {
    ResolvePrefixFailure(raw, equation, parseLit, rule, |raw|);
  }

  /** The number of multiplications inserted before the first `n` tokens. */
  function Insertions(raw: seq<RawSyntax>, rule: InsertionRule, n: nat): nat
    requires n <= |raw|
  {
    if n == 0 then 0 else Insertions(raw, rule, n - 1) + (if InsertsMul(raw, n - 1, rule) then 1 else 0)
  }

  lemma {:induction false} InsertionsMonotone(raw: seq<RawSyntax>, rule: InsertionRule, m: nat, n: nat)
    requires m <= n <= |raw|
    ensures Insertions(raw, rule, m) <= Insertions(raw, rule, n)
    decreases n - m
  {
    if m < n {
      InsertionsMonotone(raw, rule, m, n - 1);
    }
  }

  /** Where raw token `k` lands in the resolved sequence. */
  function Position(raw: seq<RawSyntax>, rule: InsertionRule, k: nat): nat
    requires k < |raw|
  {
    k + Insertions(raw, rule, k + 1)
  }

  /**
   * `out` holds the first `n` raw tokens resolved one-to-one and in order,
   * each at its position, with a multiplication just before every token that
   * gets one and nothing else added.
   */
  ghost predicate LaidOut<V>(raw: seq<RawSyntax>, equation: string, parseLit: string -> Option<V>,
                             rule: InsertionRule, n: nat, out: seq<Syntax<V>>)
    requires n <= |raw| && SpansWithin(raw, |equation|)
  {
    && |out| == n + Insertions(raw, rule, n)
    && forall k :: 0 <= k < n ==>
         && Position(raw, rule, k) < |out|
         && ResolveToken(raw[k], equation, parseLit) == Ok(out[Position(raw, rule, k)])
         && (InsertsMul(raw, k, rule) ==> out[Position(raw, rule, k) - 1] == Syntax.Operator(Mul))
  }

  /** Appending token `n - 1`, with its multiplication if it gets one, extends the layout. */
  lemma LaidOutStep<V>(raw: seq<RawSyntax>, equation: string, parseLit: string -> Option<V>,
                       rule: InsertionRule, n: nat, done: seq<Syntax<V>>, t: Syntax<V>)
    requires 0 < n <= |raw| && SpansWithin(raw, |equation|)
    requires LaidOut(raw, equation, parseLit, rule, n - 1, done)
    requires ResolveToken(raw[n - 1], equation, parseLit) == Ok(t)
    ensures LaidOut(raw, equation, parseLit, rule, n, done + MulBefore(raw, n - 1, rule) + [t])
  {
    var out := done + MulBefore(raw, n - 1, rule) + [t];
    forall k | 0 <= k < n
      ensures Position(raw, rule, k) < |out|
      ensures ResolveToken(raw[k], equation, parseLit) == Ok(out[Position(raw, rule, k)])
      ensures InsertsMul(raw, k, rule) ==> out[Position(raw, rule, k) - 1] == Syntax.Operator(Mul)
    {
      LaidOutStepAt(raw, equation, parseLit, rule, n, done, t, k);
    }
  }

  lemma LaidOutStepAt<V>(raw: seq<RawSyntax>, equation: string, parseLit: string -> Option<V>,
                         rule: InsertionRule, n: nat, done: seq<Syntax<V>>, t: Syntax<V>, k: nat)
    requires 0 < n <= |raw| && SpansWithin(raw, |equation|)
    requires LaidOut(raw, equation, parseLit, rule, n - 1, done)
    requires ResolveToken(raw[n - 1], equation, parseLit) == Ok(t)
    requires k < n
    ensures var out := done + MulBefore(raw, n - 1, rule) + [t];
            && Position(raw, rule, k) < |out|
            && ResolveToken(raw[k], equation, parseLit) == Ok(out[Position(raw, rule, k)])
            && (InsertsMul(raw, k, rule) ==> out[Position(raw, rule, k) - 1] == Syntax.Operator(Mul))
  {
    var out := done + MulBefore(raw, n - 1, rule) + [t];
    var p := Position(raw, rule, k);
    if k < n - 1 {
      InsertionsMonotone(raw, rule, k + 1, n - 1);
      assert out[p] == done[p];
      if InsertsMul(raw, k, rule) {
        assert out[p - 1] == done[p - 1];
      }
    } else {
      InsertionsStep<V>(raw, rule, n);
      assert p == |out| - 1;
    }
  }

  /** One more token adds exactly the multiplication inserted before it, if any. */
  lemma InsertionsStep<V>(raw: seq<RawSyntax>, rule: InsertionRule, n: nat)
    requires 0 < n <= |raw|
    ensures Insertions(raw, rule, n) == Insertions(raw, rule, n - 1) + |MulBefore<V>(raw, n - 1, rule)|
  {
  }

  lemma {:induction false} ResolvePrefixLayout<V>(raw: seq<RawSyntax>, equation: string, parseLit: string -> Option<V>,
                                                  rule: InsertionRule, n: nat)
    requires n <= |raw| && SpansWithin(raw, |equation|)
    ensures ResolvePrefix(raw, equation, parseLit, rule, n).Ok? ==>
              LaidOut(raw, equation, parseLit, rule, n, ResolvePrefix(raw, equation, parseLit, rule, n).value)
  {
    if n > 0 && ResolvePrefix(raw, equation, parseLit, rule, n).Ok? {
      ResolvePrefixLayout(raw, equation, parseLit, rule, n - 1);
      var done := ResolvePrefix(raw, equation, parseLit, rule, n - 1).value;
      var t := ResolveToken(raw[n - 1], equation, parseLit).value;
      LaidOutStep(raw, equation, parseLit, rule, n, done, t);
    }
  }

  /**
   * A successful resolution maps the raw tokens one-to-one and in order, each
   * at its position, with a multiplication just before every token that gets
   * one and nothing else added.
   */
  lemma ResolveLayout<V>(raw: seq<RawSyntax>, equation: string, parseLit: string -> Option<V>, rule: InsertionRule)
    requires SpansWithin(raw, |equation|)
    ensures Resolve(raw, equation, parseLit, rule).Ok? ==>
              var out := Resolve(raw, equation, parseLit, rule).value;
              && |out| == |raw| + Insertions(raw, rule, |raw|)
              && forall k :: 0 <= k < |raw| ==>
                   && Position(raw, rule, k) < |out|
                   && ResolveToken(raw[k], equation, parseLit) == Ok(out[Position(raw, rule, k)])
                   && (InsertsMul(raw, k, rule) ==> out[Position(raw, rule, k) - 1] == Syntax.Operator(Mul))
  {
    ResolvePrefixLayout(raw, equation, parseLit, rule, |raw|);
  }

  // The two stages together

  /** Every span the tokenizer produces can be sliced out of the equation. */
  lemma TokenizeSpansWithin(s: string)
    ensures SpansWithin(Tokenize(s), |s|)
  {
    LexBounds(s, 0);
  }

  /** Every identifier in `out` is a non-empty string of letters. */
  predicate IdentifiersAlphabetic<V>(out: seq<Syntax<V>>) {
    forall p :: 0 <= p < |out| && out[p].ValueIdent? ==> |out[p].name| > 0 && AllAlphabetic(out[p].name)
  }

  lemma {:induction false} PrefixIdentifiers<V>(raw: seq<RawSyntax>, equation: string, parseLit: string -> Option<V>,
                                                rule: InsertionRule, n: nat)
    requires n <= |raw| && SpansWithin(raw, |equation|)
    requires forall k :: 0 <= k < |raw| && raw[k].ValueIdent? ==>
               raw[k].start < raw[k].end && forall p :: raw[k].start <= p < raw[k].end ==> IsAlphabetic(equation[p])
    ensures ResolvePrefix(raw, equation, parseLit, rule, n).Ok? ==>
              IdentifiersAlphabetic(ResolvePrefix(raw, equation, parseLit, rule, n).value)
  {
    if n > 0 && ResolvePrefix(raw, equation, parseLit, rule, n).Ok? {
      PrefixIdentifiers(raw, equation, parseLit, rule, n - 1);
      var done := ResolvePrefix(raw, equation, parseLit, rule, n - 1).value;
      var t := ResolveToken(raw[n - 1], equation, parseLit).value;
      var out := done + MulBefore(raw, n - 1, rule) + [t];
      assert ResolvePrefix(raw, equation, parseLit, rule, n).value == out;
      if t.ValueIdent? {
        var tok := raw[n - 1];
        assert tok.ValueIdent? && t.name == equation[tok.start..tok.end];
        forall i | 0 <= i < |t.name| ensures IsAlphabetic(t.name[i]) {
          assert t.name[i] == equation[tok.start + i];
        }
      }
      forall p | 0 <= p < |out| && out[p].ValueIdent?
        ensures |out[p].name| > 0 && AllAlphabetic(out[p].name)
      {
        if p < |done| {
          assert out[p] == done[p];
        } else if p == |out| - 1 {
          assert out[p] == t;
        }
      }
    }
  }

  /**
   * After both stages every identifier is a non-empty string of letters taken
   * from the equation.
   */
  lemma ResolvedIdentifiersAlphabetic<V>(equation: string, parseLit: string -> Option<V>, rule: InsertionRule)
    ensures SpansWithin(Tokenize(equation), |equation|)
    ensures Resolve(Tokenize(equation), equation, parseLit, rule).Ok? ==>
              IdentifiersAlphabetic(Resolve(Tokenize(equation), equation, parseLit, rule).value)
  {
    TokenizeSpansWithin(equation);
    LexMaximalRuns(equation, 0);
    var raw := Tokenize(equation);
    forall k | 0 <= k < |raw| && raw[k].ValueIdent?
      ensures raw[k].start < raw[k].end && forall p :: raw[k].start <= p < raw[k].end ==> IsAlphabetic(equation[p])
    {
      assert MaximalRun(equation, raw[k]);
    }
    PrefixIdentifiers(raw, equation, parseLit, rule, |raw|);
  }

  // Insertion before the last token

  /**
   * Under the resolver's own rule the product implied by `2x` is dropped when
   * `x` is the last token, but kept once anything follows: `2x` resolves to
   * `2 x`, while `2x+1` resolves to `2 * x + 1`, so the output for a prefix of
   * the tokens is not a prefix of the output for all of them.
   */
  lemma SkipBeforeLastDropsFinalProduct<V>(parseLit: string -> Option<V>, two: V, one: V)
    requires parseLit("2") == Some(two) && parseLit("1") == Some(one)
    ensures SpansWithin(Tokenize("2x"), 2) && SpansWithin(Tokenize("2x+1"), 4)
    ensures Resolve(Tokenize("2x"), "2x", parseLit, SkipBeforeLast)
            == Ok([Syntax.ValueLit(two), Syntax.ValueIdent("x")])
    ensures Resolve(Tokenize("2x+1"), "2x+1", parseLit, SkipBeforeLast)
            == Ok([Syntax.ValueLit(two), Syntax.Operator(Mul), Syntax.ValueIdent("x"), Syntax.Operator(Add), Syntax.ValueLit(one)])
  {
    TokenizeTwoX();
    TokenizeTwoXPlusOne();
    ResolveTwoX(parseLit, two, SkipBeforeLast);
    ResolveTwoXPlusOne(parseLit, two, one);
  }

  /** `2x` under either rule: the product is kept only under `AllPairs`. */
  lemma ResolveTwoX<V>(parseLit: string -> Option<V>, two: V, rule: InsertionRule)
    requires parseLit("2") == Some(two)
    ensures SpansWithin([RawSyntax.ValueLit(0, 1), RawSyntax.ValueIdent(1, 2)], 2)
    ensures rule == SkipBeforeLast ==>
              Resolve([RawSyntax.ValueLit(0, 1), RawSyntax.ValueIdent(1, 2)], "2x", parseLit, rule)
              == Ok([Syntax.ValueLit(two), Syntax.ValueIdent("x")])
    ensures rule == AllPairs ==>
              Resolve([RawSyntax.ValueLit(0, 1), RawSyntax.ValueIdent(1, 2)], "2x", parseLit, rule)
              == Ok([Syntax.ValueLit(two), Syntax.Operator(Mul), Syntax.ValueIdent("x")])
  {
    var raw := [RawSyntax.ValueLit(0, 1), RawSyntax.ValueIdent(1, 2)];
    assert "2x"[0..1] == "2" && "2x"[1..2] == "x";
    var nil: seq<Syntax<V>> := [];
    ResolveStep(raw, "2x", parseLit, rule, 1, nil, Syntax.ValueLit(two));
    var r1 := nil + MulBefore(raw, 0, rule) + [Syntax.ValueLit(two)];
    assert r1 == [Syntax.ValueLit(two)];
    ResolveStep(raw, "2x", parseLit, rule, 2, r1, Syntax.ValueIdent("x"));
    if rule == SkipBeforeLast {
      assert MulBefore<V>(raw, 1, rule) == [];
      assert r1 + [] + [Syntax.ValueIdent("x")] == [Syntax.ValueLit(two), Syntax.ValueIdent("x")];
    } else {
      assert MulBefore<V>(raw, 1, rule) == [Syntax.Operator(Mul)];
      assert r1 + [Syntax.Operator(Mul)] + [Syntax.ValueIdent("x")]
             == [Syntax.ValueLit(two), Syntax.Operator(Mul), Syntax.ValueIdent("x")];
    }
  }

  /** `2x+1` under the resolver's rule: the product before `x` is kept. */
  lemma ResolveTwoXPlusOne<V>(parseLit: string -> Option<V>, two: V, one: V)
    requires parseLit("2") == Some(two) && parseLit("1") == Some(one)
    ensures SpansWithin([RawSyntax.ValueLit(0, 1), RawSyntax.ValueIdent(1, 2), RawSyntax.Operator(Add), RawSyntax.ValueLit(3, 4)], 4)
    ensures Resolve([RawSyntax.ValueLit(0, 1), RawSyntax.ValueIdent(1, 2), RawSyntax.Operator(Add), RawSyntax.ValueLit(3, 4)], "2x+1", parseLit, SkipBeforeLast)
            == Ok([Syntax.ValueLit(two), Syntax.Operator(Mul), Syntax.ValueIdent("x"), Syntax.Operator(Add), Syntax.ValueLit(one)])
  {
    var raw := [RawSyntax.ValueLit(0, 1), RawSyntax.ValueIdent(1, 2), RawSyntax.Operator(Add), RawSyntax.ValueLit(3, 4)];
    assert "2x+1"[0..1] == "2" && "2x+1"[1..2] == "x" && "2x+1"[3..4] == "1";
    var nil: seq<Syntax<V>> := [];
    ResolveStep(raw, "2x+1", parseLit, SkipBeforeLast, 1, nil, Syntax.ValueLit(two));
    var r1 := nil + MulBefore(raw, 0, SkipBeforeLast) + [Syntax.ValueLit(two)];
    assert r1 == [Syntax.ValueLit(two)];
    ResolveStep(raw, "2x+1", parseLit, SkipBeforeLast, 2, r1, Syntax.ValueIdent("x"));
    var r2 := r1 + MulBefore(raw, 1, SkipBeforeLast) + [Syntax.ValueIdent("x")];
    assert r2 == [Syntax.ValueLit(two), Syntax.Operator(Mul), Syntax.ValueIdent("x")];
    ResolveStep(raw, "2x+1", parseLit, SkipBeforeLast, 3, r2, Syntax.Operator(Add));
    var r3 := r2 + MulBefore(raw, 2, SkipBeforeLast) + [Syntax.Operator(Add)];
    assert r3 == [Syntax.ValueLit(two), Syntax.Operator(Mul), Syntax.ValueIdent("x"), Syntax.Operator(Add)];
    ResolveStep(raw, "2x+1", parseLit, SkipBeforeLast, 4, r3, Syntax.ValueLit(one));
    assert MulBefore<V>(raw, 3, SkipBeforeLast) == [];
    assert r3 + [] + [Syntax.ValueLit(one)]
           == [Syntax.ValueLit(two), Syntax.Operator(Mul), Syntax.ValueIdent("x"), Syntax.Operator(Add), Syntax.ValueLit(one)];
  }

  /** `2*x` under `AllPairs`: nothing is inserted next to an explicit operator. */
  lemma ResolveTwoTimesX<V>(parseLit: string -> Option<V>, two: V)
    requires parseLit("2") == Some(two)
    ensures SpansWithin([RawSyntax.ValueLit(0, 1), RawSyntax.Operator(Mul), RawSyntax.ValueIdent(2, 3)], 3)
    ensures Resolve([RawSyntax.ValueLit(0, 1), RawSyntax.Operator(Mul), RawSyntax.ValueIdent(2, 3)], "2*x", parseLit, AllPairs)
            == Ok([Syntax.ValueLit(two), Syntax.Operator(Mul), Syntax.ValueIdent("x")])
  {
    var raw := [RawSyntax.ValueLit(0, 1), RawSyntax.Operator(Mul), RawSyntax.ValueIdent(2, 3)];
    assert "2*x"[0..1] == "2" && "2*x"[2..3] == "x";
    var nil: seq<Syntax<V>> := [];
    ResolveStep(raw, "2*x", parseLit, AllPairs, 1, nil, Syntax.ValueLit(two));
    var r1 := nil + MulBefore(raw, 0, AllPairs) + [Syntax.ValueLit(two)];
    assert r1 == [Syntax.ValueLit(two)];
    ResolveStep(raw, "2*x", parseLit, AllPairs, 2, r1, Syntax.Operator(Mul));
    var r2 := r1 + MulBefore(raw, 1, AllPairs) + [Syntax.Operator(Mul)];
    assert r2 == [Syntax.ValueLit(two), Syntax.Operator(Mul)];
    ResolveStep(raw, "2*x", parseLit, AllPairs, 3, r2, Syntax.ValueIdent("x"));
    assert MulBefore<V>(raw, 2, AllPairs) == [];
    assert r2 + [] + [Syntax.ValueIdent("x")] == [Syntax.ValueLit(two), Syntax.Operator(Mul), Syntax.ValueIdent("x")];
  }

  /** One more token resolved: the step `ResolvePrefix` takes from `n - 1` to `n`. */
  lemma ResolveStep<V>(raw: seq<RawSyntax>, equation: string, parseLit: string -> Option<V>, rule: InsertionRule,
                       n: nat, done: seq<Syntax<V>>, t: Syntax<V>)
    requires 0 < n <= |raw| && SpansWithin(raw, |equation|)
    requires ResolvePrefix(raw, equation, parseLit, rule, n - 1) == Ok(done)
    requires ResolveToken(raw[n - 1], equation, parseLit) == Ok(t)
    ensures ResolvePrefix(raw, equation, parseLit, rule, n) == Ok(done + MulBefore(raw, n - 1, rule) + [t])
  {
  }

  lemma TokenizeTwoX()
    ensures Tokenize("2x") == [RawSyntax.ValueLit(0, 1), RawSyntax.ValueIdent(1, 2)]
  {
    assert RunEnd("2x", 1, true) == 2;
    assert RunEnd("2x", 0, false) == 1;
  }

  lemma TokenizeTwoXPlusOne()
    ensures Tokenize("2x+1") == [RawSyntax.ValueLit(0, 1), RawSyntax.ValueIdent(1, 2), RawSyntax.Operator(Add), RawSyntax.ValueLit(3, 4)]
  {
    assert RunEnd("2x+1", 3, false) == 4;
    assert RunEnd("2x+1", 1, true) == 2;
    assert RunEnd("2x+1", 0, false) == 1;
    assert Lex("2x+1", 2) == [RawSyntax.Operator(Add), RawSyntax.ValueLit(3, 4)];
  }

  lemma TokenizeTwoTimesX()
    ensures Tokenize("2*x") == [RawSyntax.ValueLit(0, 1), RawSyntax.Operator(Mul), RawSyntax.ValueIdent(2, 3)]
  {
    assert RunEnd("2*x", 2, true) == 3;
    assert RunEnd("2*x", 0, false) == 1;
    assert Lex("2*x", 1) == [RawSyntax.Operator(Mul), RawSyntax.ValueIdent(2, 3)];
  }

  /** Under `AllPairs` the resolution of a prefix of the tokens depends only on that prefix. */
  lemma {:induction false} AllPairsPrefixIndependent<V>(a: seq<RawSyntax>, b: seq<RawSyntax>, equation: string,
                                                        parseLit: string -> Option<V>, n: nat)
    requires n <= |a| && SpansWithin(a + b, |equation|)
    ensures SpansWithin(a, |equation|)
    ensures ResolvePrefix(a + b, equation, parseLit, AllPairs, n) == ResolvePrefix(a, equation, parseLit, AllPairs, n)
  {
    assert forall k :: 0 <= k < |a| ==> (a + b)[k] == a[k];
    if n > 0 {
      AllPairsPrefixIndependent(a, b, equation, parseLit, n - 1);
      assert InsertsMul(a + b, n - 1, AllPairs) == InsertsMul(a, n - 1, AllPairs);
    }
  }

  /** A successful resolution of a longer prefix extends that of a shorter one. */
  lemma {:induction false} PrefixExtends<V>(raw: seq<RawSyntax>, equation: string, parseLit: string -> Option<V>,
                                            rule: InsertionRule, m: nat, n: nat)
    requires m <= n <= |raw| && SpansWithin(raw, |equation|)
    requires ResolvePrefix(raw, equation, parseLit, rule, n).Ok?
    ensures ResolvePrefix(raw, equation, parseLit, rule, m).Ok?
    ensures ResolvePrefix(raw, equation, parseLit, rule, m).value <= ResolvePrefix(raw, equation, parseLit, rule, n).value
    decreases n - m
  {
    if m < n {
      PrefixExtends(raw, equation, parseLit, rule, m, n - 1);
    }
  }

  /**
   * Under `AllPairs`, appending tokens never changes how the earlier ones
   * resolve: a successful resolution of `a + b` starts with that of `a`.
   */
  lemma AllPairsAppendStable<V>(a: seq<RawSyntax>, b: seq<RawSyntax>, equation: string, parseLit: string -> Option<V>)
    requires SpansWithin(a + b, |equation|)
    ensures SpansWithin(a, |equation|)
    ensures Resolve(a + b, equation, parseLit, AllPairs).Ok? ==>
              && Resolve(a, equation, parseLit, AllPairs).Ok?
              && Resolve(a, equation, parseLit, AllPairs).value <= Resolve(a + b, equation, parseLit, AllPairs).value
  {
    AllPairsPrefixIndependent(a, b, equation, parseLit, |a|);
    if Resolve(a + b, equation, parseLit, AllPairs).Ok? {
      PrefixExtends(a + b, equation, parseLit, AllPairs, |a|, |a + b|);
    }
  }

  /** Under `AllPairs`, `2x` resolves exactly as `2*x` does. */
  lemma AllPairsJuxtapositionIsProduct<V>(parseLit: string -> Option<V>, two: V)
    requires parseLit("2") == Some(two)
    ensures SpansWithin(Tokenize("2x"), 2) && SpansWithin(Tokenize("2*x"), 3)
    ensures Resolve(Tokenize("2x"), "2x", parseLit, AllPairs)
            == Resolve(Tokenize("2*x"), "2*x", parseLit, AllPairs)
            == Ok([Syntax.ValueLit(two), Syntax.Operator(Mul), Syntax.ValueIdent("x")])
  {
    TokenizeTwoX();
    TokenizeTwoTimesX();
    ResolveTwoX(parseLit, two, AllPairs);
    ResolveTwoTimesX(parseLit, two);
  }
}
