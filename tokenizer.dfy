/**
 * The first stage, `first_parse`: one left-to-right scan of the equation that
 * turns maximal runs of digits and points into literal spans, maximal runs of
 * letters into identifier or function-name spans, and single punctuation
 * characters into their own tokens. Spaces and unrecognised characters produce
 * nothing but end any open run.
 */
module Tokenizer {
  import opened Errors
  import opened CharClass
  import opened Ast
  import opened Printer

  /** Characters that extend a run: letters when `alpha`, else digits and `.`. */
  predicate InRun(c: char, alpha: bool) {
    if alpha then IsAlphabetic(c) else IsNumeric(c) || c == '.'
  }

  /** Either kind of run. */
  predicate IsRunChar(c: char) {
    InRun(c, false) || InRun(c, true)
  }

  /** The end of the maximal run of class `alpha` that starts at `i`. */
  function RunEnd(s: string, i: nat, alpha: bool): (j: nat)
    requires i <= |s|
    ensures i <= j <= |s|
    ensures forall p :: i <= p < j ==> InRun(s[p], alpha)
    ensures j == |s| || !InRun(s[j], alpha)
    decreases |s| - i
  {
    if i < |s| && InRun(s[i], alpha) then RunEnd(s, i + 1, alpha) else i
  }

  /** The token for the run `[start, end)`: a letter run is a function name exactly when `(` follows it. */
  function SpanToken(s: string, start: nat, end: nat, alpha: bool): RawSyntax {
    if !alpha then RawSyntax.ValueLit(start, end)
    else if end < |s| && s[end] == '(' then RawSyntax.Function(start, end)
    else RawSyntax.ValueIdent(start, end)
  }

  /** The token a single non-run character stands for, if any. */
  function SingleToken(c: char): Option<RawSyntax> {
    if c == ',' then Some(RawSyntax.Comma)
    else if c == '|' then Some(RawSyntax.Abs)
    else if ParenthesisFromChar(c).Ok? then Some(RawSyntax.Parenthesis(ParenthesisFromChar(c).value))
    else if OperatorFromChar(c).Ok? then Some(RawSyntax.Operator(OperatorFromChar(c).value))
    else None
  }

  /**
   * The single-character table on its own terms: `,` and `|` stand for
   * `Comma` and `Abs`, each bracket and operator glyph for its token, and the
   * thirteen glyphs are the only characters with a token.
   */
  lemma SingleTokenTable(c: char)
    ensures SingleToken(c) == Some(RawSyntax.Comma) <==> c == ','
    ensures SingleToken(c) == Some(RawSyntax.Abs) <==> c == '|'
    ensures forall p :: SingleToken(c) == Some(RawSyntax.Parenthesis(p)) <==> c == ParenthesisGlyph(p)
    ensures forall op :: SingleToken(c) == Some(RawSyntax.Operator(op)) <==> c == OperatorGlyph(op)
    ensures SingleToken(c).None? <==> c !in {',', '|', '(', ')', '[', ']', '{', '}', '+', '-', '*', '/', '^'}
  {
  }

  /**
   * Reference tokenization of `s[i..]`, defined run by run rather than by the
   * character-at-a-time state machine of `FirstParse`.
   */
  function Lex(s: string, i: nat): seq<RawSyntax>
    requires i <= |s|
    decreases |s| - i
  {
    if i == |s| then []
    else if IsRunChar(s[i]) then
      var alpha := IsAlphabetic(s[i]);
      var j := RunEnd(s, i, alpha);
      [SpanToken(s, i, j, alpha)] + Lex(s, j)
    else
      match SingleToken(s[i])
      case Some(tok) => [tok] + Lex(s, i + 1)
      case None => Lex(s, i + 1)
  }

  function Tokenize(s: string): seq<RawSyntax> {
    Lex(s, 0)
  }

  /** The scan's open run: where it started and whether it is a letter run. */
  datatype Run = Run(start: nat, alpha: bool)

  /**
   * `run` is open at index `i`: it started before `i`, and its maximal run
   * has not ended before `i` (everything since its start is of its class).
   */
  ghost predicate OpenRun(s: string, i: nat, run: Run) {
    && run.start < i <= |s|
    && IsAlphabetic(s[run.start]) == run.alpha
    && i <= RunEnd(s, run.start, run.alpha)
  }

  /**
   * The scan's invariant after reading `s[..i]`: the tokens emitted so far,
   * followed by the reference tokenization from the open run's start (or from
   * `i` when no run is open), make up the reference tokenization of `s`.
   */
  ghost predicate Scanned(s: string, i: nat, lastStart: Option<Run>, done: seq<RawSyntax>) {
    && i <= |s|
    && match lastStart
       case None => Tokenize(s) == done + Lex(s, i)
       case Some(run) => OpenRun(s, i, run) && Tokenize(s) == done + Lex(s, run.start)
  }

  lemma {:induction false} RunEndSkip(s: string, i: nat, j: nat, alpha: bool)
    requires i <= j <= |s|
    requires forall p :: i <= p < j ==> InRun(s[p], alpha)
    ensures RunEnd(s, i, alpha) == RunEnd(s, j, alpha)
    decreases j - i
  {
    if i < j {
      RunEndSkip(s, i + 1, j, alpha);
    }
  }

  /** A run character is read with no run open: a run opens there. */
  lemma StartRun(s: string, i: nat, done: seq<RawSyntax>)
    requires i < |s| && IsRunChar(s[i]) && Scanned(s, i, None, done)
    ensures Scanned(s, i + 1, Some(Run(i, IsAlphabetic(s[i]))), done)
  {
  }

  /** A character of the open run's class extends it. */
  lemma ExtendRun(s: string, i: nat, run: Run, done: seq<RawSyntax>)
    requires i < |s| && InRun(s[i], run.alpha) && Scanned(s, i, Some(run), done)
    ensures Scanned(s, i + 1, Some(run), done)
  {
  }

  /** Closing an open run at `i` emits its span token; no run is open afterwards. */
  lemma CloseRun(s: string, i: nat, run: Run, done: seq<RawSyntax>)
    requires Scanned(s, i, Some(run), done)
    requires i == |s| || !InRun(s[i], run.alpha)
    ensures Scanned(s, i, None, done + [SpanToken(s, run.start, i, run.alpha)])
  {
    var tok := SpanToken(s, run.start, i, run.alpha);
    RunEndSkip(s, run.start, i, run.alpha);
    assert RunEnd(s, run.start, run.alpha) == i;
    assert Lex(s, run.start) == [tok] + Lex(s, i);
    assert done + ([tok] + Lex(s, i)) == (done + [tok]) + Lex(s, i);
  }

  /** A character outside both run classes, read with no run open, contributes its single token, if any. */
  lemma ReadSingle(s: string, i: nat, done: seq<RawSyntax>)
    requires i < |s| && !IsRunChar(s[i]) && Scanned(s, i, None, done)
    ensures Scanned(s, i + 1, None, done + (if SingleToken(s[i]).Some? then [SingleToken(s[i]).value] else []))
  {
  }

  /**
   * The two run arms of the scan, for a character of class `alpha`: inside a
   * run of the same class nothing happens; a run of the other class is
   * closed (a letter run before a digit is an identifier, a digit run before
   * a letter a literal) and a new run opens here.
   */
  method ReadRunChar(equation: string, index: nat, lastStart: Option<Run>, vec: seq<RawSyntax>, alpha: bool)
    returns (nextStart: Option<Run>, out: seq<RawSyntax>)
    requires index < |equation| && InRun(equation[index], alpha)
    requires Scanned(equation, index, lastStart, vec)
    ensures Scanned(equation, index + 1, nextStart, out)
    ensures nextStart == if lastStart.Some? && lastStart.value.alpha == alpha then lastStart else Some(Run(index, alpha))
    ensures out == if lastStart.Some? && lastStart.value.alpha != alpha
                   then vec + [if alpha then RawSyntax.ValueLit(lastStart.value.start, index)
                               else RawSyntax.ValueIdent(lastStart.value.start, index)]
                   else vec
  {
    if lastStart.Some? && lastStart.value.alpha == alpha {
      ExtendRun(equation, index, lastStart.value, vec);
      return lastStart, vec;
    }
    out := vec;
    if lastStart.Some? {
      CloseRun(equation, index, lastStart.value, vec);
      var start := lastStart.value.start;
      if alpha {
        out := vec + [RawSyntax.ValueLit(start, index)];
      } else {
        out := vec + [RawSyntax.ValueIdent(start, index)];
      }
    }
    StartRun(equation, index, out);
    nextStart := Some(Run(index, alpha));
  }

  /**
   * Closing the open run before a character outside both run classes:
   * an open digit run becomes a literal, and an open letter run becomes a
   * function name when the character is `(` and an identifier otherwise.
   */
  method CloseBeforeSingle(equation: string, index: nat, lastStart: Option<Run>, vec: seq<RawSyntax>)
    returns (out: seq<RawSyntax>)
    requires index < |equation| && !IsRunChar(equation[index])
    requires Scanned(equation, index, lastStart, vec)
    ensures Scanned(equation, index, None, out)
  {
    out := vec;
    if lastStart.Some? {
      CloseRun(equation, index, lastStart.value, vec);
      var start := lastStart.value.start;
      if !lastStart.value.alpha {
        out := vec + [RawSyntax.ValueLit(start, index)];
      } else if equation[index] == '(' {
        out := vec + [RawSyntax.Function(start, index)];
      } else {
        out := vec + [RawSyntax.ValueIdent(start, index)];
      }
    }
  }

  /**
   * The single-character arms of the scan's match. Space and any character
   * neither table knows produce nothing.
   */
  method ReadSingleChar(value: char) returns (single: Option<RawSyntax>)
    ensures single == Some(RawSyntax.Comma) <==> value == ','
    ensures single == Some(RawSyntax.Abs) <==> value == '|'
    ensures forall p :: single == Some(RawSyntax.Parenthesis(p)) <==> value == ParenthesisGlyph(p)
    ensures forall op :: single == Some(RawSyntax.Operator(op)) <==> value == OperatorGlyph(op)
    ensures single.None? <==> value !in {',', '|', '(', ')', '[', ']', '{', '}', '+', '-', '*', '/', '^'}
    ensures single == SingleToken(value)
  {
    SingleTokenTable(value);
    single := None;
    if value == ' ' {
      return;
    } else if value == ',' {
      single := Some(RawSyntax.Comma);
      return;
    } else if value == '|' {
      single := Some(RawSyntax.Abs);
      return;
    }
    var paren := ParenthesisFromChar(value);
    if paren.Ok? {
      single := Some(RawSyntax.Parenthesis(paren.value));
      return;
    }
    var op := OperatorFromChar(value);
    if op.Ok? {
      single := Some(RawSyntax.Operator(op.value));
    }
  }

  /**
   * The arm of the scan for a character outside both run classes: the open
   * run, if any, is closed, and the character then adds its own token, if it
   * has one. No run is open afterwards.
   */
  method ReadOtherChar(equation: string, index: nat, lastStart: Option<Run>, vec: seq<RawSyntax>)
    returns (out: seq<RawSyntax>)
    requires index < |equation| && !IsRunChar(equation[index])
    requires Scanned(equation, index, lastStart, vec)
    ensures Scanned(equation, index + 1, None, out)
  {
    out := CloseBeforeSingle(equation, index, lastStart, vec);
    var single := ReadSingleChar(equation[index]);
    ReadSingle(equation, index, out);
    if single.Some? {
      out := out + [single.value];
    }
  }

  /**
   * One step of the scan: the character at `index` goes through the arm its
   * class selects (digit or point, letter, anything else).
   */
  method ReadChar(equation: string, index: nat, lastStart: Option<Run>, vec: seq<RawSyntax>)
    returns (nextStart: Option<Run>, out: seq<RawSyntax>)
    requires index < |equation|
    requires Scanned(equation, index, lastStart, vec)
    ensures Scanned(equation, index + 1, nextStart, out)
  {
    var value := equation[index];
    if IsNumeric(value) || value == '.' {
      nextStart, out := ReadRunChar(equation, index, lastStart, vec, false);
    } else if IsAlphabetic(value) {
      nextStart, out := ReadRunChar(equation, index, lastStart, vec, true);
    } else {
      out := ReadOtherChar(equation, index, lastStart, vec);
      nextStart := None;
    }
  }

  /**
   * At the end of the input the scan has emitted the whole tokenization,
   * except for the run still open, which the input's end closes.
   */
  lemma ScanComplete(s: string, i: nat, lastStart: Option<Run>, done: seq<RawSyntax>)
    requires i == |s| && Scanned(s, i, lastStart, done)
    ensures lastStart.None? ==> Tokenize(s) == done
    ensures lastStart.Some? && !lastStart.value.alpha ==>
              Tokenize(s) == done + [RawSyntax.ValueLit(lastStart.value.start, |s|)]
    ensures lastStart.Some? && lastStart.value.alpha ==>
              Tokenize(s) == done + [RawSyntax.ValueIdent(lastStart.value.start, |s|)]
  {
    var d := done;
    if lastStart.Some? {
      CloseRun(s, |s|, lastStart.value, done);
      d := done + [SpanToken(s, lastStart.value.start, |s|, lastStart.value.alpha)];
    }
    assert Lex(s, |s|) == [];
    assert d + [] == d;
  }

  /**
   * `first_parse`. It always succeeds, and its tokens are the reference
   * tokenization of the whole equation.
   */
  method FirstParse(equation: string) returns (r: Result<seq<RawSyntax>>)
    ensures r == Ok(Tokenize(equation))
  {
    var vec: seq<RawSyntax> := [];
    var lastStart: Option<Run> := None;
    var index := 0;
    while index < |equation|
      invariant index <= |equation|
      invariant Scanned(equation, index, lastStart, vec)
    {
      lastStart, vec := ReadChar(equation, index, lastStart, vec);
      index := index + 1;
    }

    ScanComplete(equation, index, lastStart, vec);
    if lastStart.Some? {
      if !lastStart.value.alpha {
        vec := vec + [RawSyntax.ValueLit(lastStart.value.start, |equation|)];
      } else {
        vec := vec + [RawSyntax.ValueIdent(lastStart.value.start, |equation|)];
      }
    }
    r := Ok(vec);
  }

  // Properties of the reference tokenization

  /** Nothing in the input before `i` continues into a run starting at `i`. */
  predicate Boundary(s: string, i: nat)
    requires i <= |s|
  {
    i == 0 || i == |s| || !IsRunChar(s[i]) || !InRun(s[i - 1], IsAlphabetic(s[i]))
  }

  /**
   * A span token is a maximal run: in bounds and non-empty, every character of
   * the run's class (digits and points for a literal, letters otherwise), the
   * characters just before and just after it outside that class, and a letter run
   * a function name exactly when `(` follows it.
   */
  ghost predicate MaximalRun(s: string, t: RawSyntax)
    requires t.HasSpan()
  {
    var alpha := !t.ValueLit?;
    && t.start < t.end <= |s|
    && (forall p :: t.start <= p < t.end ==> InRun(s[p], alpha))
    && (t.end == |s| || !InRun(s[t.end], alpha))
    && (t.start == 0 || !InRun(s[t.start - 1], alpha))
    && (alpha ==> (t.Function? <==> t.end < |s| && s[t.end] == '('))
  }

  /** Every span produced from `s[i..]` lies in `[i, |s|]` and is non-empty. */
  lemma {:induction false} LexBounds(s: string, i: nat)
    requires i <= |s|
    ensures forall k :: 0 <= k < |Lex(s, i)| && Lex(s, i)[k].HasSpan() ==>
              i <= Lex(s, i)[k].start < Lex(s, i)[k].end <= |s|
    decreases |s| - i
  {
    if i < |s| {
      if IsRunChar(s[i]) {
        LexBounds(s, RunEnd(s, i, IsAlphabetic(s[i])));
      } else {
        LexBounds(s, i + 1);
      }
    }
  }

  /** Every span produced from `s[i..]` is a maximal run of its class. */
  lemma {:induction false} LexMaximalRuns(s: string, i: nat)
    requires i <= |s| && Boundary(s, i)
    ensures forall k :: 0 <= k < |Lex(s, i)| && Lex(s, i)[k].HasSpan() ==> MaximalRun(s, Lex(s, i)[k])
    decreases |s| - i
  {
    if i < |s| {
      if IsRunChar(s[i]) {
        var j := RunEnd(s, i, IsAlphabetic(s[i]));
        LexMaximalRuns(s, j);
      } else {
        LexMaximalRuns(s, i + 1);
      }
    }
  }

  /** Spans come in source order and never overlap. */
  lemma {:induction false} LexOrdered(s: string, i: nat)
    requires i <= |s|
    ensures forall k, l :: 0 <= k < l < |Lex(s, i)| && Lex(s, i)[k].HasSpan() && Lex(s, i)[l].HasSpan() ==>
              Lex(s, i)[k].end <= Lex(s, i)[l].start
    decreases |s| - i
  {
    if i < |s| {
      var next := if IsRunChar(s[i]) then RunEnd(s, i, IsAlphabetic(s[i])) else i + 1;
      LexOrdered(s, next);
      LexBounds(s, next);
    }
  }

  /** A function-name token is always immediately followed by an opening parenthesis token. */
  lemma {:induction false} LexFunctionThenOpen(s: string, i: nat)
    requires i <= |s|
    ensures forall k :: 0 <= k < |Lex(s, i)| && Lex(s, i)[k].Function? ==>
              k + 1 < |Lex(s, i)| && Lex(s, i)[k + 1] == RawSyntax.Parenthesis(Open)
    decreases |s| - i
  {
    if i < |s| {
      if IsRunChar(s[i]) {
        var j := RunEnd(s, i, IsAlphabetic(s[i]));
        LexFunctionThenOpen(s, j);
        if j < |s| && s[j] == '(' {
          assert Lex(s, j)[0] == RawSyntax.Parenthesis(Open);
        }
      } else {
        LexFunctionThenOpen(s, i + 1);
      }
    }
  }

  /** The tokens that are not spans, in order. */
  function Punctuation(t: seq<RawSyntax>): seq<RawSyntax> {
    if t == [] then []
    else (if t[0].HasSpan() then [] else [t[0]]) + Punctuation(t[1..])
  }

  /** The single-character tokens of `s[i..]`, one per recognised character, in source order. */
  function SingleTokens(s: string, i: nat): seq<RawSyntax>
    requires i <= |s|
    decreases |s| - i
  {
    if i == |s| then []
    else
      match SingleToken(s[i])
      case Some(tok) => [tok] + SingleTokens(s, i + 1)
      case None => SingleTokens(s, i + 1)
  }

  /** The number of digit, point and letter characters in `s[i..]`. */
  function RunCharCount(s: string, i: nat): nat
    requires i <= |s|
    decreases |s| - i
  {
    if i == |s| then 0 else (if IsRunChar(s[i]) then 1 else 0) + RunCharCount(s, i + 1)
  }

  /** The total length of the spans in `t`. */
  function SpanLength(t: seq<RawSyntax>): int {
    if t == [] then 0
    else (if t[0].HasSpan() then t[0].end - t[0].start else 0) + SpanLength(t[1..])
  }

  lemma {:induction false} RunSkipsSingles(s: string, i: nat, j: nat, alpha: bool)
    requires i <= j <= |s|
    requires forall p :: i <= p < j ==> InRun(s[p], alpha)
    ensures SingleTokens(s, i) == SingleTokens(s, j)
    ensures RunCharCount(s, i) == (j - i) + RunCharCount(s, j)
    decreases j - i
  {
    if i < j {
      RunSkipsSingles(s, i + 1, j, alpha);
    }
  }

  /**
   * Each comma, bar, bracket glyph and operator character of `s[i..]` yields
   * exactly one token of its kind, in source order, and no other character yields
   * a non-span token.
   */
  lemma {:induction false} LexPunctuation(s: string, i: nat)
    requires i <= |s|
    ensures Punctuation(Lex(s, i)) == SingleTokens(s, i)
    decreases |s| - i
  {
    if i < |s| {
      if IsRunChar(s[i]) {
        var alpha := IsAlphabetic(s[i]);
        var j := RunEnd(s, i, alpha);
        LexPunctuation(s, j);
        RunSkipsSingles(s, i, j, alpha);
        assert ([SpanToken(s, i, j, alpha)] + Lex(s, j))[1..] == Lex(s, j);
      } else {
        LexPunctuation(s, i + 1);
        match SingleToken(s[i])
        case Some(tok) =>
          assert ([tok] + Lex(s, i + 1))[1..] == Lex(s, i + 1);
        case None =>
      }
    }
  }

  /**
   * The spans cover exactly the digit, point and letter characters: their total
   * length is the number of such characters (and they are disjoint, `LexOrdered`,
   * and hold only such characters, `LexMaximalRuns`).
   */
  lemma {:induction false} LexCoverage(s: string, i: nat)
    requires i <= |s|
    ensures SpanLength(Lex(s, i)) == RunCharCount(s, i)
    decreases |s| - i
  {
    if i < |s| {
      if IsRunChar(s[i]) {
        var alpha := IsAlphabetic(s[i]);
        var j := RunEnd(s, i, alpha);
        LexCoverage(s, j);
        RunSkipsSingles(s, i, j, alpha);
        assert ([SpanToken(s, i, j, alpha)] + Lex(s, j))[1..] == Lex(s, j);
      } else {
        LexCoverage(s, i + 1);
        match SingleToken(s[i])
        case Some(tok) =>
          assert ([tok] + Lex(s, i + 1))[1..] == Lex(s, i + 1);
        case None =>
      }
    }
  }

  /**
   * The tokenizer's guarantees for a whole equation, the facts the resolver
   * relies on: every span is an in-bounds maximal run, spans are ordered and
   * disjoint, and every function name is followed by `(`.
   */
  lemma TokenizeWellFormed(s: string)
    ensures forall k :: 0 <= k < |Tokenize(s)| && Tokenize(s)[k].HasSpan() ==> MaximalRun(s, Tokenize(s)[k])
    ensures forall k, l :: 0 <= k < l < |Tokenize(s)| && Tokenize(s)[k].HasSpan() && Tokenize(s)[l].HasSpan() ==>
              Tokenize(s)[k].end <= Tokenize(s)[l].start
    ensures forall k :: 0 <= k < |Tokenize(s)| && Tokenize(s)[k].Function? ==>
              k + 1 < |Tokenize(s)| && Tokenize(s)[k + 1] == RawSyntax.Parenthesis(Open)
  {
    LexMaximalRuns(s, 0);
    LexOrdered(s, 0);
    LexFunctionThenOpen(s, 0);
  }

  /**
   * A space and an unrecognised character behave alike: neither yields a token
   * or an error, and both end the letter run before them, so `a b` and `a$b`
   * each give two one-letter identifiers where `ab` gives one.
   */
  lemma SeparatorsEndRuns()
    ensures Tokenize("a b") == [RawSyntax.ValueIdent(0, 1), RawSyntax.ValueIdent(2, 3)]
    ensures Tokenize("a$b") == [RawSyntax.ValueIdent(0, 1), RawSyntax.ValueIdent(2, 3)]
    ensures Tokenize("ab") == [RawSyntax.ValueIdent(0, 2)]
  {
    assert RunEnd("a b", 2, true) == 3 && RunEnd("a b", 0, true) == 1;
    assert Lex("a b", 1) == Lex("a b", 2);
    assert RunEnd("a$b", 2, true) == 3 && RunEnd("a$b", 0, true) == 1;
    assert Lex("a$b", 1) == Lex("a$b", 2);
    assert RunEnd("ab", 0, true) == 2;
  }
}
