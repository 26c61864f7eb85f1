# Equation front end: tokenizer and resolver

This project models the first two stages of a front end for mathematical equations such as
`2sin(x)+log(y,10)`. Its proofs cover the stages as the code implements them. The later
expression-tree stage exists only as an empty function and unused types, so it is not part
of this model.

- **Lexicon** (`ast.dfy`, module `Ast`). Token types `RawSyntax` (first stage) and `Syntax`
  (second stage), `Operator`, `ParenthesisType`, `FunctionType`, and the tables
  `Operator::try_from`, `ParenthesisType::try_from` and `FunctionType::from_str`.
  `EquationParseError` and the result wrappers are in `errors.dfy`.
- **Tokenizer** `first_parse` (`tokenizer.dfy`). A method that scans the characters
  left to right, keeps an optional open run `(start, is_alpha)` and appends position-indexed
  tokens to a sequence. Each loop step goes through the arm the character's class selects
  (`ReadRunChar` for digits, points and letters, `ReadOtherChar` for the rest). The method is
  proved equal to `Tokenize`, a separate reference definition that works one maximal run at a
  time. The properties are then proved about `Tokenize`. `SpanToken` gives the token a closed
  run becomes (the close arms of the scan) and `SingleToken` the token of a single
  punctuation character (its single-character match).
- **Resolver** `second_parse` (`resolver.dfy`). A method that walks the raw tokens with a
  one-token look-behind. It inserts `Operator(Mul)` for juxtaposed operands, slices identifiers
  out of the text, converts literals, looks up function names, and returns the first error.
  It is proved equal to `Resolve`, which resolves the token sequence one prefix at a time.
  `NoImplicitMul` is the look-behind match's list of excluded pairs, `InsertsMul` its positive
  reading, and `ResolveToken` the per-token conversion.
- **Printer glyphs** (`printer.dfy`). The operator and bracket glyphs that `print` writes,
  and the proof that each glyph parses back to the same token.

Characters are Dafny `char`s. `is_numeric` and `is_alphabetic` are the ASCII digit and
letter tests (`chars.dfy`). On ASCII text, character indices and byte offsets are the same,
so the spans index the text directly. The float conversion `from_str_radix(.., 10)` is a
foreign call. It is a parameter `parseLit: string -> Option<V>`: `None` stands for its error.

Points of the code's behaviour that the proofs pin down:
- The code has no error for an unrecognised character: it is dropped. Like a space, it ends
  any open run. `first_parse` always returns `Ok`, and `NoMatch` never leaves it.
- A literal run is any run of digits and points, so `1.2.3` is one span. Rejecting it is
  left to the float conversion, which yields `LiteralParseError`.
- Implicit multiplication is inserted only after a literal or an identifier. It is never
  inserted after a closing bracket, a bar or a function name, and never before a comma, a
  bar, an operator or a closing bracket.
- No multiplication is inserted before the last token. So `2x` resolves to `2 x`, but `2x+1`
  resolves to `2 * x + 1` (see Findings).

## Model

| member | source | states |
|---|---|---|
| `Ast.OperatorFromChar` | cranelift-equation-parser/src/ast.rs:64-73 | Succeeds exactly for `+ - * / ^`; every other character fails with `NoMatch` |
| `Ast.ParenthesisFromChar` | cranelift-equation-parser/src/ast.rs:95-105 | Succeeds exactly for the six glyphs `( ) [ ] { }`; every other character fails with `NoMatch` |
| `Ast.FunctionFromStr` | cranelift-equation-parser/src/ast.rs:141-170 | A name that is not in the table fails with `UnknownFunction` and no other error |
| `Ast.FunctionName` | cranelift-equation-parser/src/ast.rs:142-168 | Each function's table name is non-empty and all letters, so it can be a function-name span, and `from_str` maps it back to that function |
| `Ast.FunctionFromStrExact` | cranelift-equation-parser/src/ast.rs:141-170 | `from_str(s) == Ok(f)` holds exactly when `s` is `f`'s lower-case name; any other string fails, `"Sin"` included |
| `Ast.FunctionNameInjective` | cranelift-equation-parser/src/ast.rs:142-168 | The 22 names are pairwise distinct, so distinct accepted names give distinct functions |
| `Ast.LexiconDisjoint` | cranelift-equation-parser/src/lib.rs:24-83 | Operator glyphs, bracket glyphs, `' '`/`,`/`|`, and digits/points/letters are pairwise disjoint, so the dispatch order never shadows a token kind |
| `Printer.OperatorGlyph` | cranelift-equation-parser/src/lib.rs:173-179 | The glyph printed for an operator parses back to that operator |
| `Printer.ParenthesisGlyph` | cranelift-equation-parser/src/lib.rs:180-187 | The glyph printed for a bracket parses back to that bracket |
| `Printer.OperatorTableExact` | cranelift-equation-parser/src/ast.rs:64-73 | `try_from(c) == Ok(op)` holds exactly when `c` is `op`'s printed glyph, so the five glyphs give five distinct operators |
| `Printer.ParenthesisTableExact` | cranelift-equation-parser/src/ast.rs:95-105 | `try_from(c) == Ok(p)` holds exactly when `c` is `p`'s printed glyph, so the six glyphs give six distinct variants |
| `Tokenizer.RunEnd` | cranelift-equation-parser/src/lib.rs:24-44 | The run from `i` is maximal: every character before its end is of the class, and the character at its end (if any) is not |
| `Tokenizer.FirstParse` | cranelift-equation-parser/src/lib.rs:18-103 | Always returns `Ok`, and the tokens are exactly the run-by-run reference tokenization of the whole equation |
| `Tokenizer.ReadChar` | cranelift-equation-parser/src/lib.rs:23-84 | One loop step keeps the scan invariant: the tokens emitted so far, followed by the reference tokenization from the open run's start (or from the next character), are the tokenization of the whole equation |
| `Tokenizer.ReadRunChar` | cranelift-equation-parser/src/lib.rs:24-44 | A digit, point or letter extends an open run of its class; otherwise it closes the open run of the other class (a letter run as an identifier, a digit run as a literal) and opens a run of its own; the scan invariant holds afterwards |
| `Tokenizer.CloseBeforeSingle` | cranelift-equation-parser/src/lib.rs:45-60 | Any other character closes the open run: a digit run as a literal, a letter run as a function name before `(` and as an identifier otherwise; no run is open afterwards |
| `Tokenizer.SingleTokenTable` | cranelift-equation-parser/src/lib.rs:62-83 | A single character yields `Comma` exactly for `,`, `Abs` exactly for `|`, a bracket or operator token exactly for that token's printed glyph, and no token exactly when it is none of these thirteen glyphs |
| `Tokenizer.ReadSingleChar` | cranelift-equation-parser/src/lib.rs:62-83 | The single-character arms give `Comma` exactly for `,`, `Abs` exactly for `|`, a bracket or operator token exactly for its glyph, and nothing for every other character, a space included |
| `Tokenizer.ReadOtherChar` | cranelift-equation-parser/src/lib.rs:45-83 | Closing the run and then reading the character keeps the scan invariant, with no run open |
| `Tokenizer.ScanComplete` | cranelift-equation-parser/src/lib.rs:86-100 | At the end of the input, the emitted tokens plus the open run closed at the end of the text (a literal for a digit run, an identifier for a letter run) are the whole tokenization |
| `Tokenizer.LexBounds` | cranelift-equation-parser/src/lib.rs:21-100 | Every span satisfies `start < end <= |equation|` |
| `Tokenizer.LexMaximalRuns` | cranelift-equation-parser/src/lib.rs:24-100 | Every literal span is all digits/points and every identifier/function span is all letters. Each span is maximal on both sides. A letter run is `Function` exactly when `(` follows it, so a run ended by a digit or by end of input is `ValueIdent` |
| `Tokenizer.LexOrdered` | cranelift-equation-parser/src/lib.rs:21-100 | Spans appear in source order without overlap: an earlier span ends at or before a later span starts |
| `Tokenizer.LexFunctionThenOpen` | cranelift-equation-parser/src/lib.rs:51-78 | Every `Function` token is immediately followed by `Parenthesis(Open)` |
| `Tokenizer.LexPunctuation` | cranelift-equation-parser/src/lib.rs:62-83 | The non-span tokens are exactly one token per `,`, `|`, bracket glyph and operator character, in source order. Spaces and unrecognised characters yield none |
| `Tokenizer.LexCoverage` | cranelift-equation-parser/src/lib.rs:24-44 | The span lengths add up to the number of digits, points and letters, so the spans cover exactly those characters |
| `Tokenizer.TokenizeWellFormed` | cranelift-equation-parser/src/lib.rs:18-103 | For a whole equation: spans are maximal in-bounds runs, ordered and disjoint, and each function name is followed by `(` |
| `Tokenizer.SeparatorsEndRuns` | cranelift-equation-parser/src/lib.rs:45-63 | A space and an unrecognised `$` both end a run without producing a token or an error: `a b` and `a$b` give two identifiers, `ab` gives one |
| `Resolver.InsertsMul` | cranelift-equation-parser/src/lib.rs:116-134 | Read positively, the look-behind match inserts `Mul` before token `i` exactly when: `i > 0`; token `i-1` is a literal or identifier; token `i` is a literal, identifier, function or opening bracket; and (as written) `i` is not the last index |
| `Resolver.SecondParse` | cranelift-equation-parser/src/lib.rs:105-161 | Returns exactly `Resolve` of the tokens under the rule as written: the resolved tokens with the inserted multiplications, or the first error |
| `Resolver.ResolveFailure` | cranelift-equation-parser/src/lib.rs:136-155 | Resolution succeeds exactly when every raw token resolves. On failure, the error (`LiteralParseError` or `UnknownFunction`) comes from the first token that does not resolve, and no partial output is returned |
| `Resolver.ResolveLayout` | cranelift-equation-parser/src/lib.rs:114-158 | On success, output length = input length + number of insertions. Raw token `k` resolves, in order, to the element at its position, with `Mul` just before it when one is inserted |
| `Resolver.TokenizeSpansWithin` | cranelift-equation-parser/src/lib.rs:138-150 | Every span the tokenizer produces can be sliced out of the equation, so the resolver's slicing never panics on tokenizer output |
| `Resolver.ResolvedIdentifiersAlphabetic` | cranelift-equation-parser/src/lib.rs:143-145 | After both stages, every identifier is a non-empty string of letters (that it is the slice of its span is stated by `ResolveLayout`) |
| `Resolver.ResolveTwoX` | cranelift-equation-parser/src/lib.rs:116-134 | The tokens of `2x` resolve to `[2, x]` under the rule as written and to `[2, Mul, x]` under the corrected rule |
| `Resolver.ResolveTwoXPlusOne` | cranelift-equation-parser/src/lib.rs:116-134 | The tokens of `2x+1` resolve to `[2, Mul, x, Add, 1]` under the rule as written |
| `Resolver.ResolveTwoTimesX` | cranelift-equation-parser/src/lib.rs:116-134 | The tokens of `2*x` resolve to `[2, Mul, x]` under the corrected rule: nothing is inserted next to an explicit operator |
| `Resolver.SkipBeforeLastDropsFinalProduct` | cranelift-equation-parser/src/lib.rs:129-133 | As written, `2x` resolves to `[2, x]` with no `Mul`, but `2x+1` resolves to `[2, Mul, x, Add, 1]` |
| `Resolver.AllPairsAppendStable` | cranelift-equation-parser/src/lib.rs:116-134 | Under the corrected rule, appending tokens never changes how the earlier ones resolve: a successful resolution of `a + b` starts with that of `a` |
| `Resolver.AllPairsJuxtapositionIsProduct` | cranelift-equation-parser/src/lib.rs:116-134 | Under the corrected rule, `2x` resolves exactly as `2*x` does, to `[2, Mul, x]` |

## Left out

- `parse` (lib.rs:7-16) is left out. It is glue: it unwraps the two stages, debug-prints and writes to standard output.
- `print` (lib.rs:168-194) is left out except for its operator and bracket glyphs. Writing to standard output, the `Debug` form of function names, and the `Display` form of literal values are not modelled.
- `third_parse` and the types `Entity`, `Operation` and `Function` of the third stage are left out: the function is empty and the types are never built. There is no precedence parsing, arity check or bracket matching to model.
- `examples/test.rs` is left out: it only reads a line from standard input and calls `parse`.
- `T::from_str_radix(.., 10)` is a parameter `parseLit`, not a model. It is a foreign call with IEEE semantics, so which literal texts convert, and to what value, is not modelled.
- `char::is_numeric` and `char::is_alphabetic` are modelled for ASCII only. Non-ASCII digits and letters count as unrecognised characters here, although the code would put them into runs. The difference between character indices and byte offsets on non-ASCII text is also not modelled.
- `SecondParse` requires every span to lie within the text. The code would panic on a span outside it. `TokenizeSpansWithin` proves that tokenizer output always meets this requirement.
- Indices are unbounded naturals. The `usize` width of the code is not modelled. `ast.len() - 1` is only evaluated when the token list is non-empty, so it cannot wrap around.

## Findings

| source | as written | input that shows it | evidently intended | confidence | as-written member | corrected member |
|---|---|---|---|---|---|---|
| cranelift-equation-parser/src/lib.rs:129-133 | `index != ast.len() - 1` blocks the implicit `Mul` before the last token, although the `Mul` goes before the current token, not after it | `2x` resolves to `[2, x]`, but `2x+1` resolves to `[2, Mul, x, Add, 1]` | a product between juxtaposed operands wherever they appear, so `2x` resolves as `2*x` | medium; not executed | `Resolver.SkipBeforeLastDropsFinalProduct` | `Resolver.AllPairsAppendStable` |

`SecondParse` keeps the rule as written (`SkipBeforeLast`). `AllPairs` is the corrected rule.
`ResolveFailure`, `ResolveLayout` and `ResolvedIdentifiersAlphabetic` are proved for both
rules. `AllPairsJuxtapositionIsProduct` shows that the corrected rule resolves `2x` and `2*x`
identically.
