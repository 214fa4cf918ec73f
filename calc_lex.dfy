/// Tokenizer of the calculator compiler (tinycc.c): blanks are skipped,
/// `>= <= == !=` are read before the one-character symbols `+-*/()><`, and a
/// run of digits becomes one number token.

module CalcLex {
  import opened Util

  datatype TokenKind = Reserved | Number | Eof

  /** A token. As in the source, `str` points into the input at the token's
      first character (it is the rest of the input from there), and the
      token's own text is `str[..len]`; `val` is 0 except for numbers. */
  datatype Token = Token(kind: TokenKind, val: int, str: seq<char>, len: nat)

  /** The token the tokenizer appends once the input is used up. */
  function EofToken(): Token { Token(Eof, 0, [], 1) }

  predicate IsBlank(c: char) { c == '\t' || c == ' ' }

  predicate IsTwoCharOp(s: seq<char>) {
    StartsWith(s, ">=") || StartsWith(s, "<=") || StartsWith(s, "==") || StartsWith(s, "!=")
  }

  predicate IsOneCharOp(c: char) { c in "+-*/()><" }

  /** Prefixes the tokens `ts` to a successful result; an error is kept. */
  function Prepend(ts: seq<Token>, r: Result<seq<Token>>): Result<seq<Token>> {
    if r.Ok? then Ok(ts + r.value) else r
  }

  /** The tokens of the rest `s` of the input, one case per branch of the
      tokenizer loop. */
  function Lex(s: seq<char>): Result<seq<Token>>
    decreases |s|
  {
    if |s| == 0 then Ok([EofToken()])
    else if IsBlank(s[0]) then Lex(s[1..])
    else if IsTwoCharOp(s) then Prepend([Token(Reserved, 0, s, 2)], Lex(s[2..]))
    else if IsOneCharOp(s[0]) then Prepend([Token(Reserved, 0, s, 1)], Lex(s[1..]))
    else if IsDigit(s[0]) then
      var n := DigitRun(s);
      Prepend([Token(Number, DecimalValue(s[..n]), s, n)], Lex(s[n..]))
    else Err("cannot tokenize")
  }

  /** The `tokenize` loop: advances `p` through the input and appends one
      token per recognised lexeme, then the end-of-input token. */
  method Tokenize(input: seq<char>) returns (r: Result<seq<Token>>)
    ensures r == Lex(input)
  {
    var p := 0;
    var toks: seq<Token> := [];
    assert input[p..] == input;
    if Lex(input).Ok? { assert toks + Lex(input).value == Lex(input).value; }
    assert LexedUpTo(input, p, toks);
    while p < |input|
      invariant 0 <= p <= |input|
      invariant LexedUpTo(input, p, toks)
      decreases |input| - p
    {
      var q, t, ok := Advance(input, p, toks);
      if !ok {
        return Err("cannot tokenize");
      }
      toks := toks + Seq(t);
      p := q;
    }
    assert input[p..] == [];
    toks := toks + [EofToken()];
    return Ok(toks);
  }

  /** One turn of the `tokenize` loop: a blank is skipped, anything else
      becomes a token or stops the loop with an error. */
  method Advance(input: seq<char>, p: nat, ghost toks: seq<Token>) returns (q: nat, t: Option<Token>, ok: bool)
    requires p < |input| && LexedUpTo(input, p, toks)
    ensures ok ==> p < q <= |input| && LexedUpTo(input, q, toks + Seq(t))
    ensures !ok ==> Lex(input) == Err("cannot tokenize")
  {
    var rest := input[p..];
    if IsBlank(rest[0]) {
      q, t, ok := p + 1, None, true;
      BlankStep(input, p, toks, q, t);
      return;
    }
    var tok: Token;
    if IsTwoCharOp(rest) {
      tok := Token(Reserved, 0, rest, 2);
    } else if IsOneCharOp(rest[0]) {
      tok := Token(Reserved, 0, rest, 1);
    } else if IsDigit(rest[0]) {
      var len := DigitRun(rest);
      var val := DecimalValue(rest[..len]);
      tok := Token(Number, val, rest, len);
    } else {
      q, t, ok := p, None, false;
      StuckStep(input, p, toks);
      return;
    }
    q, t, ok := p + tok.len, Some(tok), true;
    TokenStep(input, p, toks, q, t);
  }

  /** The loop invariant of `tokenize`: the tokens read so far followed by
      the tokens of the rest are the tokens of the whole input. */
  predicate LexedUpTo(input: seq<char>, p: nat, toks: seq<Token>)
    requires p <= |input|
  {
    Lex(input) == Prepend(toks, Lex(input[p..]))
  }

  /** A loop step over a blank. */
  lemma BlankStep(input: seq<char>, p: nat, toks: seq<Token>, q: nat, t: Option<Token>)
    requires p < |input| && IsBlank(input[p]) && q == p + 1 && t.None?
    requires LexedUpTo(input, p, toks)
    ensures LexedUpTo(input, q, toks + Seq(t))
  {
    assert input[p..][1..] == input[q..];
    assert toks + Seq(t) == toks;
  }

  /** A loop step at a character no branch accepts. */
  lemma StuckStep(input: seq<char>, p: nat, toks: seq<Token>)
    requires p < |input| && !IsBlank(input[p])
    requires !IsTwoCharOp(input[p..]) && !IsOneCharOp(input[p]) && !IsDigit(input[p])
    requires LexedUpTo(input, p, toks)
    ensures Lex(input) == Err("cannot tokenize")
  {
  }

  /** One loop step: the token read at `p` moves from the tokens still to
      come to the tokens already read. */
  lemma TokenStep(input: seq<char>, p: nat, toks: seq<Token>, q: nat, t: Option<Token>)
    requires p < |input| && !IsBlank(input[p])
    requires IsTwoCharOp(input[p..]) || IsOneCharOp(input[p]) || IsDigit(input[p])
    requires t == Some(LexemeToken(input[p..])) && q == p + t.value.len
    requires LexedUpTo(input, p, toks)
    ensures p < q <= |input|
    ensures LexedUpTo(input, q, toks + Seq(t))
  {
    var rest := input[p..];
    var u := t.value;
    assert rest[u.len..] == input[q..];
    assert Lex(rest) == Prepend([u], Lex(input[q..]));
    assert toks + Seq(t) == toks + [u];
    PrependAssoc(toks, [u], Lex(input[q..]));
  }

  lemma PrependAssoc(a: seq<Token>, b: seq<Token>, r: Result<seq<Token>>)
    ensures Prepend(a + b, r) == Prepend(a, Prepend(b, r))
  {
    if r.Ok? { assert (a + b) + r.value == a + (b + r.value); }
  }

  /** A token other than the end marker, as the tokenizer builds it: its text
      is a two-character operator, or a one-character symbol where no
      two-character operator starts, or a maximal run of digits whose decimal
      value is `val`. */
  predicate WellFormed(t: Token) {
    1 <= t.len <= |t.str| &&
    match t.kind
    case Reserved =>
      (t.len == 2 && IsTwoCharOp(t.str)) ||
      (t.len == 1 && IsOneCharOp(t.str[0]) && !IsTwoCharOp(t.str))
    case Number =>
      (forall k :: 0 <= k < t.len ==> IsDigit(t.str[k])) &&
      t.val == DecimalValue(t.str[..t.len]) &&
      (t.len == |t.str| || !IsDigit(t.str[t.len]))
    case Eof => false
  }

  predicate IsSuffix(a: seq<char>, s: seq<char>) {
    |a| <= |s| && s[|s| - |a|..] == a
  }

  /** The input without its blanks. */
  function Unblank(s: seq<char>): seq<char> {
    if |s| == 0 then [] else (if IsBlank(s[0]) then [] else [s[0]]) + Unblank(s[1..])
  }

  /** The concatenated texts of a token sequence. */
  function Texts(ts: seq<Token>): seq<char>
    requires forall i :: 0 <= i < |ts| ==> ts[i].len <= |ts[i].str|
  {
    if |ts| == 0 then [] else ts[0].str[..ts[0].len] + Texts(ts[1..])
  }

  /** Length of the lexeme that starts the non-blank input `s`. */
  function LexemeLen(s: seq<char>): nat
    requires |s| > 0
  {
    if IsTwoCharOp(s) then 2 else if IsOneCharOp(s[0]) then 1 else DigitRun(s)
  }

  /** The token `Lex` makes of the lexeme that starts `s`. */
  function LexemeToken(s: seq<char>): Token
    requires |s| > 0
  {
    if IsTwoCharOp(s) then Token(Reserved, 0, s, 2)
    else if IsOneCharOp(s[0]) then Token(Reserved, 0, s, 1)
    else Token(Number, DecimalValue(s[..DigitRun(s)]), s, DigitRun(s))
  }

  /** One step of a successful `Lex` on input that starts with a non-blank. */
  lemma LexUnfold(s: seq<char>)
    requires |s| > 0 && !IsBlank(s[0]) && Lex(s).Ok?
    ensures IsTwoCharOp(s) || IsOneCharOp(s[0]) || IsDigit(s[0])
    ensures 0 < LexemeLen(s) <= |s|
    ensures Lex(s[LexemeLen(s)..]).Ok?
    ensures Lex(s).value == [LexemeToken(s)] + Lex(s[LexemeLen(s)..]).value
  {
  }

  /** Every token list the tokenizer returns ends in exactly one end marker. */
  lemma {:induction false} LexEndsWithEof(s: seq<char>)
    requires Lex(s).Ok?
    ensures var ts := Lex(s).value;
      && |ts| > 0 && ts[|ts| - 1] == EofToken()
      && (forall i :: 0 <= i < |ts| - 1 ==> ts[i].kind != Eof)
    decreases |s|
  {
    if |s| == 0 {
    } else if IsBlank(s[0]) {
      LexEndsWithEof(s[1..]);
    } else {
      LexUnfold(s);
      LexEndsWithEof(s[LexemeLen(s)..]);
    }
  }

  /** Every token before the end marker is well formed. */
  lemma {:induction false} LexWellFormed(s: seq<char>)
    requires Lex(s).Ok?
    ensures var ts := Lex(s).value;
      forall i :: 0 <= i < |ts| - 1 ==> WellFormed(ts[i])
    decreases |s|
  {
    if |s| == 0 {
    } else if IsBlank(s[0]) {
      LexWellFormed(s[1..]);
    } else {
      LexUnfold(s);
      var n := LexemeLen(s);
      LexWellFormed(s[n..]);
      var ts := Lex(s).value;
      assert WellFormed(LexemeToken(s));
      forall i | 0 <= i < |ts| - 1 ensures WellFormed(ts[i]) {
        if i > 0 { assert ts[i] == Lex(s[n..]).value[i - 1]; }
      }
    }
  }

  /** Token positions: every token's `str` is a suffix of the input, and each
      token starts after the whole text of the one before it. */
  lemma {:induction false} LexPositions(s: seq<char>)
    requires Lex(s).Ok?
    ensures var ts := Lex(s).value;
      && (forall i :: 0 <= i < |ts| ==> IsSuffix(ts[i].str, s))
      && (forall i :: 0 <= i < |ts| - 1 ==> |ts[i + 1].str| + ts[i].len <= |ts[i].str|)
    decreases |s|
  {
    if |s| == 0 {
    } else if IsBlank(s[0]) {
      LexPositions(s[1..]);
      forall a | IsSuffix(a, s[1..]) ensures IsSuffix(a, s) { SuffixTrans(a, s[1..], s); }
    } else {
      LexUnfold(s);
      var n := LexemeLen(s);
      LexPositions(s[n..]);
      LexEndsWithEof(s[n..]);
      var ts := Lex(s).value;
      var us := Lex(s[n..]).value;
      forall i | 0 <= i < |ts| ensures IsSuffix(ts[i].str, s) {
        if i > 0 { assert ts[i] == us[i - 1]; SuffixTrans(ts[i].str, s[n..], s); }
      }
      assert |ts[1].str| <= |s[n..]| by { assert ts[1] == us[0]; }
      forall i | 0 <= i < |ts| - 1 ensures |ts[i + 1].str| + ts[i].len <= |ts[i].str| {
        if i > 0 { assert ts[i] == us[i - 1] && ts[i + 1] == us[i]; }
      }
    }
  }

  lemma SuffixTrans(a: seq<char>, b: seq<char>, c: seq<char>)
    requires IsSuffix(a, b) && IsSuffix(b, c)
    ensures IsSuffix(a, c)
  {
    assert c[|c| - |a|..] == c[|c| - |b|..][|b| - |a|..];
  }

  /** The tokens cover the input exactly: their texts, in order, spell the
      input with its blanks removed. */
  lemma {:induction false} LexCoversInput(s: seq<char>)
    requires Lex(s).Ok?
    ensures var ts := Lex(s).value;
      && |ts| > 0
      && (forall i :: 0 <= i < |ts| - 1 ==> ts[i].len <= |ts[i].str|)
      && Texts(ts[..|ts| - 1]) == Unblank(s)
    decreases |s|, 1
  {
    if |s| == 0 {
      var ts := Lex(s).value;
      assert ts[..|ts| - 1] == [];
    } else if IsBlank(s[0]) {
      LexCoversInput(s[1..]);
    } else {
      LexCoversLexeme(s);
    }
  }

  /** `LexCoversInput` for an input that starts with a lexeme. */
  lemma {:induction false} LexCoversLexeme(s: seq<char>)
    requires |s| > 0 && !IsBlank(s[0]) && Lex(s).Ok?
    ensures var ts := Lex(s).value;
      && |ts| > 0
      && (forall i :: 0 <= i < |ts| - 1 ==> ts[i].len <= |ts[i].str|)
      && Texts(ts[..|ts| - 1]) == Unblank(s)
    decreases |s|, 0
  {
    LexEndsWithEof(s);
    LexWellFormed(s);
    var ts := Lex(s).value;
    LexUnfold(s);
    var n := LexemeLen(s);
    LexCoversInput(s[n..]);
    var us := Lex(s[n..]).value;
    assert ts[..|ts| - 1] == [ts[0]] + us[..|us| - 1];
    TextsCons(ts[0], us[..|us| - 1]);
    assert ts[0].str[..ts[0].len] == s[..n];
    UnblankNoBlanks(s, n);
  }

  /** The texts of a token sequence begin with the text of its first token. */
  lemma TextsCons(t: Token, us: seq<Token>)
    requires t.len <= |t.str|
    requires forall i :: 0 <= i < |us| ==> us[i].len <= |us[i].str|
    ensures Texts([t] + us) == t.str[..t.len] + Texts(us)
  {
    assert ([t] + us)[1..] == us;
  }

  /** Removing blanks from a prefix without blanks keeps that prefix. */
  lemma {:induction false} UnblankNoBlanks(s: seq<char>, n: nat)
    requires n <= |s|
    requires forall k :: 0 <= k < n ==> !IsBlank(s[k])
    ensures Unblank(s) == s[..n] + Unblank(s[n..])
  {
    if n > 0 {
      UnblankNoBlanks(s[1..], n - 1);
      assert s[1..][n - 1..] == s[n..];
      assert s[..n] == [s[0]] + s[1..][..n - 1];
    }
  }

  /** Characters that may occur in tokenizable input. */
  predicate AcceptedChar(c: char) {
    IsBlank(c) || IsDigit(c) || IsOneCharOp(c) || c == '=' || c == '!'
  }

  /** Tokenizing fails on every character outside blanks, digits and the
      operator characters (and on a lone `=` or `!`). */
  lemma {:induction false} LexAcceptedChars(s: seq<char>)
    requires Lex(s).Ok?
    ensures forall k :: 0 <= k < |s| ==> AcceptedChar(s[k])
    decreases |s|
  {
    if |s| > 0 {
      var n := 1;
      if !IsBlank(s[0]) {
        LexUnfold(s);
        n := LexemeLen(s);
        if IsTwoCharOp(s) {
          assert s[1] == s[..2][1] && s[0] == s[..2][0];
        }
      }
      LexAcceptedChars(s[n..]);
      forall k | n <= k < |s| ensures AcceptedChar(s[k]) {
        assert s[k] == s[n..][k - n];
      }
    }
  }

  /** Conversely, input made only of blanks, digits and the symbols
      + - * / ( ) > < is always tokenized. */
  lemma {:induction false} LexAcceptsPlainChars(s: seq<char>)
    requires forall k :: 0 <= k < |s| ==> IsBlank(s[k]) || IsDigit(s[k]) || IsOneCharOp(s[k])
    ensures Lex(s).Ok?
    decreases |s|
  {
    if |s| > 0 {
      var n := if IsBlank(s[0]) then 1 else LexemeLen(s);
      LexAcceptsPlainChars(s[n..]);
    }
  }
}
