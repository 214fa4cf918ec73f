/// The tokenizer of the typed front end (tokenizer.c). Compared with the
/// statement compiler it adds `{ } , &`, the keyword `while`, the type
/// keyword `int`, and records for each token its position in the input and
/// a copy of its text.

module CLex {
  import opened Util

  /** `TK_SIZEOF` is read by the expression parser but never produced by
      this tokenizer. */
  datatype TokenKind = Reserved | Ident | Number | Eof | Return | If | Else | For | While | TypeName | Sizeof

  /** A token: kind, value (numbers), text, length and position (offset of
      its first character in the input). */
  datatype Token = Token(kind: TokenKind, val: int, text: seq<char>, len: nat, pos: nat)

  /** The character set of the one-character branch (`strchr` on the
      operator string): plus, minus, star, slash, parentheses, comparison
      signs, `=`, `;`, braces, comma and `&`. */
  predicate IsPunct(c: char) { c in "+-*/()><=;{},&" }

  predicate IsTwoCharOp(s: seq<char>) {
    StartsWith(s, ">=") || StartsWith(s, "<=") || StartsWith(s, "==") || StartsWith(s, "!=")
  }

  /** `s` starts with `w` and the character after it (or the terminating
      NUL) is not alphanumeric. */
  predicate KeywordAt(s: seq<char>, w: seq<char>) {
    StartsWith(s, w) && !AlnumAt(s, |w|)
  }

  /** `t` is a token other than the last one, its text is the input at its
      position, and only operator tokens start with something other than a
      letter, digit or `_`; numbers are never negative. */
  predicate Spans(input: seq<char>, t: Token) {
    && t.kind != Eof && 1 <= t.len && t.pos + t.len <= |input| && t.text == input[t.pos..t.pos + t.len]
    && (t.kind != Reserved ==> IsAlnum(t.text[0]))
    && (t.kind == Number ==> t.val >= 0)
  }

  /** `new_token`: a token of `kind` for the `len` characters at `p`, which
      records `p` and copies the text. */
  function NewToken(kind: TokenKind, input: seq<char>, p: nat, len: nat): (t: Token)
    requires p + len <= |input|
    ensures t.kind == kind && t.pos == p && t.len == len && t.text == input[p..p + len]
  {
    Token(kind, 0, input[p..p + len], len, p)
  }

  /** The final token: `new_token(TK_EOF, cur, p, 1)` at the end of the
      input, whose one copied character is the terminating NUL. */
  function EofAt(input: seq<char>): Token {
    Token(Eof, 0, [], 1, |input|)
  }

  /** The token the `tokenize` loop makes at `p`, a non-space character,
      trying its branches in order; `None` when none applies. */
  function Lexeme(input: seq<char>, p: nat): (r: Option<Token>)
    requires p < |input|
    ensures r.Some? ==> r.value.pos == p && Spans(input, r.value)
  {
    var s := input[p..];
    if IsTwoCharOp(s) then Some(NewToken(Reserved, input, p, 2))
    else if IsPunct(s[0]) then Some(NewToken(Reserved, input, p, 1))
    else if IsDigit(s[0]) then
      var n := DigitRun(s);
      assert s[..n] == input[p..p + n];
      Some(NewToken(Number, input, p, n).(val := DecimalValue(s[..n])))
    else Word(input, p)
  }

  /** The keyword and identifier branches. */
  function Word(input: seq<char>, p: nat): (r: Option<Token>)
    requires p < |input|
    ensures r.Some? ==> r.value.pos == p && Spans(input, r.value)
    ensures r.Some? <==> IsAlpha(input[p])
  {
    var s := input[p..];
    if KeywordAt(s, "return") then Some(NewToken(Return, input, p, 6))
    else if KeywordAt(s, "if") then Some(NewToken(If, input, p, 2))
    else if KeywordAt(s, "else") then Some(NewToken(Else, input, p, 4))
    else if KeywordAt(s, "for") then Some(NewToken(For, input, p, 3))
    else if KeywordAt(s, "while") then Some(NewToken(While, input, p, 5))
    else if KeywordAt(s, "int") then Some(NewToken(TypeName, input, p, 3))
    else if IsAlpha(s[0]) then Some(NewToken(Ident, input, p, AlnumRun(s)))
    else None
  }

  const CannotTokenize := "cannot tokenize"

  /** What the first character decides: a two-character operator or one of
      the operator characters makes a symbol of that length, a digit a
      number spanning the digit run, a letter a keyword or an identifier;
      any other character starts no token. */
  lemma LexemeKinds(input: seq<char>, p: nat)
    requires p < |input|
    ensures var r := Lexeme(input, p);
      && (r.None? <==>
            !IsTwoCharOp(input[p..]) && !IsPunct(input[p]) && !IsDigit(input[p]) && !IsAlpha(input[p]))
      && (IsTwoCharOp(input[p..]) ==> r.Some? && r.value.kind == Reserved && r.value.len == 2)
      && (IsPunct(input[p]) && !IsTwoCharOp(input[p..]) ==>
            r.Some? && r.value.kind == Reserved && r.value.len == 1)
      && (IsDigit(input[p]) ==> r.Some? && r.value.kind == Number && r.value.len == DigitRun(input[p..]))
      && (IsAlpha(input[p]) ==> r.Some? && r.value.kind in {Return, If, Else, For, While, TypeName, Ident})
  {
    assert input[p..][0] == input[p];
  }

  /** The tokens `tokenize` makes from position `p` on: spaces are skipped,
      every other character starts a token or is an error, and the list ends
      with the end-of-input token. */
  function Lex(input: seq<char>, p: nat): (r: Result<seq<Token>>)
    requires p <= |input|
    decreases |input| - p
  {
    if p == |input| then Ok([EofAt(input)])
    else if IsSpace(input[p]) then Lex(input, p + 1)
    else match Lexeme(input, p)
      case None => Err(CannotTokenize)
      case Some(t) =>
        match Lex(input, p + t.len)
        case Err(m) => Err(m)
        case Ok(ts) => Ok([t] + ts)
  }

  /** The shape `tokenize` promises of every token list it returns: each
      token's text is the input at its position, positions strictly increase
      from `p`, and exactly the last token is the end-of-input token at the
      end of the input. */
  predicate WellLexed(input: seq<char>, p: nat, ts: seq<Token>) {
    && |ts| > 0 && ts[|ts| - 1] == EofAt(input)
    && (forall k :: 0 <= k < |ts| - 1 ==> p <= ts[k].pos && Spans(input, ts[k]))
    && (forall k :: 0 <= k < |ts| - 1 ==> ts[k].pos + ts[k].len <= ts[k + 1].pos)
    && (|ts| > 1 ==> p <= ts[0].pos)
  }

  lemma {:induction false} LexWellLexed(input: seq<char>, p: nat)
    requires p <= |input| && Lex(input, p).Ok?
    ensures WellLexed(input, p, Lex(input, p).value)
    decreases |input| - p, 1
  {
    if p == |input| {
    } else if IsSpace(input[p]) {
      SpaceWellLexed(input, p);
    } else {
      TokenWellLexed(input, p);
    }
  }

  lemma {:induction false} SpaceWellLexed(input: seq<char>, p: nat)
    requires p < |input| && IsSpace(input[p]) && Lex(input, p).Ok?
    ensures WellLexed(input, p, Lex(input, p).value)
    decreases |input| - p, 0
  {
    assert Lex(input, p) == Lex(input, p + 1);
    LexWellLexed(input, p + 1);
    WellLexedFrom(input, p, p + 1, Lex(input, p + 1).value);
  }

  lemma {:induction false} TokenWellLexed(input: seq<char>, p: nat)
    requires p < |input| && !IsSpace(input[p]) && Lex(input, p).Ok?
    ensures WellLexed(input, p, Lex(input, p).value)
    decreases |input| - p, 0
  {
    LexCons(input, p);
    var t := Lexeme(input, p).value;
    LexWellLexed(input, p + t.len);
    WellLexedCons(input, p, t, Lex(input, p + t.len).value);
  }

  /** One token step of a successful `Lex`. */
  lemma LexCons(input: seq<char>, p: nat)
    requires p < |input| && !IsSpace(input[p]) && Lex(input, p).Ok?
    ensures Lexeme(input, p).Some?
    ensures var t := Lexeme(input, p).value;
      Lex(input, p + t.len).Ok? && Lex(input, p).value == [t] + Lex(input, p + t.len).value
  {
  }

  lemma WellLexedFrom(input: seq<char>, p: nat, q: nat, ts: seq<Token>)
    requires p <= q && WellLexed(input, q, ts)
    ensures WellLexed(input, p, ts)
  {
  }

  lemma WellLexedCons(input: seq<char>, p: nat, t: Token, ts: seq<Token>)
    requires t.pos == p && Spans(input, t)
    requires WellLexed(input, p + t.len, ts)
    ensures WellLexed(input, p, [t] + ts)
  {
    var ts' := [t] + ts;
    assert forall k :: 1 <= k < |ts'| ==> ts'[k] == ts[k - 1];
    if |ts| > 1 {
      assert ts'[1] == ts[0];
    } else {
      assert ts'[1] == EofAt(input);
    }
  }

  /** The positions the `tokenize` loop, started at `q`, arrives at: `q`
      itself, and from there the next character after a space or the first
      one after a token it makes. */
  predicate Reaches(input: seq<char>, q: nat, p: nat)
    decreases |input| - q
  {
    || q == p
    || (&& q < p && q < |input|
        && if IsSpace(input[q]) then Reaches(input, q + 1, p)
           else Lexeme(input, q).Some? && Reaches(input, q + Lexeme(input, q).value.len, p))
  }

  /** A position the loop arrives at, holding a character no branch
      accepts, stops tokenizing with an error, whatever came before it. */
  lemma {:induction false} StrayCharacter(input: seq<char>, q: nat, p: nat)
    requires Reaches(input, q, p) && p < |input| && !IsSpace(input[p]) && Lexeme(input, p).None?
    ensures Lex(input, q) == Err(CannotTokenize)
    decreases |input| - q
  {
    if q != p {
      if IsSpace(input[q]) {
        StrayCharacter(input, q + 1, p);
      } else {
        StrayCharacter(input, q + Lexeme(input, q).value.len, p);
      }
    }
  }

  /** Conversely, tokenizing fails only at such a position. */
  lemma {:induction false} FailureHasStray(input: seq<char>, q: nat)
    requires q <= |input| && Lex(input, q).Err?
    ensures exists p: nat :: Reaches(input, q, p) && p < |input| && !IsSpace(input[p]) && Lexeme(input, p).None?
    decreases |input| - q
  {
    if IsSpace(input[q]) {
      FailureHasStray(input, q + 1);
      var p: nat :| Reaches(input, q + 1, p) && p < |input| && !IsSpace(input[p]) && Lexeme(input, p).None?;
      assert Reaches(input, q, p);
    } else if Lexeme(input, q).None? {
      assert Reaches(input, q, q);
    } else {
      var n := q + Lexeme(input, q).value.len;
      FailureHasStray(input, n);
      var p: nat :| Reaches(input, n, p) && p < |input| && !IsSpace(input[p]) && Lexeme(input, p).None?;
      assert Reaches(input, q, p);
    }
  }

  /** Spaces before `q` do not change the result. */
  lemma {:induction false} SkipSpaces(input: seq<char>, p: nat, q: nat)
    requires p <= q <= |input|
    requires forall k :: p <= k < q ==> IsSpace(input[k])
    ensures Lex(input, p) == Lex(input, q)
    decreases q - p
  {
    if p < q {
      SkipSpaces(input, p + 1, q);
    }
  }

  /** The keywords in the order the tokenizer tries them, each with the
      kind of token it makes. */
  const Keywords: seq<(string, TokenKind)> :=
    [("return", Return), ("if", If), ("else", Else), ("for", For), ("while", While), ("int", TypeName)]

  /** The keyword branch needs a non-alphanumeric character after the word:
      `iffy` and `int3` are identifiers, `if(` and `int x` start with the
      keyword. */
  lemma KeywordBoundary(input: seq<char>, p: nat, k: nat)
    requires p < |input| && k < |Keywords| && StartsWith(input[p..], Keywords[k].0)
    ensures Lexeme(input, p).Some?
    ensures AlnumAt(input[p..], |Keywords[k].0|) ==>
      Lexeme(input, p).value.kind == Ident && Lexeme(input, p).value.len == AlnumRun(input[p..])
    ensures !AlnumAt(input[p..], |Keywords[k].0|) ==>
      Lexeme(input, p).value.kind == Keywords[k].1 && Lexeme(input, p).value.len == |Keywords[k].0|
  {
    var s := input[p..];
    var w := Keywords[k].0;
    assert s[..|w|][0] == s[0];
    LetterStartsWord(input, p);
    KeywordWord(input, p, k);
  }

  /** The word branches on a keyword's spelling. */
  lemma KeywordWord(input: seq<char>, p: nat, k: nat)
    requires p < |input| && k < |Keywords| && StartsWith(input[p..], Keywords[k].0)
    ensures Word(input, p).Some?
    ensures AlnumAt(input[p..], |Keywords[k].0|) ==>
      Word(input, p).value.kind == Ident && Word(input, p).value.len == AlnumRun(input[p..])
    ensures !AlnumAt(input[p..], |Keywords[k].0|) ==>
      Word(input, p).value.kind == Keywords[k].1 && Word(input, p).value.len == |Keywords[k].0|
  {
    var s := input[p..];
    var w := Keywords[k].0;
    assert s[..|w|][0] == s[0];
    if k == 1 {
      KeywordsDiffer(s, w, "return", 0);
      KeywordsDiffer(s, w, "int", 1);
    } else if k == 2 {
      KeywordsDiffer(s, w, "return", 0);
      KeywordsDiffer(s, w, "if", 0);
    } else if k == 3 {
      KeywordsDiffer(s, w, "return", 0);
      KeywordsDiffer(s, w, "if", 0);
      KeywordsDiffer(s, w, "else", 0);
    } else if k == 4 {
      KeywordsDiffer(s, w, "return", 0);
      KeywordsDiffer(s, w, "if", 0);
      KeywordsDiffer(s, w, "else", 0);
      KeywordsDiffer(s, w, "for", 0);
    } else if k == 5 {
      KeywordsDiffer(s, w, "return", 0);
      KeywordsDiffer(s, w, "if", 1);
      KeywordsDiffer(s, w, "else", 0);
      KeywordsDiffer(s, w, "for", 0);
      KeywordsDiffer(s, w, "while", 0);
    }
  }

  /** A letter starts no operator or number: the word branches decide. */
  lemma LetterStartsWord(input: seq<char>, p: nat)
    requires p < |input| && IsAlpha(input[p])
    ensures Lexeme(input, p) == Word(input, p)
  {
    var s := input[p..];
    if |s| >= 2 {
      assert s[..2][0] == s[0];
    }
  }

  /** Text that begins with `w` does not begin with a word that differs
      from `w` at `i`. */
  lemma KeywordsDiffer(s: seq<char>, w: seq<char>, v: seq<char>, i: nat)
    requires StartsWith(s, w) && i < |w| && i < |v| && w[i] != v[i]
    ensures !StartsWith(s, v)
  {
    assert s[..|w|][i] == s[i];
    if |v| <= |s| {
      assert s[..|v|][i] == s[i];
    }
  }

  /** A number token spans the whole digit run at `p` (as long as
      possible, by `DigitRun`) and its value is the run's decimal value. */
  lemma NumberToken(input: seq<char>, p: nat)
    requires p < |input| && IsDigit(input[p])
    ensures var t := Lexeme(input, p).value;
      && t.kind == Number && t.len == DigitRun(input[p..])
      && t.val == DecimalValue(input[p..][..t.len])
  {
    var s := input[p..];
    assert !IsTwoCharOp(s) && !IsPunct(s[0]);
  }

  /** `tokenize`: walks the input with `p`, appending each token to the
      list, and finishes with the end-of-input token. */
  method Tokenize(input: seq<char>) returns (r: Result<seq<Token>>)
    ensures r == Lex(input, 0)
  {
    var p := 0;
    var out: seq<Token> := [];
    if Lex(input, 0).Ok? {
      assert out + Lex(input, 0).value == Lex(input, 0).value;
    }
    while p < |input|
      invariant 0 <= p <= |input|
      invariant Lex(input, 0) == Prepend(out, Lex(input, p))
      decreases |input| - p
    {
      if IsSpace(input[p]) {
        p := p + 1;
        continue;
      }
      var t := Lexeme(input, p);
      if t.None? {
        return Err(CannotTokenize);
      }
      PrependStep(out, t.value, Lex(input, p + t.value.len));
      out := out + [t.value];
      p := p + t.value.len;
    }
    out := out + [EofAt(input)];
    return Ok(out);
  }

  function Prepend(ts: seq<Token>, r: Result<seq<Token>>): Result<seq<Token>> {
    if r.Ok? then Ok(ts + r.value) else r
  }

  lemma PrependStep(ts: seq<Token>, t: Token, r: Result<seq<Token>>)
    ensures Prepend(ts, if r.Ok? then Ok([t] + r.value) else r) == Prepend(ts + [t], r)
  {
    if r.Ok? {
      assert ts + ([t] + r.value) == (ts + [t]) + r.value;
    }
  }
}
