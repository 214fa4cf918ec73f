/// Tokens and local variables of the statement-level compiler (parse.c):
/// besides the calculator's symbols it reads `=` and `;`, the keywords
/// `return`, `if`, `else` and `for`, and identifiers, and every identifier is
/// entered in the list of local variables while the input is tokenized.

module StmtLex {
  import opened Util

  datatype TokenKind = Reserved | Ident | Number | Eof | Return | If | Else | For | While

  /** As in the calculator, `str` is the rest of the input from the token's
      first character and the token's text is `str[..len]`. */
  datatype Token = Token(kind: TokenKind, val: int, str: seq<char>, len: nat)

  /** `AsWritten` follows the C code of `update_locals`; `Corrected` appends
      a new local instead. */
  datatype Dialect = AsWritten | Corrected

  function EofToken(): Token { Token(Eof, 0, [], 1) }

  predicate IsTwoCharOp(s: seq<char>) {
    StartsWith(s, ">=") || StartsWith(s, "<=") || StartsWith(s, "==") || StartsWith(s, "!=")
  }

  predicate IsOneCharOp(c: char) { c in "+-*/()><=;" }

  /** `s` starts with the keyword `w`, and the character after it (or the
      end of the input) is not alphanumeric or `_`. */
  predicate KeywordAt(s: seq<char>, w: seq<char>) {
    StartsWith(s, w) && !AlnumAt(s, |w|)
  }

  /** The token the tokenizer reads at the start of `s`, whose first
      character is not a space, trying each branch in the tokenizer's order;
      `None` when no branch applies. */
  function Lexeme(s: seq<char>): (r: Option<Token>)
    requires |s| > 0
    ensures r.Some? ==> 1 <= r.value.len <= |s| && r.value.str == s && r.value.kind != Eof
  {
    if IsTwoCharOp(s) then Some(Token(Reserved, 0, s, 2))
    else if IsOneCharOp(s[0]) then Some(Token(Reserved, 0, s, 1))
    else if IsDigit(s[0]) then
      var n := DigitRun(s);
      Some(Token(Number, DecimalValue(s[..n]), s, n))
    else Word(s)
  }

  /** The keyword and identifier branches of the tokenizer. */
  function Word(s: seq<char>): (r: Option<Token>)
    requires |s| > 0
    ensures r.Some? ==> 1 <= r.value.len <= |s| && r.value.str == s && r.value.kind != Eof
    ensures r.Some? <==> IsAlpha(s[0])
    ensures r.Some? ==> r.value.kind in {Return, If, Else, For, Ident}
  {
    if KeywordAt(s, "return") then Some(Token(Return, 0, s, 6))
    else if KeywordAt(s, "if") then Some(Token(If, 0, s, 2))
    else if KeywordAt(s, "else") then Some(Token(Else, 0, s, 4))
    else if KeywordAt(s, "for") then Some(Token(For, 0, s, 3))
    else if IsAlpha(s[0]) then Some(Token(Ident, 0, s, AlnumRun(s)))
    else None
  }

  /** What the first character decides: a two-character operator or one of
      the operator characters makes a symbol of that length, a digit a
      number spanning the digit run, a letter a keyword or an identifier;
      any other character starts no token. */
  lemma LexemeKinds(s: seq<char>)
    requires |s| > 0
    ensures Lexeme(s).None? <==> !IsTwoCharOp(s) && !IsOneCharOp(s[0]) && !IsDigit(s[0]) && !IsAlpha(s[0])
    ensures IsTwoCharOp(s) ==> Lexeme(s) == Some(Token(Reserved, 0, s, 2))
    ensures IsOneCharOp(s[0]) && !IsTwoCharOp(s) ==> Lexeme(s) == Some(Token(Reserved, 0, s, 1))
    ensures IsDigit(s[0]) ==> Lexeme(s).Some? && Lexeme(s).value.kind == Number && Lexeme(s).value.len == DigitRun(s)
    ensures IsAlpha(s[0]) ==> Lexeme(s).Some? && Lexeme(s).value.kind in {Return, If, Else, For, Ident}
  {
    if IsDigit(s[0]) || IsAlpha(s[0]) {
      NoOperatorAt(s);
      if IsAlpha(s[0]) {
        assert Lexeme(s) == Word(s);
      }
    }
  }

  /** A letter or digit starts no operator. */
  lemma NoOperatorAt(s: seq<char>)
    requires |s| > 0 && (IsDigit(s[0]) || IsAlpha(s[0]))
    ensures !IsTwoCharOp(s) && !IsOneCharOp(s[0])
  {
    if |s| >= 2 {
      assert s[..2][0] == s[0];
    }
  }

  function Prepend(ts: seq<Token>, r: Result<seq<Token>>): Result<seq<Token>> {
    if r.Ok? then Ok(ts + r.value) else r
  }

  /** The tokens of the rest `s` of the input. */
  function Lex(s: seq<char>): Result<seq<Token>>
    decreases |s|
  {
    if |s| == 0 then Ok([EofToken()])
    else if IsSpace(s[0]) then Lex(s[1..])
    else match Lexeme(s)
      case None => Err("cannot tokenize")
      case Some(t) => Prepend([t], Lex(s[t.len..]))
  }

  /** The text of a token. */
  function Name(t: Token): seq<char> {
    if t.len <= |t.str| then t.str[..t.len] else t.str
  }

  /** `exist_in_locals`: the 1-based position of the first entry equal to
      `x`, or 0 when there is none. */
  function Position(locals: seq<seq<char>>, x: seq<char>): (r: nat)
    ensures r == 0 <==> x !in locals
    ensures r > 0 ==> r <= |locals| && locals[r - 1] == x
    ensures forall k :: 0 <= k < r - 1 ==> locals[k] != x
  {
    if |locals| == 0 then 0
    else if locals[0] == x then 1
    else
      var p := Position(locals[1..], x);
      if p == 0 then 0 else p + 1
  }

  /** Offset from `rbp` that `expect_lvar` gives a variable: 8 bytes per
      position, 0 for a name not in the list. */
  function Offset(locals: seq<seq<char>>, x: seq<char>): (r: nat)
    ensures r % 8 == 0 && r <= 8 * |locals|
    ensures r == 0 <==> x !in locals
  {
    8 * Position(locals, x)
  }

  /** `update_locals` as it is written: a name already present leaves the list
      alone, and a new one becomes the head's successor, which cuts off every
      entry the list had. */
  function RegisterAsWritten(locals: seq<seq<char>>, x: seq<char>): (r: seq<seq<char>>)
    ensures x in r
    ensures x !in locals ==> |r| == 1
  {
    if x in locals then locals else [x]
  }

  /** `update_locals` as intended: a new name is appended after the last
      entry. */
  function Register(locals: seq<seq<char>>, x: seq<char>): (r: seq<seq<char>>)
    ensures x in r && multiset(locals) <= multiset(r)
  {
    if x in locals then locals else locals + [x]
  }

  /** The list of locals after the tokenizer has read the tokens `ts` from an
      empty list: each identifier is registered as it is read. */
  function LocalsOf(ts: seq<Token>): seq<seq<char>>
  {
    if |ts| == 0 then []
    else
      var l := LocalsOf(ts[..|ts| - 1]);
      var t := ts[|ts| - 1];
      if t.kind == Ident then Register(l, Name(t)) else l
  }

  /** The same with `update_locals` as written. */
  function LocalsOfAsWritten(ts: seq<Token>): seq<seq<char>>
  {
    if |ts| == 0 then []
    else
      var l := LocalsOfAsWritten(ts[..|ts| - 1]);
      var t := ts[|ts| - 1];
      if t.kind == Ident then RegisterAsWritten(l, Name(t)) else l
  }

  predicate NoDuplicates(l: seq<seq<char>>) {
    forall a, b :: 0 <= a < b < |l| ==> l[a] != l[b]
  }

  /** One step of a successful `Lex` on input that starts with a non-space. */
  lemma LexUnfold(s: seq<char>)
    requires |s| > 0 && !IsSpace(s[0]) && Lex(s).Ok?
    ensures Lexeme(s).Some?
    ensures Lex(s[Lexeme(s).value.len..]).Ok?
    ensures Lex(s).value == [Lexeme(s).value] + Lex(s[Lexeme(s).value.len..]).value
  {
  }

  /** Every token list ends in exactly one end marker, and every token's text
      lies inside its `str`. */
  lemma {:induction false} LexEndsWithEof(s: seq<char>)
    requires Lex(s).Ok?
    ensures var ts := Lex(s).value;
      && |ts| > 0 && ts[|ts| - 1] == EofToken()
      && (forall i :: 0 <= i < |ts| - 1 ==> ts[i].kind != Eof)
    decreases |s|
  {
    if |s| == 0 {
    } else if IsSpace(s[0]) {
      LexEndsWithEof(s[1..]);
    } else {
      LexUnfold(s);
      LexEndsWithEof(s[Lexeme(s).value.len..]);
    }
  }

  /** Input starting with a letter goes to the keyword and identifier
      branches. */
  lemma LetterIsWord(s: seq<char>)
    requires |s| > 0 && IsAlpha(s[0])
    ensures Lexeme(s) == Word(s)
  {
    assert !IsTwoCharOp(s) by { StartsWithHead(s); }
  }

  /** Keywords need a boundary: `return`, `if`, `else` and `for` followed by
      a letter, digit or `_` are read as (the start of) an identifier. */
  lemma KeywordNeedsBoundary(s: seq<char>, w: seq<char>)
    requires w == "return" || w == "if" || w == "else" || w == "for"
    requires StartsWith(s, w) && AlnumAt(s, |w|)
    ensures Lexeme(s) == Some(Token(Ident, 0, s, AlnumRun(s)))
  {
    assert s[0] == w[0] by { StartsWithHead(s); }
    LetterIsWord(s);
    assert !KeywordAt(s, "return") && !KeywordAt(s, "if") && !KeywordAt(s, "else") && !KeywordAt(s, "for") by {
      StartsWithHead(s);
    }
  }

  /** A prefix decides the first character. */
  lemma StartsWithHead(s: seq<char>)
    ensures forall w :: |w| > 0 && StartsWith(s, w) ==> s[0] == w[0]
  {
    forall w | |w| > 0 && StartsWith(s, w) ensures s[0] == w[0] {
      assert s[..|w|][0] == s[0];
    }
  }

  /** The token kind of each keyword. */
  function KeywordKind(w: seq<char>): TokenKind {
    if w == "return" then Return else if w == "if" then If else if w == "else" then Else else For
  }

  /** A keyword followed by a character that cannot continue an identifier
      (or by the end of the input) is a keyword token. */
  lemma KeywordToken(s: seq<char>, w: seq<char>)
    requires w == "return" || w == "if" || w == "else" || w == "for"
    requires KeywordAt(s, w)
    ensures Lexeme(s) == Some(Token(KeywordKind(w), 0, s, |w|))
  {
    assert s[0] == w[0] by { StartsWithHead(s); }
    LetterIsWord(s);
    assert forall v :: v in {"return", "if", "else", "for"} && v != w ==> !StartsWith(s, v) by {
      StartsWithHead(s);
    }
  }

  /** Every identifier the tokenizer reads is in the list of locals
      afterwards, and the list holds nothing else and no name twice. */
  lemma {:induction false} LocalsComplete(ts: seq<Token>)
    ensures forall i :: 0 <= i < |ts| && ts[i].kind == Ident ==> Name(ts[i]) in LocalsOf(ts)
    ensures forall x :: x in LocalsOf(ts) ==> exists i :: 0 <= i < |ts| && ts[i].kind == Ident && Name(ts[i]) == x
    ensures NoDuplicates(LocalsOf(ts))
    decreases |ts|
  {
    if |ts| > 0 {
      var us := ts[..|ts| - 1];
      LocalsComplete(us);
      forall i | 0 <= i < |ts| && ts[i].kind == Ident ensures Name(ts[i]) in LocalsOf(ts) {
        if i < |ts| - 1 { assert ts[i] == us[i]; }
      }
      forall x | x in LocalsOf(ts)
        ensures exists i :: 0 <= i < |ts| && ts[i].kind == Ident && Name(ts[i]) == x
      {
        if x in LocalsOf(us) {
          var i :| 0 <= i < |us| && us[i].kind == Ident && Name(us[i]) == x;
          assert ts[i] == us[i];
        } else {
          assert x == Name(ts[|ts| - 1]);
        }
      }
    }
  }

  /** With `update_locals` appending, distinct identifiers of the input get
      distinct, nonzero offsets that lie inside a frame of 8 bytes per local. */
  lemma DistinctOffsets(ts: seq<Token>, i: nat, j: nat)
    requires i < |ts| && j < |ts|
    requires ts[i].kind == Ident && ts[j].kind == Ident
    ensures 8 <= Offset(LocalsOf(ts), Name(ts[i])) <= 8 * |LocalsOf(ts)|
    ensures Offset(LocalsOf(ts), Name(ts[i])) == Offset(LocalsOf(ts), Name(ts[j])) <==> Name(ts[i]) == Name(ts[j])
  {
    LocalsComplete(ts);
  }

  /** The list `update_locals` as written leaves behind never holds more than
      one entry. */
  lemma {:induction false} AsWrittenAtMostOne(ts: seq<Token>)
    ensures |LocalsOfAsWritten(ts)| <= 1
    decreases |ts|
  {
    if |ts| > 0 { AsWrittenAtMostOne(ts[..|ts| - 1]); }
  }

  /** An identifier token spelling exactly `x`. */
  function IdentTok(x: seq<char>): Token { Token(Ident, 0, x, |x|) }

  /** With `update_locals` as written, the identifiers `a`, `b`, `c` read in
      that order (as in `a=1;b=2;c=3;`) leave only `c` in the list, so `a` and
      `b` both get offset 0, the slot of the saved `rbp`, and share one memory
      cell. */
  lemma AsWrittenOffsetsCollide()
    ensures var ts := [IdentTok("a"), IdentTok("b"), IdentTok("c")];
      LocalsOfAsWritten(ts) == ["c"] &&
      Offset(LocalsOfAsWritten(ts), "a") == 0 && Offset(LocalsOfAsWritten(ts), "b") == 0
  {
    var ts := [IdentTok("a"), IdentTok("b"), IdentTok("c")];
    assert Name(IdentTok("a")) == "a" && Name(IdentTok("b")) == "b" && Name(IdentTok("c")) == "c";
    assert ts[..1] == [IdentTok("a")] && ts[..2] == [IdentTok("a"), IdentTok("b")];
    assert [IdentTok("a")][..0] == [];
    assert LocalsOfAsWritten([IdentTok("a")]) == ["a"];
    assert LocalsOfAsWritten(ts[..2]) == ["b"];
  }
}
