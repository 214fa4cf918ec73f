/// The token tests of the typed front end (decl.c): `equal` compares a
/// token's whole text, `consume` and `expect` accept a symbol token whose
/// text begins with the operator, and `consume_token`/`expect_token` look
/// only at the kind. The parsers read the token list `tokenize` returns.

module CTokens {
  import opened Util
  import opened CLex

  /** The source as written, or with the defects this model reports
      corrected: a parenthesised declarator then also takes the array and
      function suffixes that follow it, a function body's `{` is left to the
      compound statement, and `arg_list` returns the list it built rather
      than whatever the global `head` points at. */
  datatype Dialect = AsWritten | Corrected

  /** `equal(op)`: the token is as long as `op` and its text is `op`; its
      kind is not looked at. */
  predicate Equal(t: Token, op: string) {
    t.len == |op| && StartsWith(t.text, op)
  }

  /** The test of `consume(op)` and `expect(op)`: a symbol token whose text,
      compared on `strlen(op)` characters only, begins with `op`. */
  predicate Consumes(t: Token, op: string) {
    t.kind == Reserved && StartsWith(t.text, op)
  }

  /** What the parsers rely on in a token list: it ends with the end marker,
      whose text is empty,
      a token whose text begins with anything but a letter, digit or `_` is
      a symbol, and a number is never negative. */
  predicate ValidTokens(ts: seq<Token>) {
    && |ts| > 0 && ts[|ts| - 1].kind == Eof && ts[|ts| - 1].text == []
    && (forall k :: 0 <= k < |ts| && |ts[k].text| > 0 && !IsAlnum(ts[k].text[0]) ==> ts[k].kind == Reserved)
    && (forall k :: 0 <= k < |ts| && ts[k].kind == Number ==> ts[k].val >= 0)
  }

  function ExpectMsg(op: string): string { "expected '" + op + "'" }

  const NotANumber := "not a number"

  /** Every list `tokenize` returns is one the parsers accept. */
  lemma LexedTokensValid(input: seq<char>)
    requires Lex(input, 0).Ok?
    ensures ValidTokens(Lex(input, 0).value)
  {
    LexWellLexed(input, 0);
    var ts := Lex(input, 0).value;
    forall k | 0 <= k < |ts| && |ts[k].text| > 0 && !IsAlnum(ts[k].text[0])
      ensures ts[k].kind == Reserved
    {
      if k < |ts| - 1 {
        assert Spans(input, ts[k]);
      }
    }
    forall k | 0 <= k < |ts| && ts[k].kind == Number
      ensures ts[k].val >= 0
    {
      if k < |ts| - 1 {
        assert Spans(input, ts[k]);
      }
    }
  }

  /** In a valid list, `equal` on a symbol implies `consume` of it: what the
      parser checks with `equal` it can then consume. */
  lemma EqualConsumes(ts: seq<Token>, i: nat, op: string)
    requires ValidTokens(ts) && i < |ts| && Equal(ts[i], op)
    requires |op| > 0 && !IsAlnum(op[0])
    ensures Consumes(ts[i], op)
  {
    assert ts[i].text[0] == op[0];
  }

  /** `consume` compares only the first `strlen(op)` characters: the `>=`
      symbol passes the test for `>` and the `==` symbol the test for `=`;
      `equal` tells them apart. */
  lemma PrefixConsumed(t: Token)
    requires t.kind == Reserved && t.len == 2
    ensures t.text == ">=" ==> Consumes(t, ">") && !Equal(t, ">")
    ensures t.text == "==" ==> Consumes(t, "=") && !Equal(t, "=")
  {
  }
}
