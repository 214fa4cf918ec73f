/// Small helpers shared by every snapshot of the compiler: an error-carrying
/// result type and the C character classes the tokenizers rely on.

module Util {

  datatype Option<+T> = None | Some(value: T)

  /** The elements an optional value adds to a sequence. */
  function Seq<T>(o: Option<T>): (r: seq<T>)
    ensures |r| <= 1
  {
    if o.Some? then [o.value] else []
  }

  /** A fallible step. The compiler reports the first error and exits; here an
      error is a value that callers propagate. */
  datatype Result<+T> = Ok(value: T) | Err(msg: string) {
    predicate IsFailure() { Err? }
    function PropagateFailure<U>(): Result<U>
      requires Err?
    {
      Err(msg)
    }
    function Extract(): T
      requires Ok?
    {
      value
    }
  }

  /** True when `w` is a prefix of `s`. A C `strncmp(s, w, strlen(w)) == 0`
      on a NUL-terminated `s` means exactly this. */
  predicate StartsWith(s: seq<char>, w: seq<char>) {
    |w| <= |s| && s[..|w|] == w
  }

  /** C `isdigit` in the C locale. */
  predicate IsDigit(c: char) { '0' <= c <= '9' }

  /** C `isalpha` in the C locale. */
  predicate IsAlpha(c: char) { ('a' <= c <= 'z') || ('A' <= c <= 'Z') }

  /** C `isspace` in the C locale. */
  predicate IsSpace(c: char) {
    c == ' ' || c == '\t' || c == '\n' || c == '\r' || c == '\U{0B}' || c == '\U{0C}'
  }

  /** The `is_alnum` helper of the tokenizers: ASCII letters, digits and `_`. */
  predicate IsAlnum(c: char) { IsAlpha(c) || IsDigit(c) || c == '_' }

  /** `IsAlnum` on the character at `k`, where the end of the string reads as
      the terminating NUL (which is not alphanumeric). */
  predicate AlnumAt(s: seq<char>, k: nat) { k < |s| && IsAlnum(s[k]) }

  /** Length of the longest prefix of `s` made of characters satisfying `IsDigit`. */
  function DigitRun(s: seq<char>): (n: nat)
    ensures n <= |s|
    ensures forall k :: 0 <= k < n ==> IsDigit(s[k])
    ensures n < |s| ==> !IsDigit(s[n])
  {
    if |s| == 0 || !IsDigit(s[0]) then 0 else 1 + DigitRun(s[1..])
  }

  /** Length of the longest prefix of `s` made of `IsAlnum` characters. */
  function AlnumRun(s: seq<char>): (n: nat)
    ensures n <= |s|
    ensures forall k :: 0 <= k < n ==> IsAlnum(s[k])
    ensures n < |s| ==> !IsAlnum(s[n])
  {
    if |s| == 0 || !IsAlnum(s[0]) then 0 else 1 + AlnumRun(s[1..])
  }

  /** The value of a run of decimal digits, most significant first, as
      `strtol(p, &p, 10)` computes it (without the `long` range limit). */
  function DecimalValue(ds: seq<char>): (v: nat)
    requires forall k :: 0 <= k < |ds| ==> IsDigit(ds[k])
  {
    if |ds| == 0 then 0
    else
      assert IsDigit(ds[|ds| - 1]);
      10 * DecimalValue(ds[..|ds| - 1]) + (ds[|ds| - 1] as int - '0' as int)
  }

  /** The decimal spelling of a natural number, without leading zeros. */
  function DecimalString(n: nat): (s: seq<char>)
    ensures |s| > 0
    ensures forall k :: 0 <= k < |s| ==> IsDigit(s[k])
  {
    var d := ['0' + ((n % 10) as char)];
    if n < 10 then d else DecimalString(n / 10) + d
  }

  /** Printing a number in decimal and reading it back gives the number. */
  lemma {:induction false} DecimalRoundTrip(n: nat)
    ensures DecimalValue(DecimalString(n)) == n
  {
    var s := DecimalString(n);
    var d := ['0' + ((n % 10) as char)];
    if n >= 10 {
      DecimalRoundTrip(n / 10);
      assert s[..|s| - 1] == DecimalString(n / 10);
    }
  }
}
