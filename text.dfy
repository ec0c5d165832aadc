/**
 * The two string facts the handlers depend on: Go's len(s) counts the bytes
 * of the UTF-8 encoding, and strconv.ParseUint(s, 10, 32) accepts exactly
 * the non-empty runs of ASCII digits whose value fits in 32 bits.
 */
module Text {

  import opened Wrappers

  const MaxUint32: nat := 0xFFFF_FFFF

  /** Bytes in the UTF-8 encoding of one Unicode scalar value. */
  function Utf8Width(c: char): nat {
    if c as int < 0x80 then 1
    else if c as int < 0x800 then 2
    else if c as int < 0x1_0000 then 3
    else 4
  }

  /** len(s) of the Go string that holds the UTF-8 encoding of `s`. */
  function ByteLen(s: string): (n: nat)
    ensures |s| <= n <= 4 * |s|
  {
    if s == [] then 0 else Utf8Width(s[0]) + ByteLen(s[1..])
  }

  /** For ASCII text, bytes and characters coincide. */
  lemma {:induction false} AsciiByteLen(s: string)
    requires forall i | 0 <= i < |s| :: s[i] as int < 0x80
    ensures ByteLen(s) == |s|
  {
    if s != [] {
      AsciiByteLen(s[1..]);
    }
  }

  predicate IsDigit(c: char) {
    '0' <= c <= '9'
  }

  predicate AllDigits(s: string) {
    forall i | 0 <= i < |s| :: IsDigit(s[i])
  }

  /** The value of a run of decimal digits, most significant first. */
  function DecimalValue(s: string): nat
    requires AllDigits(s)
  {
    if s == [] then 0 else DecimalValue(s[..|s| - 1]) * 10 + (s[|s| - 1] as int - '0' as int)
  }

  /**
   * strconv.ParseUint(s, 10, 32). With an explicit base there is no sign, no
   * prefix and no underscore; an empty string is a syntax error and a value
   * above 2^32 - 1 a range error.
   */
  function ParseUint32(s: string): (r: Option<nat>)
    ensures r.Some? ==> r.value <= MaxUint32
  {
    if s != [] && AllDigits(s) && DecimalValue(s) <= MaxUint32 then Some(DecimalValue(s)) else None
  }

  /** strconv.FormatUint(n, 10): the shortest decimal spelling of `n`. */
  function FormatUint(n: nat): (s: string)
    ensures s != [] && AllDigits(s)
  {
    if n < 10 then [('0' as int + n) as char]
    else FormatUint(n / 10) + [('0' as int + n % 10) as char]
  }

  lemma {:induction false} DecimalValueOfFormat(n: nat)
    ensures DecimalValue(FormatUint(n)) == n
  {
    var s := FormatUint(n);
    if n >= 10 {
      DecimalValueOfFormat(n / 10);
      assert s[..|s| - 1] == FormatUint(n / 10);
    }
  }

  /** Parsing the decimal spelling of a number gives it back exactly when it fits in 32 bits. */
  lemma ParseFormatRoundTrip(n: nat)
    ensures ParseUint32(FormatUint(n)) == if n <= MaxUint32 then Some(n) else None
  {
    DecimalValueOfFormat(n);
  }

  /** A segment with a character that is not an ASCII digit never parses (nor does the empty segment). */
  lemma ParseRejectsNonDigits(s: string)
    requires s == [] || exists i | 0 <= i < |s| :: !IsDigit(s[i])
    ensures ParseUint32(s).None?
  {
  }
}
