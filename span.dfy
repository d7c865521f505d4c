/**
 * The Span entity as the interceptor sees it, and the hexadecimal encoding of
 * its 64-bit identifiers used on the wire (`Span.idToHex`).
 */
module Spans {
  import opened JavaLang

  /**
   * One traced unit of work. `parents` lists the ancestors' span ids, the
   * immediate parent first; `name` and `processId` are Java Strings and may be
   * null; `exportable` is false for a span that must not be sampled downstream.
   */
  datatype Span = Span(
    traceId: Long,
    spanId: Long,
    parents: seq<Long>,
    name: Option<string>,
    processId: Option<string>,
    exportable: bool)

  /** The unsigned reading of a `long`'s 64 bits (two's complement). */
  function Unsigned(id: Long): (n: nat)
    ensures n < TWO_TO_64
  {
    if id < 0 then id as int + TWO_TO_64 else id as int
  }

  predicate IsHexDigit(c: char)
  {
    ('0' <= c <= '9') || ('a' <= c <= 'f')
  }

  predicate IsHexString(s: string)
  {
    forall i :: 0 <= i < |s| ==> IsHexDigit(s[i])
  }

  function DigitValue(c: char): (d: nat)
    requires IsHexDigit(c)
    ensures d < 16
  {
    if c <= '9' then c as int - '0' as int else c as int - 'a' as int + 10
  }

  function HexDigit(d: nat): (c: char)
    requires d < 16
    ensures IsHexDigit(c) && DigitValue(c) == d
  {
    "0123456789abcdef"[d]
  }

  /** Lower-case hexadecimal without leading zeros, as `Long.toHexString` writes it. */
  function ToHex(n: nat): (r: string)
    ensures |r| >= 1 && IsHexString(r)
    ensures |r| > 1 ==> r[0] != '0'
    decreases n
  {
    if n < 16 then [HexDigit(n)] else ToHex(n / 16) + [HexDigit(n % 16)]
  }

  /** The reading of a hexadecimal string as a number: the inverse of `ToHex`. */
  function ParseHex(s: string): (n: nat)
    requires IsHexString(s)
  {
    if s == [] then 0 else 16 * ParseHex(s[..|s| - 1]) + DigitValue(s[|s| - 1])
  }

  lemma {:induction false} ParseHexOfToHex(n: nat)
    ensures ParseHex(ToHex(n)) == n
    decreases n
  {
    if n >= 16 {
      var s := ToHex(n);
      assert s[..|s| - 1] == ToHex(n / 16);
      ParseHexOfToHex(n / 16);
    }
  }

  /**
   * `Span.idToHex`: the wire form of a span or trace id, the lower-case
   * hexadecimal digits of the id's unsigned 64-bit value. The result always
   * has text, so the injection gate never rejects an id header for its value.
   */
  function IdToHex(id: Long): (r: string)
    ensures IsHexString(r) && HasText(Some(r))
  {
    var r := ToHex(Unsigned(id));
    assert !IsWhitespace(r[0]);
    r
  }

  /** Distinct ids never share a wire form: parsing the header gives the id back. */
  lemma IdToHexInjective(a: Long, b: Long)
    ensures IdToHex(a) == IdToHex(b) ==> a == b
  {
    ParseHexOfToHex(Unsigned(a));
    ParseHexOfToHex(Unsigned(b));
  }

  /** Decoding the header value of an id gives back the id's unsigned value. */
  lemma IdToHexRoundTrip(id: Long)
    ensures ParseHex(IdToHex(id)) == Unsigned(id)
  {
    ParseHexOfToHex(Unsigned(id));
  }

  /** Worked values of the wire format: 255 is "ff", 16 is "10", 0 is "0". */
  lemma IdToHexExamples()
    ensures IdToHex(255) == "ff"
    ensures IdToHex(16) == "10"
    ensures IdToHex(0) == "0"
  {
    assert ToHex(15) == "f";
    assert ToHex(1) == "1";
  }
}
