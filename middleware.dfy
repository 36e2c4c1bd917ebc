/** The request-size gate of middleware.ts: `parseInt` of the
    `content-length` header (default `'0'`) against a 50 MiB limit. */
module Middleware {
  import opened Wrappers

  /** `50 * 1024 * 1024`. */
  const MaxBodySize: int := 50 * 1024 * 1024

  datatype Verdict =
    | PayloadTooLarge(status: int, error: string)   // NextResponse.json({error}, {status: 413})
    | Forward                                       // NextResponse.next(): the request goes on unchanged

  // ---------------------------------------------------------------------------
  // parseInt(text, 10)
  // ---------------------------------------------------------------------------

  /** The characters `parseInt` skips before the number: ECMAScript's
      WhiteSpace and LineTerminator. */
  predicate IsJsSpace(c: char) {
    || c == '\t' || c == '\n' || c == '\U{B}' || c == '\U{C}' || c == '\r' || c == ' '
    || c == '\U{A0}' || c == '\U{1680}' || ('\U{2000}' <= c <= '\U{200A}')
    || c == '\U{2028}' || c == '\U{2029}' || c == '\U{202F}' || c == '\U{205F}'
    || c == '\U{3000}' || c == '\U{FEFF}'
  }

  predicate IsDigit(c: char) { '0' <= c <= '9' }

  function DigitValue(c: char): nat
    requires IsDigit(c)
  {
    (c as int) - ('0' as int)
  }

  function TrimStart(s: string): string {
    if s != [] && IsJsSpace(s[0]) then TrimStart(s[1..]) else s
  }

  /** The longest prefix of decimal digits. */
  function LeadingDigits(s: string): (d: string)
    ensures forall i :: 0 <= i < |d| ==> IsDigit(d[i])
  {
    if s != [] && IsDigit(s[0]) then [s[0]] + LeadingDigits(s[1..]) else []
  }

  /** The number a string of decimal digits denotes. */
  function DigitsValue(d: string): nat
    requires forall i :: 0 <= i < |d| ==> IsDigit(d[i])
  {
    if d == [] then 0 else DigitsValue(d[..|d| - 1]) * 10 + DigitValue(d[|d| - 1])
  }

  /** `parseInt(s, 10)`: skip leading white space, take an optional sign, then
      as many decimal digits as follow; `None` (NaN) when there are none. */
  function ParseInt(s: string): Option<int> {
    var t := TrimStart(s);
    var negative := t != [] && t[0] == '-';
    var body := if t != [] && (t[0] == '-' || t[0] == '+') then t[1..] else t;
    var digits := LeadingDigits(body);
    if digits == [] then None
    else Some(if negative then -(DigitsValue(digits) as int) else DigitsValue(digits))
  }

  /** The decimal text of a length, as `String(n)` writes it. */
  function DecimalString(n: nat): (s: string)
    ensures s != [] && forall i :: 0 <= i < |s| ==> IsDigit(s[i])
  {
    var last := ['0' + ((n % 10) as char)];
    if n < 10 then last else DecimalString(n / 10) + last
  }

  /** Reading back the digits of `DecimalString(n)` gives `n`. */
  lemma {:induction false} DigitsValueOfDecimal(n: nat)
    ensures DigitsValue(DecimalString(n)) == n
  {
    var s := DecimalString(n);
    if n >= 10 {
      DigitsValueOfDecimal(n / 10);
      assert s[..|s| - 1] == DecimalString(n / 10);
    }
  }

  /** The digit scan stops exactly at the first non-digit. */
  lemma {:induction false} LeadingDigitsOfConcat(d: string, rest: string)
    requires forall i :: 0 <= i < |d| ==> IsDigit(d[i])
    requires rest == [] || !IsDigit(rest[0])
    ensures LeadingDigits(d + rest) == d
  {
    if d != [] {
      assert (d + rest)[0] == d[0];
      assert (d + rest)[1..] == d[1..] + rest;
      LeadingDigitsOfConcat(d[1..], rest);
    } else {
      assert d + rest == rest;
    }
  }

  /** `parseInt` reads a length written in decimal back exactly, whatever
      non-digit text follows it. */
  lemma ParseIntOfDecimal(n: nat, rest: string)
    requires rest == [] || !IsDigit(rest[0])
    ensures ParseInt(DecimalString(n) + rest) == Some(n)
  {
    var s := DecimalString(n) + rest;
    assert s[0] == DecimalString(n)[0];
    assert TrimStart(s) == s;
    LeadingDigitsOfConcat(DecimalString(n), rest);
    DigitsValueOfDecimal(n);
  }

  /** `parseInt` gives NaN exactly when, after white space and an optional
      sign, no digit follows. */
  lemma ParseIntNaN(s: string)
    ensures ParseInt(s).None? <==>
              var t := TrimStart(s);
              var body := if t != [] && (t[0] == '-' || t[0] == '+') then t[1..] else t;
              body == [] || !IsDigit(body[0])
  {
  }

  // ---------------------------------------------------------------------------
  // The gate
  // ---------------------------------------------------------------------------

  /** `req.headers.get('content-length') || '0'`. */
  function ContentLength(header: Option<string>): string {
    if header.Some? && header.value != "" then header.value else "0"
  }

  /** `middleware`: reject with 413 when the parsed length exceeds the limit;
      NaN compares false and lets the request through. */
  function Gate(header: Option<string>): (v: Verdict)
    ensures v.PayloadTooLarge? ==> v == PayloadTooLarge(413, "Payload too large")
  {
    var length := ParseInt(ContentLength(header));
    if length.Some? && length.value > MaxBodySize then PayloadTooLarge(413, "Payload too large")
    else Forward
  }

  /** The limit is 52 428 800 bytes. */
  lemma LimitIsFiftyMiB()
    ensures MaxBodySize == 52428800
  {
  }

  /** A missing or empty header reads as `'0'` and the request passes. */
  lemma MissingHeaderPasses(header: Option<string>)
    requires header.None? || header == Some("")
    ensures Gate(header) == Forward
  {
    assert ContentLength(header) == DecimalString(0) + [];
    ParseIntOfDecimal(0, []);
  }

  /** For a decimal header the request is rejected exactly when the length is
      strictly greater than the limit. */
  lemma DecimalLengthVerdict(n: nat)
    ensures Gate(Some(DecimalString(n))) == if n > MaxBodySize then PayloadTooLarge(413, "Payload too large") else Forward
  {
    assert DecimalString(n) + [] == DecimalString(n);
    ParseIntOfDecimal(n, []);
  }

  /** A length equal to the limit passes; one byte more is rejected. */
  lemma LimitBoundary()
    ensures Gate(Some(DecimalString(MaxBodySize))) == Forward
    ensures Gate(Some(DecimalString(MaxBodySize + 1))) == PayloadTooLarge(413, "Payload too large")
  {
    DecimalLengthVerdict(MaxBodySize);
    DecimalLengthVerdict(MaxBodySize + 1);
  }

  /** A header with no leading digits parses to NaN and the request passes. */
  lemma NonNumericHeaderPasses(text: string)
    requires ParseInt(text).None?
    ensures Gate(Some(text)) == Forward
  {
    if text == "" {
      MissingHeaderPasses(Some(text));
    }
  }

  /** Leading white space is skipped up to the first other character. */
  lemma {:induction false} TrimStartOfSpace(w: string, t: string)
    requires forall i :: 0 <= i < |w| ==> IsJsSpace(w[i])
    requires t == [] || !IsJsSpace(t[0])
    ensures TrimStart(w + t) == t
  {
    if w == [] {
      assert w + t == t;
    } else {
      assert (w + t)[0] == w[0];
      assert (w + t)[1..] == w[1..] + t;
      TrimStartOfSpace(w[1..], t);
    }
  }

  /** `parseInt` skips leading white space and reads the digits up to the
      first non-digit. */
  lemma ParseIntSkipsSpace(w: string, d: string, rest: string)
    requires forall i :: 0 <= i < |w| ==> IsJsSpace(w[i])
    requires d != [] && forall i :: 0 <= i < |d| ==> IsDigit(d[i])
    requires rest == [] || !IsDigit(rest[0])
    ensures ParseInt(w + (d + rest)) == Some(DigitsValue(d))
  {
    var t := d + rest;
    assert t[0] == d[0];
    assert !IsJsSpace(t[0]);
    TrimStartOfSpace(w, t);
    assert t[0] != '-' && t[0] != '+';
    LeadingDigitsOfConcat(d, rest);
  }

  /** A header made of white space, decimal digits and any text that does not
      start with a digit is judged by the number its digits denote: leading
      white space, leading zeros and a trailing tail do not matter. */
  lemma GateReadsLeadingDigits(w: string, d: string, rest: string)
    requires forall i :: 0 <= i < |w| ==> IsJsSpace(w[i])
    requires d != [] && forall i :: 0 <= i < |d| ==> IsDigit(d[i])
    requires rest == [] || !IsDigit(rest[0])
    ensures Gate(Some(w + d + rest)) == if DigitsValue(d) > MaxBodySize then PayloadTooLarge(413, "Payload too large") else Forward
  {
    assert w + d + rest == w + (d + rest);
    ParseIntSkipsSpace(w, d, rest);
    assert ContentLength(Some(w + d + rest)) == w + (d + rest);
  }
}
