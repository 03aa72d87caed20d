/**
 * The ranged read behind the zip reader (`customUnzipperSource.stream`): the
 * `Range` header the child process sends for a read at `offset` of `length`
 * bytes, and what that header selects under the inclusive last-byte-pos of
 * section 14.1.2 of RFC 9110.
 */
module RangeRequest {
  import opened Types

  /** A JavaScript number printed in decimal; `n` is a non-negative integer. */
  function Decimal(n: nat): (s: string)
    ensures |s| >= 1
    ensures forall i :: 0 <= i < |s| ==> '0' <= s[i] <= '9'
  {
    if n < 10 then [(48 + n) as char] else Decimal(n / 10) + [(48 + n % 10) as char]
  }

  predicate AllDigits(s: string)
  {
    forall i :: 0 <= i < |s| ==> '0' <= s[i] <= '9'
  }

  /** The value of a string of decimal digits. */
  function DigitsValue(s: string): nat
    requires AllDigits(s)
  {
    if s == [] then 0 else 10 * DigitsValue(s[..|s| - 1]) + (s[|s| - 1] as int - 48)
  }

  /** Reading back a printed number gives the number. */
  lemma {:induction false} DecimalRoundTrip(n: nat)
    ensures DigitsValue(Decimal(n)) == n
  {
    if n >= 10 {
      DecimalRoundTrip(n / 10);
      var s := Decimal(n);
      assert s[..|s| - 1] == Decimal(n / 10);
    }
  }

  /**
   * `length ? offset + length : ''`: the last byte position of the request, or
   * none (the empty string) when the length is falsy, that is absent or zero.
   */
  function RangeEnd(offset: nat, length: Option<nat>): Option<nat>
  {
    if length.Some? && length.value != 0 then Some(offset + length.value) else None
  }

  /** The header value `"bytes=" + offset + "-" + end`. */
  function RangeHeader(offset: nat, length: Option<nat>): string
  {
    var end := RangeEnd(offset, length);
    "bytes=" + Decimal(offset) + "-" + (if end.Some? then Decimal(end.value) else "")
  }

  /** Index of the first '-' in s, or |s|. */
  function DashIndex(s: string): (i: nat)
    ensures i <= |s|
    ensures i < |s| ==> s[i] == '-'
    ensures forall j :: 0 <= j < i ==> s[j] != '-'
  {
    if s == [] || s[0] == '-' then 0 else 1 + DashIndex(s[1..])
  }

  /**
   * Reads a single byte-range-spec header value of the form
   * `bytes=first-pos "-" [ last-pos ]` (section 14.1.2 of RFC 9110).
   */
  function ParseRangeHeader(h: string): Option<(nat, Option<nat>)>
  {
    if |h| < 6 || h[..6] != "bytes=" then None
    else
      var rest := h[6..];
      var i := DashIndex(rest);
      if i == |rest| || i == 0 || !AllDigits(rest[..i]) then None
      else
        var last := rest[i + 1..];
        if last == [] then Some((DigitsValue(rest[..i]), None))
        else if AllDigits(last) then Some((DigitsValue(rest[..i]), Some(DigitsValue(last))))
        else None
  }

  /** The header carries the offset, and the end exactly when the length is truthy. */
  lemma RangeHeaderRoundTrip(offset: nat, length: Option<nat>)
    ensures ParseRangeHeader(RangeHeader(offset, length)) == Some((offset, RangeEnd(offset, length)))
  {
    var end := RangeEnd(offset, length);
    var tail := if end.Some? then Decimal(end.value) else "";
    ParseBuilt(Decimal(offset), tail);
    DecimalRoundTrip(offset);
    if end.Some? {
      DecimalRoundTrip(end.value);
    }
  }

  lemma ParseBuilt(first: string, tail: string)
    requires |first| >= 1 && AllDigits(first) && AllDigits(tail)
    ensures ParseRangeHeader("bytes=" + first + "-" + tail)
            == Some((DigitsValue(first), if tail == [] then None else Some(DigitsValue(tail))))
  {
    var h := "bytes=" + first + "-" + tail;
    assert h[..6] == "bytes=";
    var rest := h[6..];
    assert rest == first + "-" + tail;
    DashAfter(first, tail);
    assert rest[..|first|] == first;
    assert rest[|first| + 1..] == tail;
  }

  lemma DashAfter(digits: string, tail: string)
    requires AllDigits(digits)
    ensures DashIndex(digits + "-" + tail) == |digits|
  {
    var s := digits + "-" + tail;
    assert s[|digits|] == '-';
    assert forall j :: 0 <= j < |digits| ==> s[j] == digits[j];
    DashIndexIs(s, |digits|);
  }

  lemma DashIndexIs(s: string, i: nat)
    requires i < |s| && s[i] == '-'
    requires forall j :: 0 <= j < i ==> s[j] != '-'
    ensures DashIndex(s) == i
  {
  }

  /**
   * How many bytes of a representation of `size` bytes the range
   * `first-pos "-" [ last-pos ]` selects, the last position inclusive and
   * clipped to the size (section 14.1.2 of RFC 9110); zero when it is
   * unsatisfiable.
   */
  function SelectedBytes(first: nat, last: Option<nat>, size: nat): nat
  {
    if first >= size then 0
    else if last.None? || last.value >= size then size - first
    else if last.value < first then 0
    else last.value - first + 1
  }

  /**
   * The read the zip reader asks for: with a non-zero length that fits, the
   * header selects one byte more than the length; with no length, or a zero
   * one, it selects everything from the offset to the end.
   */
  lemma RangeReadSpan(offset: nat, length: Option<nat>, size: nat)
    requires offset < size
    ensures var end := RangeEnd(offset, length);
      && ((length.Some? && length.value != 0 && offset + length.value < size)
            ==> SelectedBytes(offset, end, size) == length.value + 1)
      && (length.None? || length.value == 0 ==> SelectedBytes(offset, end, size) == size - offset)
  {
  }
}
