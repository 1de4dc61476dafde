/**
 * Cursor strings (packages/server/src/engine.ts): an opaque echo of a printed
 * revision, matched and never coerced.
 */
module Cursors {
  import opened RawRecords

  const DIGITS: string := "0123456789"

  function Digit(d: nat): char
    requires d < 10
  {
    DIGITS[d]
  }

  predicate IsDigit(c: char) {
    '0' <= c <= '9'
  }

  function DigitValue(c: char): (d: nat)
    requires IsDigit(c)
    ensures d < 10 && Digit(d) == c
  {
    (c - '0') as int
  }

  /** String(rev). */
  function EncodeCursor(rev: nat): string {
    if rev < 10 then [Digit(rev)] else EncodeCursor(rev / 10) + [Digit(rev % 10)]
  }

  /** The pattern ^(?:0|[1-9][0-9]*)$ */
  predicate MatchesCursor(s: string) {
    && s != ""
    && (forall i :: 0 <= i < |s| ==> IsDigit(s[i]))
    && (s[0] == '0' ==> |s| == 1)
  }

  function DecimalValue(s: string): nat
    requires forall i :: 0 <= i < |s| ==> IsDigit(s[i])
  {
    if s == "" then 0 else 10 * DecimalValue(s[..|s| - 1]) + DigitValue(s[|s| - 1])
  }

  /**
   * decodeCursor. Number() rounds decimals above the safe range, but it is
   * monotone and 2^53 is exact, so what it rounds is outside the range anyway.
   */
  function DecodeCursor(s: string): Option<nat> {
    if !MatchesCursor(s) then None
    else if DecimalValue(s) <= MAX_SAFE then Some(DecimalValue(s)) else None
  }

  lemma {:induction false} EncodedMatches(rev: nat)
    ensures MatchesCursor(EncodeCursor(rev)) && DecimalValue(EncodeCursor(rev)) == rev
    ensures rev > 0 ==> EncodeCursor(rev)[0] != '0'
  {
    if rev >= 10 {
      EncodedMatches(rev / 10);
      var s := EncodeCursor(rev);
      assert s[..|s| - 1] == EncodeCursor(rev / 10);
    }
  }

  lemma LastDigit(s: string)
    requires |s| > 1 && forall i :: 0 <= i < |s| ==> IsDigit(s[i])
    ensures DecimalValue(s) / 10 == DecimalValue(s[..|s| - 1])
    ensures DecimalValue(s) % 10 == DigitValue(s[|s| - 1])
  {
  }

  lemma {:induction false} MatchedIsEncoded(s: string)
    requires MatchesCursor(s)
    ensures EncodeCursor(DecimalValue(s)) == s
    ensures s[0] != '0' ==> DecimalValue(s) > 0
  {
    if |s| > 1 {
      var prefix := s[..|s| - 1];
      MatchedIsEncoded(prefix);
      LastDigit(s);
      assert prefix + [Digit(DigitValue(s[|s| - 1]))] == s;
    } else {
      assert s[..0] == "";
      assert DecimalValue(s) == DigitValue(s[0]);
      assert s == [s[0]];
    }
  }

  /** Every revision the engine can print is read back as itself. */
  lemma DecodeEncode(rev: nat)
    requires rev <= MAX_SAFE
    ensures DecodeCursor(EncodeCursor(rev)) == Some(rev)
  {
    EncodedMatches(rev);
  }

  /** A string decodes only to the revision whose printed form it is. */
  lemma DecodesOnlyPrinted(s: string, rev: nat)
    ensures DecodeCursor(s) == Some(rev) <==> s == EncodeCursor(rev) && rev <= MAX_SAFE
  {
    if DecodeCursor(s) == Some(rev) {
      MatchedIsEncoded(s);
    }
    if s == EncodeCursor(rev) {
      EncodedMatches(rev);
    }
  }
}
