/** The simulated card check of the payment controller: whitespace is removed from the
    submitted number, the rest must be exactly sixteen decimal digits, and only the last
    four of them are kept. */
module Card {

  /** A character matched by PCRE's `\s` on a byte string: space, tab, line feed,
      vertical tab, form feed or carriage return. */
  predicate IsSpace(c: char)
  {
    c == ' ' || '\t' <= c <= '\r'
  }

  /** A character matched by PCRE's `\d`. */
  predicate IsDigit(c: char)
  {
    '0' <= c <= '9'
  }

  /** `preg_replace('/\s+/', '', $s)`: the characters of `s` that are not whitespace, in order. */
  function StripSpaces(s: string): (r: string)
    ensures |r| <= |s|
    ensures forall i :: 0 <= i < |r| ==> !IsSpace(r[i])
    decreases |s|
  {
    if s == [] then []
    else if IsSpace(s[0]) then StripSpaces(s[1..])
    else [s[0]] + StripSpaces(s[1..])
  }

  /** `preg_match('/^\d{16}$/', $n)` on a number that holds no whitespace. */
  predicate IsCardNumber(n: string)
  {
    |n| == 16 && forall i :: 0 <= i < |n| ==> IsDigit(n[i])
  }

  /** The payment controller accepts a submitted card number exactly when this holds. */
  predicate Accepted(raw: string)
  {
    IsCardNumber(StripSpaces(raw))
  }

  /** An accepted number has at least sixteen characters. */
  lemma AcceptedLength(raw: string)
    requires Accepted(raw)
    ensures |raw| >= 16
  {
  }

  /** `substr($n, -4)`: the last four characters. */
  function LastFour(n: string): (r: string)
    requires |n| >= 4
    ensures |r| == 4
    ensures n == n[..|n| - 4] + r
  {
    n[|n| - 4..]
  }

  /** The number of decimal digits in `s`. */
  function DigitCount(s: string): nat
  {
    if s == [] then 0 else (if IsDigit(s[0]) then 1 else 0) + DigitCount(s[1..])
  }

  /** Stripping a string that holds no whitespace gives it back unchanged. */
  lemma {:induction false} StripSpacesIdentity(s: string)
    requires forall i :: 0 <= i < |s| ==> !IsSpace(s[i])
    ensures StripSpaces(s) == s
  {
    if s != [] {
      StripSpacesIdentity(s[1..]);
    }
  }

  /** Stripping is idempotent. */
  lemma StripSpacesIdempotent(s: string)
    ensures StripSpaces(StripSpaces(s)) == StripSpaces(s)
  {
    StripSpacesIdentity(StripSpaces(s));
  }

  /** Stripping works piecewise on a concatenation. */
  lemma {:induction false} StripSpacesConcat(a: string, b: string)
    ensures StripSpaces(a + b) == StripSpaces(a) + StripSpaces(b)
  {
    if a == [] {
      assert a + b == b;
    } else {
      assert (a + b)[0] == a[0];
      assert (a + b)[1..] == a[1..] + b;
      StripSpacesConcat(a[1..], b);
      if !IsSpace(a[0]) {
        calc {
          StripSpaces(a + b);
          [a[0]] + StripSpaces(a[1..] + b);
          [a[0]] + (StripSpaces(a[1..]) + StripSpaces(b));
          ([a[0]] + StripSpaces(a[1..])) + StripSpaces(b);
        }
      }
    }
  }

  /** Whitespace typed anywhere in a card number never changes whether it is accepted. */
  lemma SpaceAnywhereIsIgnored(a: string, c: char, b: string)
    requires IsSpace(c)
    ensures Accepted(a + [c] + b) <==> Accepted(a + b)
  {
    StripSpacesConcat(a + [c], b);
    StripSpacesConcat(a, [c]);
    StripSpacesConcat(a, b);
    assert [c][1..] == [];
    assert StripSpaces([c]) == [];
    assert StripSpaces(a + [c] + b) == StripSpaces(a) + StripSpaces(b);
  }

  predicate AllDigits(s: string)
  {
    forall i :: 0 <= i < |s| ==> IsDigit(s[i])
  }

  predicate DigitsOrSpaces(s: string)
  {
    forall i :: 0 <= i < |s| ==> IsDigit(s[i]) || IsSpace(s[i])
  }

  lemma AllDigitsCons(c: char, s: string)
    ensures AllDigits([c] + s) <==> IsDigit(c) && AllDigits(s)
  {
    var t := [c] + s;
    assert t[0] == c;
    assert forall i :: 0 <= i < |s| ==> s[i] == t[i + 1];
    if IsDigit(c) && AllDigits(s) {
      forall i | 0 <= i < |t| ensures IsDigit(t[i]) {
        if i > 0 { assert t[i] == s[i - 1]; }
      }
    }
  }

  lemma DigitsOrSpacesTail(s: string)
    requires s != []
    ensures DigitsOrSpaces(s) <==> (IsDigit(s[0]) || IsSpace(s[0])) && DigitsOrSpaces(s[1..])
  {
    var t := s[1..];
    assert forall i :: 0 <= i < |t| ==> t[i] == s[i + 1];
  }

  /** Stripping keeps exactly the non-whitespace characters: the result is all digits
      iff every character of `s` is a digit or whitespace, and then it has one
      character per digit of `s`. */
  lemma {:induction false} StripSpacesDigits(s: string)
    ensures AllDigits(StripSpaces(s)) <==> DigitsOrSpaces(s)
    ensures DigitsOrSpaces(s) ==> |StripSpaces(s)| == DigitCount(s)
  {
    if s != [] {
      StripSpacesDigits(s[1..]);
      DigitsOrSpacesTail(s);
      if !IsSpace(s[0]) {
        AllDigitsCons(s[0], StripSpaces(s[1..]));
      }
    }
  }

  /** An independent description of acceptance: the submitted text consists only of
      digits and whitespace, and holds exactly sixteen digits. */
  lemma AcceptedIff(raw: string)
    ensures Accepted(raw) <==>
      (forall i :: 0 <= i < |raw| ==> IsDigit(raw[i]) || IsSpace(raw[i])) && DigitCount(raw) == 16
  {
    StripSpacesDigits(raw);
  }

  /** What a payment keeps of an accepted number: four digits, the last four of it. */
  lemma KeptDigits(raw: string)
    requires Accepted(raw)
    ensures var n := StripSpaces(raw);
      |LastFour(n)| == 4 && LastFour(n) == n[12..] &&
      forall i :: 0 <= i < 4 ==> IsDigit(LastFour(n)[i])
  {
  }
}
