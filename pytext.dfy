/**
 * The Python string built-ins the request handler relies on: `str.split` with an explicit
 * one-character separator, `str.join`, `str.strip()` with no argument, `int()` on a string
 * and `str()` of an int.
 */
module PyText {
  import opened Wrappers

  /** The characters for which Python's `str.isspace()` holds; `str.strip()` removes these. */
  predicate IsSpace(c: char) {
    ('\t' <= c <= '\r') || ('\U{1C}' <= c <= ' ') || c == '\U{85}' || c == '\U{A0}'
    || c == '\U{1680}' || ('\U{2000}' <= c <= '\U{200A}') || c == '\U{2028}' || c == '\U{2029}'
    || c == '\U{202F}' || c == '\U{205F}' || c == '\U{3000}'
  }

  /**
   * The ASCII information separators U+001C..U+001F: `str.isspace()` holds for them, but
   * `int()` does not skip them (it skips only ASCII blanks and non-ASCII whitespace).
   */
  predicate IsSeparatorControl(c: char) {
    '\U{1C}' <= c <= '\U{1F}'
  }

  predicate IsDigit(c: char) {
    '0' <= c <= '9'
  }

  // ---------------------------------------------------------------- str.join / str.split

  /** `sep.join(parts)`. */
  function Join(parts: seq<string>, sep: string): string
  {
    if |parts| == 0 then ""
    else if |parts| == 1 then parts[0]
    else parts[0] + sep + Join(parts[1..], sep)
  }

  /** Each part followed by `term`: what `sep.join(parts) + sep` yields for a non-empty list. */
  function Terminated(parts: seq<string>, term: string): string
  {
    if |parts| == 0 then "" else parts[0] + term + Terminated(parts[1..], term)
  }

  lemma {:induction false} JoinThenTerminate(parts: seq<string>, sep: string)
    requires |parts| > 0
    ensures Join(parts, sep) + sep == Terminated(parts, sep)
  {
    if |parts| > 1 {
      JoinThenTerminate(parts[1..], sep);
    }
  }

  /**
   * `s.split(sep)` for a one-character separator: the pieces between occurrences of `sep`,
   * empty pieces included, so there is always one more piece than there are separators.
   * The pieces hold no separator and joining them with `sep` gives back `s`.
   */
  function Split(s: string, sep: char): (r: seq<string>)
    ensures |r| >= 1
    ensures forall k :: 0 <= k < |r| ==> sep !in r[k]
    ensures Join(r, [sep]) == s
    decreases |s|
  {
    if |s| == 0 then [""]
    else
      var rest := Split(s[1..], sep);
      if s[0] == sep then
        assert ([""] + rest)[1..] == rest;
        [""] + rest
      else
        var r := [[s[0]] + rest[0]] + rest[1..];
        assert r[1..] == rest[1..];
        assert |rest| > 1 ==> Join(rest, [sep]) == rest[0] + [sep] + Join(rest[1..], [sep]);
        r
  }

  /** Splitting is the only way to cut `s` into separator-free pieces that join back to `s`. */
  lemma {:induction false} SplitUnique(s: string, sep: char, parts: seq<string>)
    requires |parts| >= 1
    requires forall k :: 0 <= k < |parts| ==> sep !in parts[k]
    requires Join(parts, [sep]) == s
    ensures parts == Split(s, sep)
    decreases |s|
  {
    if |parts| == 1 {
      assert s == parts[0];
      SplitWithoutSep(s, sep);
    } else {
      var tail := Join(parts[1..], [sep]);
      assert s == parts[0] + [sep] + tail;
      SplitUnique(tail, sep, parts[1..]);
      SplitAfterPiece(parts[0], sep, tail);
      assert parts == [parts[0]] + parts[1..];
    }
  }

  lemma {:induction false} SplitWithoutSep(s: string, sep: char)
    requires sep !in s
    ensures Split(s, sep) == [s]
    decreases |s|
  {
    if |s| > 0 {
      assert s[0] != sep;
      assert sep !in s[1..] by {
        forall k | 0 <= k < |s[1..]| ensures s[1..][k] != sep { assert s[1..][k] == s[k + 1]; }
      }
      SplitWithoutSep(s[1..], sep);
      assert [s[0]] + s[1..] == s;
    }
  }

  lemma {:induction false} SplitAfterPiece(piece: string, sep: char, tail: string)
    requires sep !in piece
    ensures Split(piece + [sep] + tail, sep) == [piece] + Split(tail, sep)
    decreases |piece|
  {
    var s := piece + [sep] + tail;
    if |piece| == 0 {
      assert s[0] == sep && s[1..] == tail;
    } else {
      assert s[0] == piece[0] && s[0] != sep;
      assert s[1..] == piece[1..] + [sep] + tail;
      assert sep !in piece[1..] by {
        forall k | 0 <= k < |piece[1..]| ensures piece[1..][k] != sep { assert piece[1..][k] == piece[k + 1]; }
      }
      SplitAfterPiece(piece[1..], sep, tail);
      assert [piece[0]] + piece[1..] == piece;
    }
  }

  // ---------------------------------------------------------------- str.strip

  function TrimStart(s: string): (r: string)
    ensures |r| <= |s| && r == s[|s| - |r|..]
    ensures forall k :: 0 <= k < |s| - |r| ==> IsSpace(s[k])
    ensures r == [] || !IsSpace(r[0])
  {
    if |s| > 0 && IsSpace(s[0]) then TrimStart(s[1..]) else s
  }

  function TrimEnd(s: string): (r: string)
    ensures |r| <= |s| && r == s[..|r|]
    ensures forall k :: |r| <= k < |s| ==> IsSpace(s[k])
    ensures r == [] || !IsSpace(r[|r| - 1])
  {
    if |s| > 0 && IsSpace(s[|s| - 1]) then TrimEnd(s[..|s| - 1]) else s
  }

  /**
   * `s.strip()`: the slice of `s` left once the leading and trailing whitespace is cut off.
   * It neither starts nor ends with whitespace, and an all-whitespace string strips to "".
   */
  function Strip(s: string): (r: string)
    ensures exists i, j :: 0 <= i <= j <= |s| && r == s[i..j]
                           && (forall k :: 0 <= k < i ==> IsSpace(s[k]))
                           && (forall k :: j <= k < |s| ==> IsSpace(s[k]))
    ensures r == [] || (!IsSpace(r[0]) && !IsSpace(r[|r| - 1]))
    ensures (forall k :: 0 <= k < |s| ==> IsSpace(s[k])) ==> r == []
  {
    var t := TrimStart(s);
    var r := TrimEnd(t);
    var i := |s| - |t|;
    assert r == s[i..i + |r|];
    r
  }

  // ---------------------------------------------------------------- int() and str(int)

  function DigitValue(c: char): nat
    requires IsDigit(c)
  {
    c as int - '0' as int
  }

  function DigitChar(d: nat): (c: char)
    requires d < 10
    ensures IsDigit(c) && DigitValue(c) == d
  {
    ('0' as int + d) as char
  }

  /** The number a run of decimal digits denotes, most significant first; the empty run denotes 0. */
  function DigitsValue(d: string): nat
    requires forall k :: 0 <= k < |d| ==> IsDigit(d[k])
  {
    if |d| == 0 then 0 else DigitsValue(d[..|d| - 1]) * 10 + DigitValue(d[|d| - 1])
  }

  function ParseDigits(d: string): (r: Option<nat>)
  {
    if |d| > 0 && forall k :: 0 <= k < |d| ==> IsDigit(d[k]) then Some(DigitsValue(d)) else None
  }

  /** An optional sign followed by at least one decimal digit, as `int()` reads it once stripped. */
  function ParseSigned(t: string): (r: Option<int>)
    ensures t == [] ==> r == None
  {
    var signed := |t| > 0 && (t[0] == '-' || t[0] == '+');
    var digits := if signed then t[1..] else t;
    match ParseDigits(digits)
    case None => None
    case Some(n) =>
      var v: int := if signed && t[0] == '-' then -(n as int) else n;
      Some(v)
  }

  /**
   * `int(s)` on a string: surrounding whitespace other than U+001C..U+001F is ignored, then
   * an optional sign and at least one decimal digit must make up the rest; anything else,
   * and any U+001C..U+001F anywhere in `s`, is a ValueError (`None`).
   */
  function ParseInt(s: string): (r: Option<int>)
    ensures (forall k :: 0 <= k < |s| ==> IsSpace(s[k])) ==> r == None
    ensures (exists k :: 0 <= k < |s| && IsSeparatorControl(s[k])) ==> r == None
  {
    if exists k :: 0 <= k < |s| && IsSeparatorControl(s[k]) then None
    else ParseSigned(Strip(s))
  }

  /** `str(n)` for a natural number: its decimal digits, no leading zero. */
  function FormatNat(n: nat): (r: string)
    ensures |r| > 0
  {
    if n < 10 then [DigitChar(n)] else FormatNat(n / 10) + [DigitChar(n % 10)]
  }

  /** The digits `str(n)` writes are decimal digits and read back as `n`. */
  lemma {:induction false} FormatNatDigits(n: nat)
    ensures forall k :: 0 <= k < |FormatNat(n)| ==> IsDigit(FormatNat(n)[k])
    ensures DigitsValue(FormatNat(n)) == n
  {
    if n >= 10 {
      var r := FormatNat(n);
      FormatNatDigits(n / 10);
      assert r[..|r| - 1] == FormatNat(n / 10);
    }
  }

  /** `str(n)` starts with the digit 0 only for `n == 0`: no leading zero. */
  lemma {:induction false} FormatNatLeadingDigit(n: nat)
    ensures FormatNat(n)[0] == '0' <==> n == 0
  {
    if n >= 10 {
      FormatNatLeadingDigit(n / 10);
      assert FormatNat(n)[0] == FormatNat(n / 10)[0];
    }
  }

  /** `str(n)` for an int: a minus sign for negative numbers, then the decimal digits. */
  function FormatInt(n: int): string
  {
    if n < 0 then "-" + FormatNat(-n) else FormatNat(n)
  }

  lemma StripUnchanged(s: string)
    requires |s| > 0 && !IsSpace(s[0]) && !IsSpace(s[|s| - 1])
    ensures Strip(s) == s
  {
  }

  /** `int(str(n)) == n`: reading back a formatted timestamp gives the same timestamp. */
  lemma FormatIntRoundTrip(n: int)
    ensures ParseInt(FormatInt(n)) == Some(n)
  {
    var s, digits := FormatInt(n), FormatNat(if n < 0 then -n else n);
    FormatNatDigits(if n < 0 then -n else n);
    assert s[|s| - 1] == digits[|digits| - 1];
    StripUnchanged(s);
    forall k | 0 <= k < |s| ensures !IsSeparatorControl(s[k]) {
      if n < 0 && k > 0 {
        assert s[k] == digits[k - 1];
      }
    }
    ParseSignedFormat(n);
  }

  lemma ParseSignedFormat(n: int)
    ensures ParseSigned(FormatInt(n)) == Some(n)
  {
    var s := FormatInt(n);
    if n < 0 {
      FormatNatDigits(-n);
      assert s[0] == '-' && s[1..] == FormatNat(-n);
      assert ParseDigits(s[1..]) == Some(-n);
    } else {
      FormatNatDigits(n);
      assert IsDigit(s[0]);
      assert ParseDigits(s) == Some(n);
    }
  }
}
