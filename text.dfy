/**
 * The few pieces of Python's string behaviour the modelled code relies on:
 * `str.strip` and friends, `str.split` with a separator, `int(text, base)`
 * and integer formatting in decimal and in upper-case hexadecimal.
 */
module Text {
  import opened Common

  /** Python's `str.isspace` for one character. */
  predicate IsSpace(c: char)
  {
    || c == ' ' || '\t' <= c <= '\r' || '\U{1c}' <= c <= '\U{1f}'
    || c == '\U{85}' || c == '\U{a0}' || c == '\U{1680}' || '\U{2000}' <= c <= '\U{200a}'
    || c == '\U{2028}' || c == '\U{2029}' || c == '\U{202f}' || c == '\U{205f}' || c == '\U{3000}'
  }

  /** `s.lstrip(chars)`, where `drop(c)` holds exactly for the characters in `chars`. */
  function DropWhile(s: string, drop: char -> bool): (r: string)
    ensures |r| <= |s| && r == s[|s| - |r|..]
    ensures |r| > 0 ==> !drop(r[0])
  {
    if |s| > 0 && drop(s[0]) then DropWhile(s[1..], drop) else s
  }

  /** `s.rstrip(chars)`. */
  function DropWhileEnd(s: string, drop: char -> bool): (r: string)
    ensures |r| <= |s| && r == s[..|r|]
    ensures |r| > 0 ==> !drop(r[|r| - 1])
  {
    if |s| > 0 && drop(s[|s| - 1]) then DropWhileEnd(s[..|s| - 1], drop) else s
  }

  /** A prefix of characters that `drop` accepts goes, up to the first one it refuses. */
  lemma {:induction false} DropWhilePrefix(p: string, rest: string, drop: char -> bool)
    requires forall i :: 0 <= i < |p| ==> drop(p[i])
    requires |rest| > 0 && !drop(rest[0])
    ensures DropWhile(p + rest, drop) == rest
  {
    if |p| > 0 {
      assert (p + rest)[1..] == p[1..] + rest;
      DropWhilePrefix(p[1..], rest, drop);
    } else {
      assert p + rest == rest;
    }
  }

  /** `s.strip()`: no leading or trailing whitespace remains. */
  function Strip(s: string): string
  {
    DropWhileEnd(DropWhile(s, IsSpace), IsSpace)
  }

  lemma StripNoSpaceEnds(s: string)
    requires |s| > 0 && !IsSpace(s[0]) && !IsSpace(s[|s| - 1])
    ensures Strip(s) == s
  {
  }

  /** Python's `s[i:j]` for `0 <= i <= j`: the bounds are cut down to the length. */
  function Slice(s: string, i: nat, j: nat): (r: string)
    requires i <= j
    ensures |r| <= j - i
    ensures j <= |s| ==> r == s[i..j]
  {
    var hi := if j <= |s| then j else |s|;
    var lo := if i <= hi then i else hi;
    s[lo..hi]
  }

  predicate StartsWith(s: string, prefix: string)
  {
    |prefix| <= |s| && s[..|prefix|] == prefix
  }

  /** `sep` occurs in `s` at index `i`. */
  predicate OccursAt(s: string, sep: string, i: nat)
  {
    i + |sep| <= |s| && s[i..i + |sep|] == sep
  }

  /** The index of the first occurrence of `sep` in `s` at or after `from`, if any. */
  function Find(s: string, sep: string, from: nat): (r: Option<nat>)
    requires |sep| > 0
    ensures r.Some? ==> from <= r.value && OccursAt(s, sep, r.value)
    ensures r.Some? ==> forall i: nat :: from <= i < r.value ==> !OccursAt(s, sep, i)
    ensures r.None? ==> forall i: nat :: from <= i ==> !OccursAt(s, sep, i)
    decreases |s| - from
  {
    if from + |sep| > |s| then None
    else if s[from..from + |sep|] == sep then Some(from)
    else Find(s, sep, from + 1)
  }

  /** `s.split(sep)`: the pieces between the non-overlapping occurrences of `sep`, left to right. */
  function Split(s: string, sep: string): (parts: seq<string>)
    requires |sep| > 0
    ensures |parts| >= 1
    decreases |s|
  {
    match Find(s, sep, 0)
    case None => [s]
    case Some(i) => [s[..i]] + Split(s[i + |sep|..], sep)
  }

  /** `sep.join(parts)`. */
  function Join(parts: seq<string>, sep: string): string
    requires |parts| >= 1
  {
    if |parts| == 1 then parts[0] else parts[0] + sep + Join(parts[1..], sep)
  }

  /** Joining the pieces of a split with the separator gives the text back. */
  lemma {:induction false} JoinSplit(s: string, sep: string)
    requires |sep| > 0
    ensures Join(Split(s, sep), sep) == s
    decreases |s|
  {
    var f := Find(s, sep, 0);
    if f.Some? {
      var i := f.value;
      var rest := s[i + |sep|..];
      assert Split(s, sep) == [s[..i]] + Split(rest, sep);
      JoinSplit(rest, sep);
      JoinCons(s[..i], Split(rest, sep), sep);
      Rejoin(s, sep, i);
    }
  }

  lemma JoinCons(a: string, rest: seq<string>, sep: string)
    requires |rest| >= 1
    ensures Join([a] + rest, sep) == a + sep + Join(rest, sep)
  {
    assert ([a] + rest)[1..] == rest;
  }

  /** Text with `sep` at `i` is the part before, `sep`, and the part after. */
  lemma Rejoin(s: string, sep: string, i: nat)
    requires OccursAt(s, sep, i)
    ensures s == s[..i] + sep + s[i + |sep|..]
  {
    assert s == s[..i] + s[i..i + |sep|] + s[i + |sep|..];
  }

  /** Splitting text that starts with a piece holding no `sep`, then `sep`. */
  lemma SplitFirst(a: string, sep: string, rest: string)
    requires |sep| > 0 && sep[0] !in a
    ensures Split(a + sep + rest, sep) == [a] + Split(rest, sep)
  {
    var s := a + sep + rest;
    assert OccursAt(s, sep, |a|) by {
      assert s[|a|..|a| + |sep|] == sep;
    }
    forall i: nat | i < |a| ensures !OccursAt(s, sep, i) {
      assert s[i] == a[i];
    }
    var f := Find(s, sep, 0);
    assert f == Some(|a|);
    assert s[..|a|] == a;
    assert s[|a| + |sep|..] == rest;
  }

  lemma SplitNone(s: string, sep: string)
    requires |sep| > 0 && sep[0] !in s
    ensures Split(s, sep) == [s]
  {
    forall i: nat | i < |s| ensures !OccursAt(s, sep, i) {
      assert s[i] in s;
    }
    assert Find(s, sep, 0).None?;
  }

  /** The value of a digit character in bases up to 36, or -1. */
  function DigitValue(c: char): int
  {
    if '0' <= c <= '9' then c as int - '0' as int
    else if 'a' <= c <= 'z' then c as int - 'a' as int + 10
    else if 'A' <= c <= 'Z' then c as int - 'A' as int + 10
    else -1
  }

  predicate IsDigitIn(c: char, base: nat)
  {
    0 <= DigitValue(c) < base
  }

  /** The character at `i` is a digit, or a `_` followed by a digit. */
  predicate DigitOrJoin(d: string, i: nat, base: nat)
    requires i < |d|
  {
    IsDigitIn(d[i], base) || (d[i] == '_' && i + 1 < |d| && IsDigitIn(d[i + 1], base))
  }

  /** Digits of `base`, where a single `_` may stand between two digits. */
  predicate ValidDigits(d: string, base: nat)
  {
    && |d| > 0 && IsDigitIn(d[0], base)
    && forall i: nat :: i < |d| ==> DigitOrJoin(d, i, base)
  }

  /** The number a run of digits denotes; underscores are skipped. */
  function DigitsValue(d: string, base: nat): nat
  {
    if |d| == 0 then 0
    else
      var last := d[|d| - 1];
      var high := DigitsValue(d[..|d| - 1], base);
      if 0 <= DigitValue(last) then high * base + DigitValue(last) else high
  }

  /** The digits after an optional `0x`/`0X` prefix (and one `_` after it) in base 16. */
  function DigitsAfterPrefix(u: string, base: nat): string
  {
    if base == 16 && |u| >= 2 && u[0] == '0' && (u[1] == 'x' || u[1] == 'X') then
      if |u| >= 3 && u[2] == '_' then u[3..] else u[2..]
    else u
  }

  /**
   * Python's `int(text, base)` for ASCII digits: surrounding whitespace is
   * ignored, one sign may precede the digits, and anything else is a ValueError.
   */
  function ParseInt(text: string, base: nat): (r: Result<int>)
    requires base == 10 || base == 16
    ensures r.Err? ==> r.error == ValueError
  {
    ParseSigned(Strip(text), base)
  }

  /** `int(t, base)` for text `t` that has already been stripped. */
  function ParseSigned(t: string, base: nat): (r: Result<int>)
    requires base == 10 || base == 16
    ensures r.Err? ==> r.error == ValueError
  {
    var negative := |t| > 0 && t[0] == '-';
    var u := if |t| > 0 && (t[0] == '+' || t[0] == '-') then t[1..] else t;
    var d := DigitsAfterPrefix(u, base);
    var v: int := DigitsValue(d, base);
    if ValidDigits(d, base) then Ok(if negative then -v else v)
    else Err(ValueError)
  }

  function DigitChar(d: nat): (c: char)
    requires d < 16
    ensures DigitValue(c) == d
  {
    "0123456789ABCDEF"[d]
  }

  /** The digits of `n` in `base`, most significant first, without leading zeros. */
  function NatToString(n: nat, base: nat): (s: string)
    requires base == 10 || base == 16
    ensures |s| > 0
  {
    if n < base then [DigitChar(n)] else NatToString(n / base, base) + [DigitChar(n % base)]
  }

  /** `str(n)` for an integer. */
  function IntToDecimal(n: int): (s: string)
    ensures |s| > 0
  {
    if n < 0 then "-" + NatToString(-n, 10) else NatToString(n, 10)
  }

  /** `f"{n:02X}"`: upper-case hexadecimal, zero-padded to two characters after any sign. */
  function Hex2(n: int): (s: string)
    ensures |s| >= 2
  {
    if n < 0 then "-" + NatToString(-n, 16)
    else
      var d := NatToString(n, 16);
      if |d| < 2 then "0" + d else d
  }

  /** Formatting in `base` produces valid digits that denote `n` again. */
  lemma {:induction false} NatToStringDigits(n: nat, base: nat)
    requires base == 10 || base == 16
    ensures ValidDigits(NatToString(n, base), base)
    ensures DigitsValue(NatToString(n, base), base) == n
    ensures forall c :: c in NatToString(n, base) ==> IsDigitIn(c, base)
  {
    var s := NatToString(n, base);
    if n >= base {
      NatToStringDigits(n / base, base);
      var h := NatToString(n / base, base);
      assert s == h + [DigitChar(n % base)];
      assert s[..|s| - 1] == h;
      assert DigitsValue(s, base) == (n / base) * base + n % base;
      forall i | 0 <= i < |s| ensures IsDigitIn(s[i], base) {
        if i < |h| {
          assert s[i] == h[i] && h[i] in h;
        }
      }
      forall i: nat | i < |s| ensures DigitOrJoin(s, i, base) {
        assert s[i] in s;
      }
    }
  }

  /** `int(sign + digits, base)` for a sign of `""` or `"-"` and well-formed digits. */
  lemma ParseSignedDigits(negative: bool, d: string, base: nat)
    requires base == 10 || base == 16
    requires ValidDigits(d, base)
    ensures var v: int := DigitsValue(d, base);
      ParseInt((if negative then "-" else "") + d, base) == Ok(if negative then -v else v)
  {
    var s := (if negative then "-" else "") + d;
    assert DigitOrJoin(d, |d| - 1, base);
    assert s[|s| - 1] == d[|d| - 1];
    StripNoSpaceEnds(s);
    SignedDigits(negative, d, base);
  }

  lemma SignedDigits(negative: bool, d: string, base: nat)
    requires base == 10 || base == 16
    requires ValidDigits(d, base)
    ensures var v: int := DigitsValue(d, base);
      ParseSigned((if negative then "-" else "") + d, base) == Ok(if negative then -v else v)
  {
    var s := (if negative then "-" else "") + d;
    var u := if |s| > 0 && (s[0] == '+' || s[0] == '-') then s[1..] else s;
    if negative {
      assert s[0] == '-' && s[1..] == d;
    } else {
      assert s == d && s[0] != '+' && s[0] != '-';
    }
    assert u == d;
    if |d| >= 2 {
      assert DigitOrJoin(d, 1, base);
    }
    assert DigitsAfterPrefix(d, base) == d;
  }

  /** `int(str(n))` gives `n` back. */
  lemma DecimalRoundTrip(n: int)
    ensures ParseInt(IntToDecimal(n), 10) == Ok(n)
  {
    var m: nat := if n < 0 then -n else n;
    NatToStringDigits(m, 10);
    ParseSignedDigits(n < 0, NatToString(m, 10), 10);
    assert IntToDecimal(n) == (if n < 0 then "-" else "") + NatToString(m, 10);
  }

  /** A two-character hexadecimal field `f"{n:02X}"` of a byte parses back to the byte. */
  lemma Hex2RoundTrip(n: int)
    requires 0 <= n < 256
    ensures |Hex2(n)| == 2
    ensures IsDigitIn(Hex2(n)[0], 16) && IsDigitIn(Hex2(n)[1], 16)
    ensures ParseInt(Hex2(n), 16) == Ok(n)
  {
    var hi, lo := n / 16, n % 16;
    var s := Hex2(n);
    assert s == [DigitChar(hi), DigitChar(lo)] by {
      if n < 16 {
        assert NatToString(n, 16) == [DigitChar(n)];
      } else {
        assert NatToString(hi, 16) == [DigitChar(hi)];
      }
    }
    assert DigitsValue(s[..1], 16) == hi by {
      assert s[..1][..0] == [];
    }
    assert s[..|s| - 1] == s[..1];
    assert DigitsValue(s, 16) == n;
    assert DigitOrJoin(s, 0, 16) && DigitOrJoin(s, 1, 16);
    ParseSignedDigits(false, s, 16);
    assert "" + s == s;
  }

  /** A run of `k` digits (and underscores) denotes a number below `base^k`. */
  lemma {:induction false} DigitsValueBound(d: string, base: nat)
    requires base == 10 || base == 16
    requires forall i :: 0 <= i < |d| ==> IsDigitIn(d[i], base) || d[i] == '_'
    ensures DigitsValue(d, base) < Pow(base, |d|)
  {
    if |d| > 0 {
      assert IsDigitIn(d[|d| - 1], base) || d[|d| - 1] == '_';
      DigitsValueBound(d[..|d| - 1], base);
      var high := DigitsValue(d[..|d| - 1], base);
      var p := Pow(base, |d| - 1);
      assert high + 1 <= p;
      assert (high + 1) * base <= p * base;
    }
  }

  function Pow(base: nat, k: nat): nat
  {
    if k == 0 then 1 else Pow(base, k - 1) * base
  }

  /** Whatever `int(s, 16)` makes of at most two characters lies in `-15..255`, and in `0..255` without a minus sign. */
  lemma ParseHexShortBound(s: string)
    requires |s| <= 2
    ensures ParseInt(s, 16).Ok? ==> -15 <= ParseInt(s, 16).value <= 255
    ensures ParseInt(s, 16).Ok? && '-' !in s ==> 0 <= ParseInt(s, 16).value
  {
    var t := Strip(s);
    StripFirstIn(s);
    SignedHexShortBound(t);
  }

  /** The first character left by stripping is a character of the text. */
  lemma StripFirstIn(s: string)
    ensures |Strip(s)| <= |s|
    ensures |Strip(s)| > 0 ==> Strip(s)[0] in s
  {
    var t := Strip(s);
    if |t| > 0 {
      assert t == s[|s| - |DropWhile(s, IsSpace)|..][..|t|];
      assert t[0] in s;
    }
  }

  /** `int(t, 16)` on already stripped text of at most two characters lies in `-15..255`, and in `0..255` without a leading minus. */
  lemma SignedHexShortBound(t: string)
    requires |t| <= 2
    ensures ParseSigned(t, 16).Ok? ==> -15 <= ParseSigned(t, 16).value <= 255
    ensures ParseSigned(t, 16).Ok? && (|t| == 0 || t[0] != '-') ==> 0 <= ParseSigned(t, 16).value
  {
    var u := if |t| > 0 && (t[0] == '+' || t[0] == '-') then t[1..] else t;
    var d := DigitsAfterPrefix(u, 16);
    assert |d| <= |u| <= |t|;
    if ValidDigits(d, 16) {
      forall i | 0 <= i < |d| ensures IsDigitIn(d[i], 16) || d[i] == '_' {
        assert DigitOrJoin(d, i, 16);
      }
      DigitsValueBound(d, 16);
      assert Pow(16, 1) == 16 && Pow(16, 2) == 256;
      if |t| > 0 && t[0] == '-' {
        assert |d| <= 1;
      }
    }
  }
}
