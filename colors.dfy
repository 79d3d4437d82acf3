/**
 * Conversion between RGB triples and `#RRGGBB` strings: formatting writes
 * two upper-case hexadecimal digits per channel, parsing drops leading `#`
 * characters and reads three two-character fields with `int(field, 16)`.
 */
module ColorConverter {
  import opened Common
  import opened Text

  /** `rgb_to_hex`: `"#"` and each channel as `f"{v:02X}"`. */
  function RgbToHex(rgb: (int, int, int)): (s: string)
    ensures |s| >= 7 && s[0] == '#'
  {
    "#" + Hex2(rgb.0) + Hex2(rgb.1) + Hex2(rgb.2)
  }

  predicate IsUpperHexDigit(c: char)
  {
    '0' <= c <= '9' || 'A' <= c <= 'F'
  }

  predicate IsHash(c: char)
  {
    c == '#'
  }

  /** The channels of `s` after its leading `#` characters, as `hex_to_rgb` slices them. */
  function HexFields(s: string): (fields: (string, string, string))
    ensures |fields.0| <= 2 && |fields.1| <= 2 && |fields.2| <= 2
  {
    var t := DropWhile(s, IsHash);
    (Slice(t, 0, 2), Slice(t, 2, 4), Slice(t, 4, 6))
  }

  /** `hex_to_rgb`: each of the three fields read by `int(field, 16)`; a field that does not parse is a ValueError. */
  function HexToRgb(s: string): (r: Result<(int, int, int)>)
    ensures r.Err? ==> r.error == ValueError
    ensures r.Ok? <==> var f := HexFields(s);
      ParseInt(f.0, 16).Ok? && ParseInt(f.1, 16).Ok? && ParseInt(f.2, 16).Ok?
  {
    var f := HexFields(s);
    var r, g, b := ParseInt(f.0, 16), ParseInt(f.1, 16), ParseInt(f.2, 16);
    if r.Err? || g.Err? || b.Err? then Err(ValueError) else Ok((r.value, g.value, b.value))
  }

  /** The two digits of a byte, as `f"{n:02X}"` writes them. */
  lemma Hex2Digits(n: int)
    requires 0 <= n < 256
    ensures Hex2(n) == [DigitChar(n / 16), DigitChar(n % 16)]
  {
    if n < 16 {
      assert NatToString(n, 16) == [DigitChar(n)];
    } else {
      assert NatToString(n / 16, 16) == [DigitChar(n / 16)];
    }
  }

  lemma DigitCharUpper(d: nat)
    requires d < 16
    ensures IsUpperHexDigit(DigitChar(d))
  {
    var digits := "0123456789ABCDEF";
    assert forall i :: 0 <= i < 16 ==> IsUpperHexDigit(digits[i]);
  }

  /** For bytes, the text is `#` and six upper-case hexadecimal digits. */
  lemma RgbToHexShape(c: Rgb)
    ensures var s := RgbToHex((c.r, c.g, c.b));
      |s| == 7 && s[0] == '#' && forall i :: 1 <= i < 7 ==> IsUpperHexDigit(s[i])
  {
    var a, b, d := Hex2(c.r), Hex2(c.g), Hex2(c.b);
    Hex2Upper(c.r);
    Hex2Upper(c.g);
    Hex2Upper(c.b);
    var s := "#" + a + b + d;
    assert s[1] == a[0] && s[2] == a[1] && s[3] == b[0] && s[4] == b[1] && s[5] == d[0] && s[6] == d[1];
  }

  /** Both digits of a byte are upper-case hexadecimal digits. */
  lemma Hex2Upper(n: int)
    requires 0 <= n < 256
    ensures |Hex2(n)| == 2 && IsUpperHexDigit(Hex2(n)[0]) && IsUpperHexDigit(Hex2(n)[1])
  {
    Hex2Digits(n);
    DigitCharUpper(n / 16);
    DigitCharUpper(n % 16);
  }

  /** The fields of `#` followed by three two-character groups are those groups. */
  lemma FieldsOfGroups(hashes: string, a: string, b: string, c: string)
    requires forall i :: 0 <= i < |hashes| ==> IsHash(hashes[i])
    requires |a| == 2 && |b| == 2 && |c| == 2 && a[0] != '#'
    ensures HexFields(hashes + a + b + c) == (a, b, c)
  {
    var t := a + b + c;
    assert hashes + a + b + c == hashes + t;
    DropWhilePrefix(hashes, t, IsHash);
    assert t[0..2] == a && t[2..4] == b && t[4..6] == c;
  }

  /** `hex_to_rgb` of a text whose fields parse is the triple of their values. */
  lemma ParsedFields(s: string, x: int, y: int, z: int)
    requires var f := HexFields(s);
      ParseInt(f.0, 16) == Ok(x) && ParseInt(f.1, 16) == Ok(y) && ParseInt(f.2, 16) == Ok(z)
    ensures HexToRgb(s) == Ok((x, y, z))
  {
  }

  /** `hex_to_rgb(rgb_to_hex(c)) == c` for every colour with byte channels. */
  lemma HexRoundTrip(c: Rgb)
    ensures HexToRgb(RgbToHex((c.r, c.g, c.b))) == Ok((c.r, c.g, c.b))
  {
    var a, b, d := Hex2(c.r), Hex2(c.g), Hex2(c.b);
    var s := RgbToHex((c.r, c.g, c.b));
    assert HexFields(s) == (a, b, d) by {
      Hex2Upper(c.r);
      Hex2Upper(c.g);
      Hex2Upper(c.b);
      HashGroups(a, b, d);
    }
    assert ParseInt(a, 16) == Ok(c.r as int) by { Hex2RoundTrip(c.r); }
    assert ParseInt(b, 16) == Ok(c.g as int) by { Hex2RoundTrip(c.g); }
    assert ParseInt(d, 16) == Ok(c.b as int) by { Hex2RoundTrip(c.b); }
    ParsedFields(s, c.r, c.g, c.b);
  }

  /** The fields of `#` and three two-character groups are the groups. */
  lemma HashGroups(a: string, b: string, d: string)
    requires |a| == 2 && |b| == 2 && |d| == 2 && a[0] != '#'
    ensures HexFields("#" + a + b + d) == (a, b, d)
  {
    FieldsOfGroups("#", a, b, d);
  }

  /** Whatever parses, each channel lies in `-15..255`, and in `0..255` when the text has no minus sign. */
  lemma HexToRgbBound(s: string)
    ensures HexToRgb(s).Ok? ==> var v := HexToRgb(s).value;
      -15 <= v.0 <= 255 && -15 <= v.1 <= 255 && -15 <= v.2 <= 255
    ensures HexToRgb(s).Ok? && '-' !in s ==> var v := HexToRgb(s).value;
      0 <= v.0 && 0 <= v.1 && 0 <= v.2
  {
    var t := DropWhile(s, IsHash);
    var f := HexFields(s);
    ParseHexShortBound(f.0);
    ParseHexShortBound(f.1);
    ParseHexShortBound(f.2);
    if '-' !in s {
      SliceNoMinus(s, t, 0, 2);
      SliceNoMinus(s, t, 2, 4);
      SliceNoMinus(s, t, 4, 6);
    }
  }

  lemma SliceNoMinus(s: string, t: string, i: nat, j: nat)
    requires '-' !in s && |t| <= |s| && t == s[|s| - |t|..] && i <= j
    ensures '-' !in Slice(t, i, j)
  {
    assert '-' !in t by {
      forall k | 0 <= k < |t| ensures t[k] != '-' {
        assert t[k] == s[|s| - |t| + k];
      }
    }
    var r := Slice(t, i, j);
    var hi := if j <= |t| then j else |t|;
    var lo := if i <= hi then i else hi;
    assert r == t[lo..hi];
    forall k | 0 <= k < |r| ensures r[k] != '-' {
      assert r[k] == t[lo + k];
    }
  }

  /** `str.lower` on the ASCII letters. */
  function ToLower(s: string): (r: string)
    ensures |r| == |s|
    ensures forall i :: 0 <= i < |s| ==> r[i] == (if 'A' <= s[i] <= 'Z' then (s[i] as int + 32) as char else s[i])
  {
    if |s| == 0 then "" else
      [if 'A' <= s[0] <= 'Z' then (s[0] as int + 32) as char else s[0]] + ToLower(s[1..])
  }

  lemma ToLowerConcat(x: string, y: string)
    ensures ToLower(x + y) == ToLower(x) + ToLower(y)
  {
    var l, r := ToLower(x + y), ToLower(x) + ToLower(y);
    assert forall i :: 0 <= i < |x| ==> (x + y)[i] == x[i];
    assert forall i :: |x| <= i < |x| + |y| ==> (x + y)[i] == y[i - |x|];
    assert forall i :: 0 <= i < |l| ==> l[i] == r[i];
  }

  /** Two hexadecimal digits denote `16 * first + second`. */
  lemma TwoDigitsValue(d: string)
    requires |d| == 2 && IsDigitIn(d[0], 16) && IsDigitIn(d[1], 16)
    ensures DigitsValue(d, 16) == DigitValue(d[0]) * 16 + DigitValue(d[1])
  {
    var init := d[..1];
    assert init[..0] == [] && init[0] == d[0];
    assert DigitsValue(init, 16) == DigitValue(d[0]);
    assert d[..|d| - 1] == init;
  }

  /** Two hexadecimal digits read as `16 * first + second`. */
  lemma TwoHexDigits(d: string)
    requires |d| == 2 && IsDigitIn(d[0], 16) && IsDigitIn(d[1], 16)
    ensures ParseInt(d, 16).Ok? && ParseInt(d, 16).value == DigitValue(d[0]) * 16 + DigitValue(d[1])
  {
    assert DigitOrJoin(d, 0, 16) && DigitOrJoin(d, 1, 16);
    assert ValidDigits(d, 16);
    TwoDigitsValue(d);
    ParseSignedDigits(false, d, 16);
    var v: int := DigitsValue(d, 16);
    assert (if false then "-" else "") + d == d;
    assert ParseInt(d, 16) == Ok(v);
    assert v == DigitValue(d[0]) * 16 + DigitValue(d[1]);
  }

  /** Lower-case digits are read like upper-case ones: the lower-cased text of a colour parses back to it. */
  lemma LowercaseAccepted(c: Rgb)
    ensures HexToRgb(ToLower(RgbToHex((c.r, c.g, c.b)))) == Ok((c.r, c.g, c.b))
  {
    var h1, h2, h3 := Hex2(c.r), Hex2(c.g), Hex2(c.b);
    var l1, l2, l3 := ToLower(h1), ToLower(h2), ToLower(h3);
    var s := ToLower(RgbToHex((c.r, c.g, c.b)));
    assert s == "#" + l1 + l2 + l3 by {
      assert RgbToHex((c.r, c.g, c.b)) == "#" + h1 + h2 + h3;
      ToLowerConcat("#" + h1 + h2, h3);
      ToLowerConcat("#" + h1, h2);
      ToLowerConcat("#", h1);
      assert ToLower("#") == "#";
    }
    assert HexFields(s) == (l1, l2, l3) by {
      LowerGroup(c.r);
      LowerGroup(c.g);
      LowerGroup(c.b);
      HashGroups(l1, l2, l3);
    }
    assert ParseInt(l1, 16) == Ok(c.r as int) by { LowerGroup(c.r); }
    assert ParseInt(l2, 16) == Ok(c.g as int) by { LowerGroup(c.g); }
    assert ParseInt(l3, 16) == Ok(c.b as int) by { LowerGroup(c.b); }
    ParsedFields(s, c.r, c.g, c.b);
  }

  /** The lower-cased two digits of a byte are hexadecimal digits and still read as the byte. */
  lemma LowerGroup(n: int)
    requires 0 <= n < 256
    ensures |ToLower(Hex2(n))| == 2 && ToLower(Hex2(n))[0] != '#'
    ensures var r := ParseInt(ToLower(Hex2(n)), 16); r.Ok? && r.value == n
  {
    var h := Hex2(n);
    assert |h| == 2 && IsUpperHexDigit(h[0]) && IsUpperHexDigit(h[1])
        && DigitValue(h[0]) == n / 16 && DigitValue(h[1]) == n % 16 by {
      Hex2Digits(n);
      DigitCharUpper(n / 16);
      DigitCharUpper(n % 16);
    }
    LowerPair(h);
  }

  /** Two upper-case hexadecimal digits, lower-cased, read as the same number. */
  lemma LowerPair(h: string)
    requires |h| == 2 && IsUpperHexDigit(h[0]) && IsUpperHexDigit(h[1])
    ensures |ToLower(h)| == 2 && ToLower(h)[0] != '#'
    ensures var r := ParseInt(ToLower(h), 16); r.Ok? && r.value == DigitValue(h[0]) * 16 + DigitValue(h[1])
  {
    var l := ToLower(h);
    assert DigitValue(l[0]) == DigitValue(h[0]) && DigitValue(l[1]) == DigitValue(h[1]) by {
      LowerDigitValue(h[0]);
      LowerDigitValue(h[1]);
    }
    TwoHexDigits(l);
  }

  /** Lower-casing an upper-case hexadecimal digit keeps its value. */
  lemma LowerDigitValue(c: char)
    requires IsUpperHexDigit(c)
    ensures var l := if 'A' <= c <= 'Z' then (c as int + 32) as char else c;
      l != '#' && DigitValue(l) == DigitValue(c)
  {
  }
}
