/**
 * The settings record and the colour value of the data handler: `Config`
 * with its defaults and its dictionary import and export, and `Color` with
 * its formats — `"Color(r, g, b)"`, which it parses back, and `#RRGGBB`.
 */
module DataHandler {
  import opened Common
  import opened Text
  import ColorConverter

  /** The attribute values the settings hold. */
  datatype Value = IntV(i: int) | BoolV(b: bool) | StrV(s: string)

  /** The declared fields of `Config`, in declaration order. */
  const FieldNames: seq<string> :=
    ["window_width", "window_height", "window_x", "window_y", "panel_width", "show_fps", "fps", "full_screen"]

  /** The argument of `update` and `from_dict`: a dict, by its items in iteration order, or any other value. */
  datatype Arg = Dict(items: seq<(string, Value)>) | NotDict

  /** The attributes that setting `items` one after the other writes: the last value of each key. */
  function Assigned(items: seq<(string, Value)>): (m: map<string, Value>)
  {
    if |items| == 0 then map[]
    else Assigned(items[..|items| - 1])[items[|items| - 1].0 := items[|items| - 1].1]
  }

  /** A key is written exactly when some item names it. */
  lemma {:induction false} AssignedKeys(items: seq<(string, Value)>, k: string)
    ensures k in Assigned(items) <==> exists i :: 0 <= i < |items| && items[i].0 == k
  {
    if |items| > 0 {
      var init := items[..|items| - 1];
      AssignedKeys(init, k);
      if exists i :: 0 <= i < |init| && init[i].0 == k {
        var i :| 0 <= i < |init| && init[i].0 == k;
        assert items[i].0 == k;
      }
      if exists i :: 0 <= i < |items| && items[i].0 == k {
        var i :| 0 <= i < |items| && items[i].0 == k;
        if i < |init| {
          assert init[i].0 == k;
        }
      }
    }
  }

  /** The value a key ends with is that of the last item naming it. */
  lemma {:induction false} AssignedLast(items: seq<(string, Value)>, j: nat)
    requires j < |items|
    requires forall i :: j < i < |items| ==> items[i].0 != items[j].0
    ensures items[j].0 in Assigned(items) && Assigned(items)[items[j].0] == items[j].1
  {
    var init := items[..|items| - 1];
    if j < |items| - 1 {
      forall i | j < i < |init| ensures init[i].0 != init[j].0 {
        assert items[i].0 != items[j].0;
      }
      AssignedLast(init, j);
    }
  }

  /** The attributes of a config built from the eight constructor arguments. */
  function Fields(windowWidth: int, windowHeight: int, windowX: int, windowY: int,
                  panelWidth: int, showFps: bool, fps: int, fullScreen: bool): (attrs: map<string, Value>)
    ensures forall f :: f in attrs <==> f in FieldNames
  {
    map["window_width" := IntV(windowWidth), "window_height" := IntV(windowHeight),
        "window_x" := IntV(windowX), "window_y" := IntV(windowY),
        "panel_width" := IntV(panelWidth), "show_fps" := BoolV(showFps),
        "fps" := IntV(fps), "full_screen" := BoolV(fullScreen)]
  }

  /** `dataclasses.asdict` of a config: the declared fields and their values. */
  function Declared(attrs: map<string, Value>): (d: map<string, Value>)
    requires forall f :: f in FieldNames ==> f in attrs
    ensures forall f :: f in d <==> f in FieldNames
    ensures forall f :: f in d ==> d[f] == attrs[f]
  {
    map f | f in FieldNames :: attrs[f]
  }

  /** Setting only undeclared keys adds attributes that the exported dict does not show. */
  lemma UndeclaredInvisible(attrs: map<string, Value>, items: seq<(string, Value)>)
    requires forall f :: f in FieldNames ==> f in attrs
    requires forall i :: 0 <= i < |items| ==> items[i].0 !in FieldNames
    ensures Declared(attrs + Assigned(items)) == Declared(attrs)
  {
    var m := attrs + Assigned(items);
    forall f | f in FieldNames ensures f in m && m[f] == attrs[f] {
      AssignedKeys(items, f);
    }
    SameEntries(Declared(m), Declared(attrs));
  }

  /** Two maps with the same keys and the same value at each key are equal. */
  lemma SameEntries(d1: map<string, Value>, d2: map<string, Value>)
    requires forall f :: f in d1 <==> f in d2
    requires forall f :: f in d1 ==> d1[f] == d2[f]
    ensures d1 == d2
  {
  }

  class Config {
    /** The instance's attributes: the declared fields, and any other key `setattr` has added. */
    var attrs: map<string, Value>

    ghost predicate Valid()
      reads this
    {
      forall f :: f in FieldNames ==> f in attrs
    }

    /** The dataclass constructor, with its field defaults. */
    constructor (windowWidth: int := 1280, windowHeight: int := 720, windowX: int := 0, windowY: int := 0,
                 panelWidth: int := 180, showFps: bool := true, fps: int := 60, fullScreen: bool := false)
      ensures Valid()
      ensures attrs == Fields(windowWidth, windowHeight, windowX, windowY, panelWidth, showFps, fps, fullScreen)
    {
      attrs := Fields(windowWidth, windowHeight, windowX, windowY, panelWidth, showFps, fps, fullScreen);
    }

    /** `to_dict`: the eight declared fields with their current values. */
    function ToDict(): (d: map<string, Value>)
      reads this
      requires Valid()
      ensures d == Declared(attrs)
    {
      Declared(attrs)
    }

    /** `update`: a dict's items are set one by one, the last value of a key winning; anything else is a ValueError and changes nothing. */
    method Update(data: Arg) returns (err: Option<Error>)
      requires Valid()
      modifies this
      ensures Valid()
      ensures data.NotDict? ==> err == Some(ValueError) && attrs == old(attrs)
      ensures data.Dict? ==> err.None? && attrs == old(attrs) + Assigned(data.items)
    {
      if data.NotDict? {
        return Some(ValueError);
      }
      var items := data.items;
      for i := 0 to |items|
        invariant Valid()
        invariant attrs == old(attrs) + Assigned(items[..i])
      {
        assert items[..i + 1][..i] == items[..i];
        attrs := attrs[items[i].0 := items[i].1];
      }
      assert items[..|items|] == items;
      return None;
    }

    /** `from_dict`: the same as `update`. */
    method FromDict(data: Arg) returns (err: Option<Error>)
      requires Valid()
      modifies this
      ensures Valid()
      ensures data.NotDict? ==> err == Some(ValueError) && attrs == old(attrs)
      ensures data.Dict? ==> err.None? && attrs == old(attrs) + Assigned(data.items)
    {
      err := Update(data);
    }
  }

  /** A fresh `Config(...)` exports exactly the values it was built with, and nothing else. */
  lemma FreshExport(windowWidth: int, windowHeight: int, windowX: int, windowY: int,
                    panelWidth: int, showFps: bool, fps: int, fullScreen: bool)
    ensures var attrs := Fields(windowWidth, windowHeight, windowX, windowY, panelWidth, showFps, fps, fullScreen);
      (forall f :: f in FieldNames ==> f in attrs) && Declared(attrs) == attrs
  {
    var attrs := Fields(windowWidth, windowHeight, windowX, windowY, panelWidth, showFps, fps, fullScreen);
    SameEntries(Declared(attrs), attrs);
  }

  /** A colour of three integer channels. */
  datatype Color = Color(r: int, g: int, b: int)
  {
    /** The `rgb` property and `get_rgb`. */
    function GetRgb(): (t: (int, int, int))
      ensures t.0 == r && t.1 == g && t.2 == b
    {
      (r, g, b)
    }

    /** `get_rgba(a)`: the channels followed by `a`. */
    function GetRgba(a: int): (t: (int, int, int, int))
      ensures (t.0, t.1, t.2) == GetRgb() && t.3 == a
    {
      (r, g, b, a)
    }

    /** The `hex` property, through `rgb_to_hex`. */
    function Hex(): (s: string)
      ensures |s| >= 7 && s[0] == '#'
    {
      ColorConverter.RgbToHex(GetRgb())
    }

    /** `get_hex`, formatted directly; it agrees with the `hex` property. */
    function GetHex(): (s: string)
      ensures s == Hex()
    {
      "#" + Hex2(r) + Hex2(g) + Hex2(b)
    }

    /** `__str__` and `__repr__`: `Color(` and `)` around the three decimal channels, which split back apart at `", "`. */
    function ToString(): (s: string)
      ensures StartsWith(s, "Color(") && |s| > 6 && s[|s| - 1] == ')'
      ensures Split(s[6..|s| - 1], ", ") == [IntToDecimal(r), IntToDecimal(g), IntToDecimal(b)]
    {
      var body := IntToDecimal(r) + ", " + IntToDecimal(g) + ", " + IntToDecimal(b);
      assert Split(body, ", ") == [IntToDecimal(r), IntToDecimal(g), IntToDecimal(b)] by {
        DecimalChars(r);
        DecimalChars(g);
        DecimalChars(b);
        SplitThree(IntToDecimal(r), IntToDecimal(g), IntToDecimal(b));
      }
      var s := "Color(" + body + ")";
      assert s[6..|s| - 1] == body;
      s
    }
  }

  /** For byte channels, `hex_to_rgb` reads the colour's hex text back to its channels. */
  lemma ColorHexRoundTrip(c: Color)
    requires 0 <= c.r < 256 && 0 <= c.g < 256 && 0 <= c.b < 256
    ensures ColorConverter.HexToRgb(c.GetHex()) == Ok(c.GetRgb())
  {
    ColorConverter.HexRoundTrip(Rgb(c.r, c.g, c.b));
  }

  /** `Color(rgb=t)` for a non-empty tuple: three channels, or a ValueError from the unpacking. */
  function NewColor(rgb: seq<int>): (r: Result<Color>)
    requires |rgb| > 0
    ensures r.Ok? <==> |rgb| == 3
    ensures r.Ok? ==> r.value.GetRgb() == (rgb[0], rgb[1], rgb[2])
    ensures r.Err? ==> r.error == ValueError
  {
    if |rgb| == 3 then Ok(Color(rgb[0], rgb[1], rgb[2])) else Err(ValueError)
  }

  /** `int(x)` of every piece, or the ValueError of the first that fails. */
  function ParseAll(parts: seq<string>): (r: Result<seq<int>>)
    ensures r.Ok? ==> |r.value| == |parts| && forall i :: 0 <= i < |parts| ==> ParseInt(parts[i], 10) == Ok(r.value[i])
    ensures r.Err? ==> r.error == ValueError && exists i :: 0 <= i < |parts| && ParseInt(parts[i], 10).Err?
  {
    if |parts| == 0 then Ok([])
    else
      var head := ParseInt(parts[0], 10);
      if head.Err? then Err(ValueError)
      else
        var tail := ParseAll(parts[1..]);
        if tail.Err? then
          FailureInTail(parts);
          Err(ValueError)
        else
          ParsedCons(parts, head.value, tail.value);
          Ok([head.value] + tail.value)
  }

  /** A piece of the tail that fails to parse is a piece of the whole that fails. */
  lemma FailureInTail(parts: seq<string>)
    requires |parts| > 0 && exists i :: 0 <= i < |parts[1..]| && ParseInt(parts[1..][i], 10).Err?
    ensures exists i :: 0 <= i < |parts| && ParseInt(parts[i], 10).Err?
  {
    var i :| 0 <= i < |parts[1..]| && ParseInt(parts[1..][i], 10).Err?;
    assert parts[i + 1] == parts[1..][i];
  }

  /** The head's value before the tail's values are the values of the whole. */
  lemma ParsedCons(parts: seq<string>, head: int, tail: seq<int>)
    requires |parts| > 0 && ParseInt(parts[0], 10) == Ok(head) && |tail| == |parts| - 1
    requires forall i :: 0 <= i < |tail| ==> ParseInt(parts[1..][i], 10) == Ok(tail[i])
    ensures forall i :: 0 <= i < |parts| ==> ParseInt(parts[i], 10) == Ok(([head] + tail)[i])
  {
    var values := [head] + tail;
    assert values[0] == head;
    forall i | 0 < i < |parts| ensures ParseInt(parts[i], 10) == Ok(values[i]) {
      assert parts[i] == parts[1..][i - 1];
      assert values[i] == tail[i - 1];
    }
  }

  /** The characters `lstrip("Color(")` removes. */
  predicate IsPrefixChar(c: char)
  {
    c in "Color("
  }

  predicate IsCloseParen(c: char)
  {
    c == ')'
  }

  /**
   * `parse_color_from_str`: the text must start with `Color(`; the characters
   * of `Color(` are stripped on the left and `)` on the right, the rest split
   * at `", "` and each piece read with `int`.
   */
  function ParseColorFromStr(text: string): (r: Result<Color>)
    ensures !StartsWith(text, "Color(") ==> r == Err(ValueError)
    ensures r.Err? ==> r.error == ValueError
  {
    if !StartsWith(text, "Color(") then Err(ValueError)
    else
      var inner := DropWhileEnd(DropWhile(text, IsPrefixChar), IsCloseParen);
      var nums := ParseAll(Split(inner, ", "));
      if nums.Err? then Err(ValueError) else NewColor(nums.value)
  }

  /** `str(n)` starts with neither a character of `Color(` nor ends with `)`, and holds no comma. */
  lemma DecimalChars(n: int)
    ensures var s := IntToDecimal(n);
      |s| > 0 && !IsPrefixChar(s[0]) && !IsCloseParen(s[|s| - 1]) && ',' !in s
  {
    var s := IntToDecimal(n);
    DecimalDigitsOrMinus(n);
    assert s[0] == '-' || '0' <= s[0] <= '9';
    forall i | 0 <= i < |s| ensures s[i] != ',' {
    }
  }

  /** The characters of `str(n)`: a minus sign and decimal digits. */
  lemma DecimalDigitsOrMinus(n: int)
    ensures var s := IntToDecimal(n);
      forall i :: 0 <= i < |s| ==> s[i] == '-' || '0' <= s[i] <= '9'
  {
    var m: nat := if n < 0 then -n else n;
    var d := NatToString(m, 10);
    assert forall c :: c in d ==> IsDigitIn(c, 10) by {
      NatToStringDigits(m, 10);
    }
    SignOrDigits(IntToDecimal(n), d, n < 0);
  }

  /** An optional minus sign before decimal digits leaves only those characters. */
  lemma SignOrDigits(s: string, d: string, negative: bool)
    requires forall c :: c in d ==> IsDigitIn(c, 10)
    requires s == (if negative then "-" else "") + d
    ensures forall i :: 0 <= i < |s| ==> s[i] == '-' || '0' <= s[i] <= '9'
  {
    forall i | 0 <= i < |s| ensures s[i] == '-' || '0' <= s[i] <= '9' {
      var k := if negative then i - 1 else i;
      if k >= 0 {
        assert s[i] == d[k] && d[k] in d;
      }
    }
  }

  /** `str(c)` parses back to `c`, for every integer channels. */
  lemma ParseRoundTrip(c: Color)
    ensures ParseColorFromStr(c.ToString()) == Ok(c)
  {
    var body := IntToDecimal(c.r) + ", " + IntToDecimal(c.g) + ", " + IntToDecimal(c.b);
    assert c.ToString() == "Color(" + (body + ")");
    ParseDecimalBody(c, body);
  }

  /** `Color(` and `)` around the decimal channels of `c`, joined by `", "`, parse to `c`. */
  lemma ParseDecimalBody(c: Color, body: string)
    requires body == IntToDecimal(c.r) + ", " + IntToDecimal(c.g) + ", " + IntToDecimal(c.b)
    ensures ParseColorFromStr("Color(" + (body + ")")) == Ok(c)
  {
    var a, b, d := IntToDecimal(c.r), IntToDecimal(c.g), IntToDecimal(c.b);
    var text := "Color(" + (body + ")");
    assert StartsWith(text, "Color(") && DropWhileEnd(DropWhile(text, IsPrefixChar), IsCloseParen) == body by {
      StrippedBody(c, body);
    }
    assert Split(body, ", ") == [a, b, d] by {
      DecimalChars(c.r);
      DecimalChars(c.g);
      DecimalChars(c.b);
      SplitThree(a, b, d);
    }
    assert ParseAll([a, b, d]) == Ok([c.r, c.g, c.b]) by {
      DecimalRoundTrip(c.r);
      DecimalRoundTrip(c.g);
      DecimalRoundTrip(c.b);
      ParseThree(a, b, d, c.r, c.g, c.b);
    }
    assert ParseColorFromStr(text) == NewColor([c.r, c.g, c.b]) by {
      ParseFromBody(text, body, [c.r, c.g, c.b]);
    }
  }

  /** Text whose stripped body splits into pieces that all parse becomes `Color(*values)`. */
  lemma ParseFromBody(text: string, body: string, values: seq<int>)
    requires StartsWith(text, "Color(") && DropWhileEnd(DropWhile(text, IsPrefixChar), IsCloseParen) == body
    requires ParseAll(Split(body, ", ")) == Ok(values)
    ensures ParseColorFromStr(text) == NewColor(values)
  {
  }

  /** Stripping `str(c)` on both sides leaves the three numbers and their separators. */
  lemma StrippedBody(c: Color, body: string)
    requires body == IntToDecimal(c.r) + ", " + IntToDecimal(c.g) + ", " + IntToDecimal(c.b)
    ensures var text := "Color(" + (body + ")");
      StartsWith(text, "Color(") && DropWhileEnd(DropWhile(text, IsPrefixChar), IsCloseParen) == body
  {
    var a, b, d := IntToDecimal(c.r), IntToDecimal(c.g), IntToDecimal(c.b);
    assert !IsPrefixChar(body[0]) && !IsCloseParen(body[|body| - 1]) by {
      DecimalChars(c.r);
      DecimalChars(c.b);
      assert body[0] == a[0];
      assert body[|body| - 1] == d[|d| - 1];
    }
    StripBoth(body);
  }

  /** `("Color(" + body + ")").lstrip("Color(").rstrip(")")` is `body` when `body` starts and ends with no stripped character. */
  lemma StripBoth(body: string)
    requires |body| > 0 && !IsPrefixChar(body[0]) && !IsCloseParen(body[|body| - 1])
    ensures var text := "Color(" + (body + ")");
      StartsWith(text, "Color(") && DropWhileEnd(DropWhile(text, IsPrefixChar), IsCloseParen) == body
  {
    var text := "Color(" + (body + ")");
    assert text[..6] == "Color(";
    assert (body + ")")[0] == body[0];
    DropWhilePrefix("Color(", body + ")", IsPrefixChar);
    assert (body + ")")[..|body + ")"| - 1] == body;
  }

  /** Three pieces without commas, joined by `", "`, split back into the three. */
  lemma SplitThree(a: string, b: string, d: string)
    requires ',' !in a && ',' !in b && ',' !in d
    ensures Split(a + ", " + b + ", " + d, ", ") == [a, b, d]
  {
    assert a + ", " + b + ", " + d == a + ", " + (b + ", " + d);
    SplitFirst(a, ", ", b + ", " + d);
    SplitFirst(b, ", ", d);
    SplitNone(d, ", ");
  }

  lemma ParseThree(a: string, b: string, d: string, x: int, y: int, z: int)
    requires ParseInt(a, 10) == Ok(x) && ParseInt(b, 10) == Ok(y) && ParseInt(d, 10) == Ok(z)
    ensures ParseAll([a, b, d]) == Ok([x, y, z])
  {
    ParseTwo(b, d, y, z);
    ParseCons(a, [b, d], x, [y, z]);
    assert [a] + [b, d] == [a, b, d] && [x] + [y, z] == [x, y, z];
  }

  lemma ParseTwo(b: string, d: string, y: int, z: int)
    requires ParseInt(b, 10) == Ok(y) && ParseInt(d, 10) == Ok(z)
    ensures ParseAll([b, d]) == Ok([y, z])
  {
    ParseCons(d, [], z, []);
    assert [d] + [] == [d] && [z] + [] == [z];
    ParseCons(b, [d], y, [z]);
    assert [b] + [d] == [b, d] && [y] + [z] == [y, z];
  }

  lemma ParseCons(p: string, rest: seq<string>, v: int, vs: seq<int>)
    requires ParseInt(p, 10) == Ok(v) && ParseAll(rest) == Ok(vs)
    ensures ParseAll([p] + rest) == Ok([v] + vs)
  {
    assert ([p] + rest)[0] == p && ([p] + rest)[1..] == rest;
  }
}
