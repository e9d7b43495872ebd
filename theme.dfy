// The club's theme colours: CSS `#RRGGBB` notation (section 5.2 of CSS Color
// Module Level 4, six-digit form only) turned into the "r g b" triples the
// style sheet's custom properties hold, and the rule that only colours that
// parse are applied.

module Theme {
  import opened Base
  import opened Text
  import opened Domain

  type Channel = x: nat | x < 256

  datatype Rgb = Rgb(red: Channel, green: Channel, blue: Channel)

  predicate AllHex(s: string)
  {
    forall i :: 0 <= i < |s| ==> IsHexDigit(s[i])
  }

  /** The value of the two hexadecimal digits at `i` and `i + 1`. */
  function HexByte(s: string, i: nat): (v: Channel)
    requires i + 1 < |s| && IsHexDigit(s[i]) && IsHexDigit(s[i + 1])
  {
    HexValue(s[i]) * 16 + HexValue(s[i + 1])
  }

  /** The pattern `^#?([a-f\d]{2})([a-f\d]{2})([a-f\d]{2})$` with the `i`
      flag: an optional '#', then exactly six hexadecimal digits of either
      case, read as three channels. */
  function ParseHexColor(hex: string): Option<Rgb>
  {
    var digits := if |hex| > 0 && hex[0] == '#' then hex[1..] else hex;
    if |digits| == 6 && AllHex(digits) then
      Some(Rgb(HexByte(digits, 0), HexByte(digits, 2), HexByte(digits, 4)))
    else None
  }

  /** The space-separated decimal channels of a colour, as a custom property
      value. */
  function FormatRgb(c: Rgb): string
  {
    Dec(c.red) + " " + Dec(c.green) + " " + Dec(c.blue)
  }

  /** `hexToRgb`: the custom-property value of a colour, `None` for `null`. */
  function HexToRgb(hex: string): (r: Option<string>)
    ensures r.Some? ==> r.value != []
  {
    match ParseHexColor(hex)
    case Some(c) => Some(FormatRgb(c))
    case None => None
  }

  /** A colour is accepted exactly when it is six hexadecimal digits, with or
      without one leading '#'. */
  lemma AcceptedIff(hex: string)
    ensures HexToRgb(hex).Some? <==>
              (|hex| == 6 && AllHex(hex)) || (|hex| == 7 && hex[0] == '#' && AllHex(hex[1..]))
  {
    if |hex| == 6 && AllHex(hex) {
      assert hex[0] != '#';
    }
  }

  /** The lower-case hexadecimal digit of a value below 16. */
  function HexDigitChar(v: nat): (c: char)
    requires v < 16
    ensures IsHexDigit(c) && HexValue(c) == v
  {
    if v < 10 then DigitChar(v) else (('a' as int) + v - 10) as char
  }

  /** The `#rrggbb` notation of a colour, as the settings page stores it. */
  function ToHex(c: Rgb): (r: string)
    ensures |r| == 7 && r[0] == '#' && AllHex(r[1..])
  {
    ['#', HexDigitChar(c.red / 16), HexDigitChar(c.red % 16),
     HexDigitChar(c.green / 16), HexDigitChar(c.green % 16),
     HexDigitChar(c.blue / 16), HexDigitChar(c.blue % 16)]
  }

  /** Reading back the notation of a colour gives the colour, with the '#'
      and without it. */
  lemma ParseToHex(c: Rgb)
    ensures ParseHexColor(ToHex(c)) == Some(c)
    ensures ParseHexColor(ToHex(c)[1..]) == Some(c)
  {
    var h := ToHex(c);
    assert h[1..][1] != '#' && h[1..][0] != '#' by {
      assert IsHexDigit(h[1]);
    }
  }

  /** A colour written in the `#rrggbb` notation, with or without the '#',
      becomes its three decimal channels separated by single spaces. */
  lemma HexToRgbOfToHex(c: Rgb)
    ensures HexToRgb(ToHex(c)) == Some(Dec(c.red) + " " + Dec(c.green) + " " + Dec(c.blue))
    ensures HexToRgb(ToHex(c)[1..]) == HexToRgb(ToHex(c))
  {
    ParseToHex(c);
  }

  /** The custom-property value reads back as the colour: `parseInt` of the
      value and of what follows each space gives the three channels. */
  lemma FormatRgbReadsBack(c: Rgb)
    ensures var v := FormatRgb(c);
            var i := |Dec(c.red)|;
            var j := i + 1 + |Dec(c.green)|;
            && |v| == j + 1 + |Dec(c.blue)| && v[i] == ' ' && v[j] == ' '
            && ParseInt(v) == Some(c.red as int)
            && ParseInt(v[i + 1..]) == Some(c.green as int)
            && ParseInt(v[j + 1..]) == Some(c.blue as int)
  {
    var red, green, blue := Dec(c.red), Dec(c.green), Dec(c.blue);
    SpacedFields(red, green, blue);
    ParseIntOfDecThen(c.red, " " + green + " " + blue);
    ParseIntOfDecThen(c.green, " " + blue);
    ParseIntOfDecThen(c.blue, []);
  }

  /** Where the fields of three space-separated strings start. */
  lemma SpacedFields(a: string, b: string, d: string)
    ensures var v := a + " " + b + " " + d;
            && v == a + (" " + b + " " + d)
            && v[|a| + 1..] == b + (" " + d)
            && v[|a| + 1 + |b| + 1..] == d + []
  {
    var v := a + " " + b + " " + d;
    assert v == a + (" " + (b + (" " + d)));
    assert v[|a| + 1..] == b + (" " + d);
  }

  /** Lower-casing keeps which characters are hexadecimal digits and their
      values. */
  lemma HexDigitsIgnoreCase(d: string)
    ensures AllHex(ToLower(d)) <==> AllHex(d)
    ensures |d| == 6 && AllHex(d) ==>
              HexByte(ToLower(d), 0) == HexByte(d, 0) && HexByte(ToLower(d), 2) == HexByte(d, 2)
              && HexByte(ToLower(d), 4) == HexByte(d, 4)
  {
    var lower := ToLower(d);
    forall i | 0 <= i < |d|
      ensures IsHexDigit(lower[i]) <==> IsHexDigit(d[i])
      ensures IsHexDigit(d[i]) ==> HexValue(lower[i]) == HexValue(d[i])
    {
      if IsHexDigit(d[i]) {
        HexValueToLower(d[i]);
      }
    }
  }

  /** Letter case does not matter. */
  lemma ParseIgnoresCase(hex: string)
    ensures ParseHexColor(ToLower(hex)) == ParseHexColor(hex)
  {
    var lower := ToLower(hex);
    if |hex| > 0 && hex[0] == '#' {
      assert lower[1..] == ToLower(hex[1..]);
      HexDigitsIgnoreCase(hex[1..]);
    } else {
      assert |hex| > 0 ==> lower[0] != '#';
      HexDigitsIgnoreCase(hex);
    }
  }

  /** The three-digit shorthand, the eight-digit form with alpha, a doubled
      '#' and surrounding blanks are all refused. */
  lemma RejectedForms()
    ensures HexToRgb("#fff") == None
    ensures HexToRgb("#ffffffff") == None
    ensures HexToRgb("##ffffff") == None
    ensures HexToRgb(" #ffffff") == None
    ensures HexToRgb("#ggffff") == None
  {
    AcceptedIff("#fff");
    AcceptedIff("#ffffffff");
    AcceptedIff("##ffffff");
    AcceptedIff(" #ffffff");
    AcceptedIff("#ggffff");
    assert !IsHexDigit("#ggffff"[1..][0]);
  }

  lemma DefaultPrimary()
    ensures HexToRgb("#DC2626") == Some("220 38 38")
  {
    var d := "DC2626";
    assert ParseHexColor("#DC2626") == Some(Rgb(220, 38, 38)) by {
      assert "#DC2626"[1..] == d;
      assert AllHex(d);
      assert HexByte(d, 0) == 220 && HexByte(d, 2) == 38 && HexByte(d, 4) == 38;
    }
    FormatDefaultPrimary();
  }

  lemma FormatDefaultPrimary()
    ensures FormatRgb(Rgb(220, 38, 38)) == "220 38 38"
  {
    assert Dec(2) == "2" && Dec(22) == "22" && Dec(220) == "220";
    assert Dec(3) == "3" && Dec(38) == "38";
    assert FormatRgb(Rgb(220, 38, 38)) == "220" + " " + "38" + " " + "38" == "220 38 38";
  }

  /** The custom properties and the colour each one takes, in the order the
      application writes them. */
  function ColorEntries(colors: Colors): (r: seq<(string, string)>)
    ensures |r| == 7
  {
    [("--color-primary", colors.primary),
     ("--color-secondary", colors.secondary),
     ("--color-tertiary", colors.tertiary),
     ("--color-background", colors.background),
     ("--color-surface", colors.surface),
     ("--color-text-primary", colors.textPrimary),
     ("--color-text-secondary", colors.textSecondary)]
  }

  /** A style sheet's custom properties. */
  type Style = map<string, string>

  /** The style after writing the entries in order, skipping every colour
      that does not parse. */
  function Applied(style: Style, entries: seq<(string, string)>): Style
  {
    if entries == [] then style
    else
      var before := Applied(style, entries[..|entries| - 1]);
      var (property, hex) := entries[|entries| - 1];
      if HexToRgb(hex).Some? then before[property := HexToRgb(hex).value] else before
  }

  /** The colour an entry list gives a property, if it names it. */
  function Lookup(entries: seq<(string, string)>, property: string): (r: Option<string>)
    ensures r.Some? <==> exists i :: 0 <= i < |entries| && entries[i].0 == property
  {
    if entries == [] then None
    else if entries[|entries| - 1].0 == property then Some(entries[|entries| - 1].1)
    else Lookup(entries[..|entries| - 1], property)
  }

  predicate DistinctProperties(entries: seq<(string, string)>)
  {
    forall i, j :: 0 <= i < j < |entries| ==> entries[i].0 != entries[j].0
  }

  /** Whether a property is rewritten: it is listed and its colour parses. */
  predicate Rewritten(entries: seq<(string, string)>, property: string)
  {
    Lookup(entries, property).Some? && HexToRgb(Lookup(entries, property).value).Some?
  }

  /** Each listed property whose colour parses holds that colour's channels;
      every other property keeps what it had, so an unreadable colour leaves
      the previous theme colour in place. */
  lemma {:induction false} AppliedSpec(style: Style, entries: seq<(string, string)>)
    requires DistinctProperties(entries)
    ensures forall k :: k in Applied(style, entries) <==> k in style || Rewritten(entries, k)
    ensures forall k :: k in Applied(style, entries) ==>
              Applied(style, entries)[k] == if Rewritten(entries, k) then HexToRgb(Lookup(entries, k).value).value else style[k]
    decreases |entries|
  {
    if entries != [] {
      var prefix := entries[..|entries| - 1];
      assert DistinctProperties(prefix);
      AppliedSpec(style, prefix);
      var last := entries[|entries| - 1];
      forall i | 0 <= i < |prefix|
        ensures prefix[i].0 != last.0
      {
        assert prefix[i] == entries[i];
      }
      AppliedStep(style, prefix, last);
      assert entries == prefix + [last];
    }
  }

  /** One more entry, for a property the earlier entries do not name. */
  lemma AppliedStep(style: Style, prefix: seq<(string, string)>, last: (string, string))
    requires Lookup(prefix, last.0).None?
    requires forall k :: k in Applied(style, prefix) <==> k in style || Rewritten(prefix, k)
    requires forall k :: k in Applied(style, prefix) ==>
               Applied(style, prefix)[k] == if Rewritten(prefix, k) then HexToRgb(Lookup(prefix, k).value).value else style[k]
    ensures forall k :: k in Applied(style, prefix + [last]) <==> k in style || Rewritten(prefix + [last], k)
    ensures forall k :: k in Applied(style, prefix + [last]) ==>
              Applied(style, prefix + [last])[k]
              == if Rewritten(prefix + [last], k) then HexToRgb(Lookup(prefix + [last], k).value).value else style[k]
  {
    var entries := prefix + [last];
    assert entries[..|entries| - 1] == prefix;
    var before := Applied(style, prefix);
    var after := Applied(style, entries);
    assert after == if HexToRgb(last.1).Some? then before[last.0 := HexToRgb(last.1).value] else before;
    assert Lookup(entries, last.0) == Some(last.1);
    forall k | k != last.0
      ensures Lookup(entries, k) == Lookup(prefix, k)
      ensures Rewritten(entries, k) == Rewritten(prefix, k)
    {
    }
  }

  lemma ColorEntriesDistinct(colors: Colors)
    ensures DistinctProperties(ColorEntries(colors))
  {
    var e := ColorEntries(colors);
    forall i, j | 0 <= i < j < |e|
      ensures e[i].0 != e[j].0
    {
      assert |e[i].0| != |e[j].0| || e[i].0[8] != e[j].0[8] || e[i].0[13] != e[j].0[13];
    }
  }

  /** The effect of `App` on the document's custom properties whenever the
      club settings change. */
  method ApplyThemeColors(style: Style, colors: Colors) returns (result: Style)
    ensures result == Applied(style, ColorEntries(colors))
  {
    var entries := ColorEntries(colors);
    result := style;
    var i := 0;
    while i < |entries|
      invariant 0 <= i <= |entries|
      invariant result == Applied(style, entries[..i])
    {
      var (property, hex) := entries[i];
      assert entries[..i + 1][..i] == entries[..i];
      var value := HexToRgb(hex);
      if value.Some? {
        result := result[property := value.value];
      }
      i := i + 1;
    }
    assert entries[..|entries|] == entries;
  }

  /** A colour that does not parse never reaches the style sheet: the
      property keeps its previous value, or stays unset. */
  lemma UnparsedColorKeepsPrevious(style: Style, colors: Colors, property: string)
    requires Lookup(ColorEntries(colors), property).Some?
    requires HexToRgb(Lookup(ColorEntries(colors), property).value).None?
    ensures property in Applied(style, ColorEntries(colors)) <==> property in style
    ensures property in style ==> Applied(style, ColorEntries(colors))[property] == style[property]
  {
    ColorEntriesDistinct(colors);
    AppliedSpec(style, ColorEntries(colors));
  }
}
