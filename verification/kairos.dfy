/** Kairos (party hub) avatars: the asset and background colours an account
    shows, and the dictionary the service is sent for them. */
module Kairos {
  import opened Wrappers
  import opened PyText

  /** The `background_colors` argument: a list of colour strings, a
      `KairosBackgroundColorPreset` (whose value is such a list), or none. */
  datatype ColorsArg = NoColors | ColorList(colors: seq<string>) | Preset(value: seq<string>)

  datatype Avatar = Avatar(asset: Option<string>, backgroundColors: Option<seq<string>>)

  /** `Avatar(asset=..., background_colors=...)`: a preset is stored as its
      list of colours, anything else as given. */
  function NewAvatar(asset: Option<string>, background: ColorsArg): (a: Avatar)
    ensures a.asset == asset
    ensures background.NoColors? ==> a.backgroundColors.None?
    ensures !background.NoColors? ==>
      a.backgroundColors == Some(if background.Preset? then background.value else background.colors)
  {
    match background
    case NoColors => Avatar(asset, None)
    case ColorList(cs) => Avatar(asset, Some(cs))
    case Preset(cs) => Avatar(asset, Some(cs))
  }

  /** An avatar made with a preset is the avatar made with its colours. */
  lemma PresetIsItsColors(asset: Option<string>, colors: seq<string>)
    ensures NewAvatar(asset, Preset(colors)) == NewAvatar(asset, ColorList(colors))
    ensures NewAvatar(asset, Preset(colors)).backgroundColors == Some(colors)
  {
  }

  // ------------------------------------------------------------ JSON text

  function HexDigit(d: nat): char
    requires d < 16
  {
    if d < 10 then (48 + d) as char else (87 + d) as char
  }

  /** Four lower-case hex digits. */
  function Hex4(n: nat): string
    requires n < 0x1_0000
  {
    [HexDigit(n / 0x1000), HexDigit(n / 0x100 % 16), HexDigit(n / 0x10 % 16), HexDigit(n % 16)]
  }

  predicate Printable(c: char) { ' ' <= c <= '~' }

  /** How `json.dumps` (with `ensure_ascii`) writes one character inside a
      string: quote and backslash escaped, printable ASCII as is, the usual
      short escapes, any other character as `\uXXXX` (a surrogate pair above
      the basic plane). */
  function JsonChar(c: char): string {
    if c == '"' then "\\\""
    else if c == '\\' then "\\\\"
    else if Printable(c) then [c]
    else if c == '\n' then "\\n"
    else if c == '\r' then "\\r"
    else if c == '\t' then "\\t"
    else if c == '\U{8}' then "\\b"
    else if c == '\U{c}' then "\\f"
    else if c as int < 0x1_0000 then "\\u" + Hex4(c as int)
    else
      var n := c as int - 0x1_0000;
      "\\u" + Hex4(0xd800 + n / 0x400) + "\\u" + Hex4(0xdc00 + n % 0x400)
  }

  function JsonString(s: string): string {
    if s == [] then [] else JsonChar(s[0]) + JsonString(s[1..])
  }

  /** `json.dumps(xs)` for a list of strings. */
  function DumpStrings(xs: seq<string>): string {
    "[" + Join(seq(|xs|, k requires 0 <= k < |xs| => "\"" + JsonString(xs[k]) + "\""), ", ") + "]"
  }

  /** `avatarBackground`: the upper-cased colours as a JSON list with every
      space removed. */
  function BackgroundText(colors: seq<string>): string {
    RemoveAll(DumpStrings(seq(|colors|, k requires 0 <= k < |colors| => Upper(colors[k]))), ' ')
  }

  // ------------------------------------------------------------ to_dict

  /** `to_dict()`, keys in the order they are inserted. */
  function ToDict(a: Avatar): seq<(string, string)> {
    [("appInstalled", "init")]
    + (if a.asset.Some? && a.asset.value != "" then [("avatar", Lower(a.asset.value))] else [])
    + (if a.backgroundColors.Some? && a.backgroundColors.value != []
       then [("avatarBackground", BackgroundText(a.backgroundColors.value))] else [])
  }

  /** The value of the first entry with the key. */
  function Get(d: seq<(string, string)>, key: string): (r: Option<string>)
    ensures r.None? <==> forall k :: 0 <= k < |d| ==> d[k].0 != key
  {
    if d == [] then None
    else if d[0].0 == key then Some(d[0].1)
    else
      assert forall k :: 1 <= k < |d| ==> d[k] == d[1..][k - 1];
      Get(d[1..], key)
  }

  /** What `to_dict` holds: always `appInstalled: "init"`; `avatar`, the
      lower-cased asset, exactly when the asset is truthy; `avatarBackground`
      exactly when the colours are truthy; nothing else. */
  lemma ToDictEntries(a: Avatar)
    ensures Get(ToDict(a), "appInstalled") == Some("init")
    ensures Get(ToDict(a), "avatar") ==
      if a.asset.Some? && a.asset.value != "" then Some(Lower(a.asset.value)) else None
    ensures Get(ToDict(a), "avatarBackground") ==
      if a.backgroundColors.Some? && a.backgroundColors.value != []
      then Some(BackgroundText(a.backgroundColors.value)) else None
    ensures forall k :: 0 <= k < |ToDict(a)| ==>
      ToDict(a)[k].0 in ["appInstalled", "avatar", "avatarBackground"]
  {
    var d := ToDict(a);
    assert "appInstalled" != "avatar" && "appInstalled" != "avatarBackground" && "avatar" != "avatarBackground";
    assert d[0].0 == "appInstalled";
    var rest := if a.backgroundColors.Some? && a.backgroundColors.value != []
                then [("avatarBackground", BackgroundText(a.backgroundColors.value))] else [];
    assert Get(rest, "avatarBackground") ==
      if a.backgroundColors.Some? && a.backgroundColors.value != []
      then Some(BackgroundText(a.backgroundColors.value)) else None;
    if a.asset.Some? && a.asset.value != "" {
      assert d[1] == ("avatar", Lower(a.asset.value));
      assert d[1..][1..] == rest;
      assert Get(d[1..], "avatarBackground") == Get(rest, "avatarBackground");
    } else {
      assert d[1..] == rest;
    }
  }

  // ------------------------------------------------------------ the compact form

  /** A colour whose JSON string is itself: printable ASCII without quote or
      backslash. */
  predicate PlainColor(s: string) {
    forall i :: 0 <= i < |s| ==> Printable(s[i]) && s[i] != '"' && s[i] != '\\'
  }

  lemma {:induction false} JsonStringPlain(s: string)
    requires PlainColor(s)
    ensures JsonString(s) == s
  {
    if s != [] {
      JsonStringPlain(s[1..]);
    }
  }

  lemma {:induction false} RemoveAllConcat(a: string, b: string, c: char)
    ensures RemoveAll(a + b, c) == RemoveAll(a, c) + RemoveAll(b, c)
  {
    if a != [] {
      var h := if a[0] == c then [] else [a[0]];
      assert (a + b)[0] == a[0];
      assert (a + b)[1..] == a[1..] + b;
      assert RemoveAll(a + b, c) == h + RemoveAll(a[1..] + b, c);
      assert RemoveAll(a, c) == h + RemoveAll(a[1..], c);
      RemoveAllConcat(a[1..], b, c);
    } else {
      assert a + b == b;
    }
  }

  /** Removing spaces from a `", "`-joined text joins the parts, spaces
      removed, with `","`. */
  lemma {:induction false} RemoveSpacesJoin(parts: seq<string>, stripped: seq<string>)
    requires |stripped| == |parts|
    requires forall k :: 0 <= k < |parts| ==> stripped[k] == RemoveAll(parts[k], ' ')
    ensures RemoveAll(Join(parts, ", "), ' ') == Join(stripped, ",")
  {
    if |parts| > 1 {
      var rest := Join(parts[1..], ", ");
      assert Join(parts, ", ") == (parts[0] + ", ") + rest;
      RemoveAllConcat(parts[0] + ", ", rest, ' ');
      RemoveAllConcat(parts[0], ", ", ' ');
      assert RemoveAll(", ", ' ') == ",";
      RemoveSpacesJoin(parts[1..], stripped[1..]);
      assert Join(stripped, ",") == stripped[0] + "," + Join(stripped[1..], ",");
    }
  }

  /** For colours of printable ASCII other than quote and backslash,
      `avatarBackground` is `["A","B","C"]`: each colour upper-cased, spaces
      removed, quoted, joined by commas in brackets. */
  lemma BackgroundCompact(colors: seq<string>)
    requires forall k :: 0 <= k < |colors| ==> PlainColor(colors[k])
    ensures BackgroundText(colors) ==
      "[" + Join(seq(|colors|, k requires 0 <= k < |colors| =>
                     "\"" + RemoveAll(Upper(colors[k]), ' ') + "\""), ",") + "]"
  {
    var up := seq(|colors|, k requires 0 <= k < |colors| => Upper(colors[k]));
    var quoted := seq(|up|, k requires 0 <= k < |up| => "\"" + JsonString(up[k]) + "\"");
    var want := seq(|colors|, k requires 0 <= k < |colors| => "\"" + RemoveAll(Upper(colors[k]), ' ') + "\"");
    forall k | 0 <= k < |colors| ensures RemoveAll(quoted[k], ' ') == want[k] {
      assert PlainColor(up[k]) by {
        forall i | 0 <= i < |up[k]| ensures Printable(up[k][i]) && up[k][i] != '"' && up[k][i] != '\\' {
          assert up[k][i] == UpperChar(colors[k][i]);
        }
      }
      JsonStringPlain(up[k]);
      RemoveAllConcat("\"" + up[k], "\"", ' ');
      RemoveAllConcat("\"", up[k], ' ');
    }
    RemoveSpacesJoin(quoted, want);
    var mid := Join(quoted, ", ");
    RemoveAllConcat("[" + mid, "]", ' ');
    RemoveAllConcat("[", mid, ' ');
  }

  // ------------------------------------------------------------ __eq__

  /** `a == b`: the two dictionaries agree. */
  predicate Equal(a: Avatar, b: Avatar) {
    ToDict(a) == ToDict(b)
  }

  /** Assets that differ only in case make equal avatars. */
  lemma AssetCaseIgnored(x: string, y: string, colors: Option<seq<string>>)
    requires Lower(x) == Lower(y)
    ensures Equal(Avatar(Some(x), colors), Avatar(Some(y), colors))
  {
    assert |x| == |y|;
    assert x == "" <==> y == "";
  }

  /** An empty asset or colour list counts as none. */
  lemma EmptyIsNone(asset: Option<string>, colors: Option<seq<string>>)
    ensures Equal(Avatar(Some(""), colors), Avatar(None, colors))
    ensures Equal(Avatar(asset, Some([])), Avatar(asset, None))
  {
  }

  /** Truthy assets that differ other than in case make different avatars,
      and so does a truthy asset against none. */
  lemma AssetsDistinguish(a: Avatar, b: Avatar)
    requires a.asset.Some? && a.asset.value != ""
    requires b.asset.None? || b.asset.value == "" || Lower(a.asset.value) != Lower(b.asset.value)
    ensures !Equal(a, b)
  {
    ToDictEntries(a);
    ToDictEntries(b);
  }

  /** Different truthy colour texts make different avatars. */
  lemma ColorsDistinguish(a: Avatar, b: Avatar)
    requires a.backgroundColors.Some? && a.backgroundColors.value != []
    requires b.backgroundColors.None? || b.backgroundColors.value == [] ||
             BackgroundText(a.backgroundColors.value) != BackgroundText(b.backgroundColors.value)
    ensures !Equal(a, b)
  {
    ToDictEntries(a);
    ToDictEntries(b);
  }
}
