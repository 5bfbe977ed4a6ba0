/** app/utils/theme.ts: the hover variant of an accent colour, the colour chosen
    for a variant and theme, and the style element of the dark-mode rule. */
module Theme {
  import opened TextUtil

  /** THEME_CONFIG: the accent colours of the light and the dark theme. */
  datatype ThemeConfig = ThemeConfig(
    accentColor: string,
    accentColorSecondary: string,
    accentColorDark: string,
    accentColorSecondaryDark: string)

  /** The start of the run of digits that ends just before `end`. */
  function DigitRunStart(s: string, end: nat): (k: nat)
    requires end <= |s|
    ensures k <= end
    ensures forall j :: k <= j < end ==> IsDigit(s[j])
    ensures k == 0 || !IsDigit(s[k - 1])
  {
    if end == 0 || !IsDigit(s[end - 1]) then end else DigitRunStart(s, end - 1)
  }

  /** `/(\d+)%\)$/` matches: the colour ends in "%)" right after at least one digit. */
  predicate HasLightness(c: string) {
    |c| >= 3 && EndsWith(c, "%)") && IsDigit(c[|c| - 3])
  }

  /** `replace(/(\d+)%\)$/, ...)`: the whole run of digits before the final "%)"
      is replaced by its value minus 10; a colour without that ending is returned
      as it is. */
  function HoverColor(c: string): (r: string)
    ensures !HasLightness(c) ==> r == c
    ensures HasLightness(c) ==>
              var k := DigitRunStart(c, |c| - 2);
              k < |c| - 2 && StartsWith(r, c[..k]) && EndsWith(r, "%)") &&
              r == c[..k] + IntToString(ParseDigits(c[k..|c| - 2]) - 10) + "%)"
  {
    if !HasLightness(c) then c
    else
      var k := DigitRunStart(c, |c| - 2);
      var run := c[k..|c| - 2];
      assert AllDigits(run);
      var r := c[..k] + IntToString(ParseDigits(run) - 10) + "%)";
      assert r[..k] == c[..k];
      assert r[|r| - 2..] == "%)";
      r
  }

  /** On a colour written as `<prefix><lightness>%)`, where the prefix does not end
      in a digit, the hover colour is the same colour with the lightness lowered by
      10 points: "hsl(220, 90%, 56%)" becomes "hsl(220, 90%, 46%)". */
  lemma {:induction false} HoverLowersLightness(prefix: string, lightness: nat)
    requires prefix == [] || !IsDigit(prefix[|prefix| - 1])
    ensures HoverColor(prefix + NatToString(lightness) + "%)") == prefix + IntToString(lightness - 10) + "%)"
  {
    var digits := NatToString(lightness);
    var c := prefix + digits + "%)";
    assert c[|c| - 2..] == "%)";
    assert c[|c| - 3] == digits[|digits| - 1];
    DigitRunOf(prefix, digits, "%)");
    assert c[|prefix|..|c| - 2] == digits;
    assert c[..|prefix|] == prefix;
    ParseNatToString(lightness);
  }

  /** The digit run before a suffix is exactly the digits written there. */
  lemma {:induction false} DigitRunOf(prefix: string, digits: string, suffix: string)
    requires AllDigits(digits) && (prefix == [] || !IsDigit(prefix[|prefix| - 1]))
    ensures DigitRunStart(prefix + digits + suffix, |prefix| + |digits|) == |prefix|
    decreases |digits|
  {
    var c := prefix + digits + suffix;
    if digits != [] {
      var init := digits[..|digits| - 1];
      assert c[|prefix| + |digits| - 1] == digits[|digits| - 1];
      assert prefix + init + ([digits[|digits| - 1]] + suffix) == c;
      DigitRunOf(prefix, init, [digits[|digits| - 1]] + suffix);
    } else if |prefix| > 0 {
      assert c[|prefix| - 1] == prefix[|prefix| - 1];
    }
  }

  /** Only the lightness changes: a colour with a lightness keeps everything up to
      that number, and the result still has the "<number>%)" ending. */
  lemma {:induction false} HoverKeepsPrefix(c: string)
    requires HasLightness(c)
    ensures var k := DigitRunStart(c, |c| - 2);
            var r := HoverColor(c);
            |r| >= k + 3 && r[..k] == c[..k] && EndsWith(r, "%)") && (IsDigit(r[|r| - 3]))
  {
    var k := DigitRunStart(c, |c| - 2);
    var run := c[k..|c| - 2];
    var n := IntToString(ParseDigits(run) - 10);
    var r := HoverColor(c);
    assert r == c[..k] + n + "%)";
    NumberEndsInDigit(ParseDigits(run) - 10);
    assert r[|r| - 3] == n[|n| - 1];
  }

  lemma NumberEndsInDigit(i: int)
    ensures IsDigit(IntToString(i)[|IntToString(i)| - 1])
  {
    if i < 0 {
      var d := NatToString(-i);
      assert IntToString(i)[|IntToString(i)| - 1] == d[|d| - 1];
    }
  }

  datatype Variant = Primary | Secondary | Hover

  /** Where the call runs: on the server (no `window`), or in a browser whose root
      element has the given `data-theme` attribute (`None` when it has none). */
  datatype Env = NoWindow | Browser(dataTheme: Option<string>)

  predicate IsDark(env: Env) {
    env.Browser? && env.dataTheme == Some("dark")
  }

  /** getAccentColor; the default variant is `Primary`. */
  function GetAccentColor(variant: Variant, env: Env, cfg: ThemeConfig): (r: string)
    ensures env.NoWindow? ==> r == (if variant.Primary? then cfg.accentColor else cfg.accentColorSecondary)
    ensures env.Browser? && variant.Primary? ==> r == (if IsDark(env) then cfg.accentColorDark else cfg.accentColor)
    ensures env.Browser? && variant.Secondary? ==>
              r == (if IsDark(env) then cfg.accentColorSecondaryDark else cfg.accentColorSecondary)
  {
    if env.NoWindow? then
      if variant == Primary then cfg.accentColor else cfg.accentColorSecondary
    else
      var isDark := env.dataTheme == Some("dark");
      match variant
      case Primary => if isDark then cfg.accentColorDark else cfg.accentColor
      case Secondary => if isDark then cfg.accentColorSecondaryDark else cfg.accentColorSecondary
      case Hover => HoverColor(if isDark then cfg.accentColorDark else cfg.accentColor)
  }

  /** In a browser the hover colour is the primary colour of the same theme,
      darkened; on the server it is the secondary colour instead. */
  lemma HoverFollowsPrimary(env: Env, cfg: ThemeConfig)
    ensures env.Browser? ==> GetAccentColor(Hover, env, cfg) == HoverColor(GetAccentColor(Primary, env, cfg))
    ensures env.NoWindow? ==> GetAccentColor(Hover, env, cfg) == GetAccentColor(Secondary, env, cfg)
  {
  }

  /** Any attribute value other than exactly "dark" selects the light colours. */
  lemma {:induction false} LightUnlessDark(v: Option<string>, cfg: ThemeConfig)
    requires v != Some("dark")
    ensures GetAccentColor(Primary, Browser(v), cfg) == GetAccentColor(Primary, Browser(None), cfg)
    ensures GetAccentColor(Secondary, Browser(v), cfg) == GetAccentColor(Secondary, Browser(None), cfg)
    ensures GetAccentColor(Hover, Browser(v), cfg) == GetAccentColor(Hover, Browser(None), cfg)
  {
  }

  const StyleId: string := "theme-config-styles"

  /** An element of the page, as far as `getElementById` and the style text go. */
  datatype Element = Element(id: string, tag: string, textContent: string)

  /** The number of elements with the given id. */
  function CountId(elements: seq<Element>, id: string): (n: nat)
    ensures n <= |elements|
  {
    if elements == [] then 0
    else CountId(elements[..|elements| - 1], id) + (if elements[|elements| - 1].id == id then 1 else 0)
  }

  /** `getElementById`: the first element with the id, or -1. */
  function FindId(elements: seq<Element>, id: string): (i: int)
    ensures -1 <= i < |elements|
    ensures i >= 0 ==> elements[i].id == id && forall j :: 0 <= j < i ==> elements[j].id != id
    ensures i < 0 ==> forall j :: 0 <= j < |elements| ==> elements[j].id != id
  {
    if elements == [] then -1
    else
      var i := FindId(elements[..|elements| - 1], id);
      if i >= 0 then i else if elements[|elements| - 1].id == id then |elements| - 1 else -1
  }

  /** The dark-mode rule written into the style element. */
  function DarkModeRule(cfg: ThemeConfig): string {
    "[data-theme=\"dark\"] {\n    --accent-primary: " + cfg.accentColorDark + ";\n    --accent-secondary: " +
    cfg.accentColorSecondaryDark + ";\n    --accent-hover: " + HoverColor(cfg.accentColorDark) + ";\n  }"
  }

  /** The elements after the style text is written: the first element with id
      "theme-config-styles" gets the text, or a new style element carrying it is
      appended when there is none. */
  function WithStyle(elements: seq<Element>, text: string): (r: seq<Element>)
    ensures FindId(elements, StyleId) < 0 ==> r == elements + [Element(StyleId, "style", text)]
    ensures FindId(elements, StyleId) >= 0 ==>
              var i := FindId(elements, StyleId);
              |r| == |elements| && r[i] == elements[i].(textContent := text) &&
              forall j :: 0 <= j < |r| && j != i ==> r[j] == elements[j]
  {
    var i := FindId(elements, StyleId);
    if i < 0 then elements + [Element(StyleId, "style", text)]
    else elements[i := elements[i].(textContent := text)]
  }

  /** Writing the style creates the element only when it is missing: afterwards
      there is at least one, and no more than before unless there were none. */
  lemma WithStyleCount(elements: seq<Element>, text: string)
    ensures CountId(WithStyle(elements, text), StyleId) ==
              if CountId(elements, StyleId) == 0 then 1 else CountId(elements, StyleId)
  {
    NoneFound(elements, StyleId);
    var i := FindId(elements, StyleId);
    if i < 0 {
      var r := WithStyle(elements, text);
      assert r[..|r| - 1] == elements;
    } else {
      CountKeepsId(elements, i, text);
    }
  }

  /** Repeated application on a page with at most one style element leaves exactly
      one, holding the last text written. */
  lemma RepeatedApply(elements: seq<Element>, t1: string, t2: string)
    requires CountId(elements, StyleId) <= 1
    ensures CountId(WithStyle(WithStyle(elements, t1), t2), StyleId) == 1
    ensures var r := WithStyle(WithStyle(elements, t1), t2);
            FindId(r, StyleId) >= 0 && r[FindId(r, StyleId)].textContent == t2
  {
    WithStyleCount(elements, t1);
    WithStyleCount(WithStyle(elements, t1), t2);
    NoneFound(WithStyle(elements, t1), StyleId);
    NoneFound(WithStyle(WithStyle(elements, t1), t2), StyleId);
  }

  /** The page: the custom properties of the root element's style and the
      elements that `getElementById` searches. */
  class Document {
    var rootStyle: map<string, string>
    var elements: seq<Element>

    constructor (elements: seq<Element>)
      ensures this.elements == elements && rootStyle == map[]
    {
      this.elements := elements;
      rootStyle := map[];
    }

    /** applyThemeConfig, in a browser when `hasWindow`: the three light-mode
        custom properties are set on the root, and the dark-mode rule goes into
        the element with id "theme-config-styles", which is created and appended
        only when there is none yet. */
    method ApplyThemeConfig(cfg: ThemeConfig, hasWindow: bool)
      modifies this
      ensures !hasWindow ==> rootStyle == old(rootStyle) && elements == old(elements)
      ensures hasWindow ==>
                rootStyle == old(rootStyle)["--accent-primary" := cfg.accentColor]
                                           ["--accent-secondary" := cfg.accentColorSecondary]
                                           ["--accent-hover" := HoverColor(cfg.accentColor)]
      ensures hasWindow ==> elements == WithStyle(old(elements), DarkModeRule(cfg))
    {
      if !hasWindow {
        return;
      }
      rootStyle := rootStyle["--accent-primary" := cfg.accentColor];
      rootStyle := rootStyle["--accent-secondary" := cfg.accentColorSecondary];
      rootStyle := rootStyle["--accent-hover" := HoverColor(cfg.accentColor)];
      var darkModeRule := DarkModeRule(cfg);
      SetStyleText(darkModeRule);
    }

    /** The style-element part of applyThemeConfig: look the element up by id,
        create and append it when missing, then set its text. */
    method SetStyleText(text: string)
      modifies this
      ensures elements == WithStyle(old(elements), text) && rootStyle == old(rootStyle)
    {
      var i := FindId(elements, StyleId);
      if i < 0 {
        elements := elements + [Element(StyleId, "style", "")];
        i := |elements| - 1;
      }
      elements := elements[i := elements[i].(textContent := text)];
    }
  }

  /** The count is zero exactly when the search finds nothing. */
  lemma {:induction false} NoneFound(elements: seq<Element>, id: string)
    ensures CountId(elements, id) == 0 <==> FindId(elements, id) < 0
  {
    if elements != [] {
      NoneFound(elements[..|elements| - 1], id);
    }
  }

  /** Rewriting the text of an element leaves the count of every id alone. */
  lemma {:induction false} CountKeepsId(elements: seq<Element>, i: int, text: string)
    requires 0 <= i < |elements|
    ensures forall id :: CountId(elements[i := elements[i].(textContent := text)], id) == CountId(elements, id)
  {
    var e := elements[i := elements[i].(textContent := text)];
    var n := |elements| - 1;
    assert e[..n] == if i < n then elements[..n][i := elements[i].(textContent := text)] else elements[..n];
    if i < n {
      CountKeepsId(elements[..n], i, text);
    }
  }
}
