// frontend/src/contexts/ThemeContext.jsx: the gender-keyed colour table, the
// lookup with its fallback to the default theme, and the provider whose
// updateTheme records the gender and theme and writes one CSS custom property
// per theme entry onto the document root.

module Theme {
  import opened Base

  /** One theme object: the eleven colours every theme defines. */
  datatype Palette = Palette(
    primary: string, secondary: string, accent: string, background: string, surface: string, text: string,
    textSecondary: string, border: string, success: string, warning: string, error: string)

  const Male := Palette("#2563eb", "#1e40af", "#3b82f6", "#f8fafc", "#ffffff", "#1e293b",
                        "#64748b", "#e2e8f0", "#10b981", "#f59e0b", "#ef4444")
  const Female := Palette("#ec4899", "#be185d", "#f472b6", "#fdf2f8", "#ffffff", "#1e293b",
                          "#64748b", "#fce7f3", "#10b981", "#f59e0b", "#ef4444")
  const Other := Palette("#7c3aed", "#5b21b6", "#a855f7", "#faf5ff", "#ffffff", "#1e293b",
                         "#64748b", "#e9d5ff", "#10b981", "#f59e0b", "#ef4444")
  const Default := Palette("#374151", "#111827", "#6b7280", "#f9fafb", "#ffffff", "#1e293b",
                           "#64748b", "#e5e7eb", "#10b981", "#f59e0b", "#ef4444")

  const Themes: map<string, Palette> := map["male" := Male, "female" := Female, "other" := Other, "default" := Default]

  /** The eleven keys in the order the theme objects list them. */
  const ThemeKeys := ["primary", "secondary", "accent", "background", "surface", "text",
                      "textSecondary", "border", "success", "warning", "error"]

  /** A theme as (key, colour) pairs: the order Object.entries lists them. */
  type Entries = seq<(string, string)>

  function EntriesOf(p: Palette): (t: Entries)
    ensures |t| == |ThemeKeys|
    ensures forall i :: 0 <= i < |t| ==> t[i].0 == ThemeKeys[i]
  {
    [("primary", p.primary), ("secondary", p.secondary), ("accent", p.accent), ("background", p.background),
     ("surface", p.surface), ("text", p.text), ("textSecondary", p.textSecondary), ("border", p.border),
     ("success", p.success), ("warning", p.warning), ("error", p.error)]
  }

  /** `themes[gender] || themes.default`. */
  function ThemeFor(gender: string): (p: Palette)
    ensures gender in Themes ==> p == Themes[gender]
    ensures gender !in Themes ==> p == Default
  {
    if gender in Themes then Themes[gender] else Default
  }

  /** Only the four names select a theme of their own; every other gender gets the default one. */
  lemma UnknownGenderIsDefault(gender: string)
    requires gender != "male" && gender != "female" && gender != "other"
    ensures ThemeFor(gender) == Default
  {
  }

  /** Surface, text, secondary text, success, warning and error do not depend on the gender. */
  lemma SharedColoursAgree(a: string, b: string)
    ensures var pa, pb := ThemeFor(a), ThemeFor(b);
      && pa.surface == pb.surface && pa.text == pb.text && pa.textSecondary == pb.textSecondary
      && pa.success == pb.success && pa.warning == pb.warning && pa.error == pb.error
  {
  }

  /** The primary colour alone tells the four themes apart. */
  lemma ThemesDiffer(a: string, b: string)
    requires a in Themes && b in Themes && a != b
    ensures ThemeFor(a).primary != ThemeFor(b).primary
  {
  }

  // ----- the CSS custom properties updateTheme writes -----

  function VarName(key: string): string
  {
    "--color-" + key
  }

  lemma VarNameInjective(a: string, b: string)
    ensures VarName(a) == VarName(b) ==> a == b
  {
    if VarName(a) == VarName(b) {
      assert a == VarName(a)[8..];
      assert b == VarName(b)[8..];
    }
  }

  /** The properties after setting each entry in turn; a later entry overwrites an earlier one. */
  function CssVars(t: Entries): map<string, string>
  {
    if t == [] then map[] else CssVars(t[..|t| - 1])[VarName(t[|t| - 1].0) := t[|t| - 1].1]
  }

  /** Exactly the variables named after the entries' keys are written. */
  lemma {:induction false} CssVarsNames(t: Entries)
    ensures CssVars(t).Keys == set i | 0 <= i < |t| :: VarName(t[i].0)
  {
    if t != [] {
      CssVarsNames(t[..|t| - 1]);
    }
  }

  /** With distinct keys, each variable holds its own entry's colour. */
  lemma {:induction false} CssVarsValues(t: Entries, i: nat)
    requires i < |t|
    requires forall j, k :: 0 <= j < k < |t| ==> t[j].0 != t[k].0
    ensures VarName(t[i].0) in CssVars(t) && CssVars(t)[VarName(t[i].0)] == t[i].1
  {
    if i < |t| - 1 {
      CssVarsValues(t[..|t| - 1], i);
      VarNameInjective(t[i].0, t[|t| - 1].0);
    }
  }

  lemma ThemeKeysDistinct()
    ensures forall j, k :: 0 <= j < k < |ThemeKeys| ==> ThemeKeys[j] != ThemeKeys[k]
  {
  }

  /** Every theme writes `--color-<key>` for its eleven keys, each holding that key's colour, and nothing else. */
  lemma ThemeVars(p: Palette)
    ensures CssVars(EntriesOf(p)).Keys == set i | 0 <= i < |ThemeKeys| :: VarName(ThemeKeys[i])
    ensures forall i :: 0 <= i < |ThemeKeys| ==> CssVars(EntriesOf(p))[VarName(ThemeKeys[i])] == EntriesOf(p)[i].1
  {
    var t := EntriesOf(p);
    CssVarsNames(t);
    ThemeKeysDistinct();
    forall i | 0 <= i < |ThemeKeys|
      ensures CssVars(t)[VarName(ThemeKeys[i])] == t[i].1
    {
      CssVarsValues(t, i);
    }
  }

  /**
   * All themes write the same variable names, so switching from one theme to
   * another overwrites every variable the first one wrote.
   */
  lemma SwitchOverwrites(style: map<string, string>, a: Palette, b: Palette)
    ensures style + CssVars(EntriesOf(a)) + CssVars(EntriesOf(b)) == style + CssVars(EntriesOf(b))
  {
    ThemeVars(a);
    ThemeVars(b);
  }

  lemma UnionUpdate(a: map<string, string>, b: map<string, string>, k: string, v: string)
    ensures (a + b)[k := v] == a + b[k := v]
  {
  }

  /** The provider's state: the recorded gender, the theme in use and the root element's style. */
  class ThemeProvider {
    var gender: string
    var theme: Palette
    var cssVars: map<string, string>

    /** useState('default'), useState(themes.default), then the mount effect applies the default theme. */
    constructor(style: map<string, string>)
      ensures gender == "default" && theme == Default
      ensures cssVars == style + CssVars(EntriesOf(Default))
    {
      gender := "default";
      theme := Default;
      cssVars := style;
      new;
      UpdateTheme(gender);
    }

    /**
     * The recorded gender is the argument even when it names no theme; the
     * theme falls back to the default.  One property per entry is set, and no
     * other property changes.
     */
    method UpdateTheme(g: string)
      modifies this
      ensures gender == g && theme == ThemeFor(g)
      ensures cssVars == old(cssVars) + CssVars(EntriesOf(ThemeFor(g)))
    {
      var p := ThemeFor(g);
      gender := g;
      theme := p;
      var t := EntriesOf(p);
      for i := 0 to |t|
        invariant gender == g && theme == p
        invariant cssVars == old(cssVars) + CssVars(t[..i])
      {
        assert t[..i + 1][..i] == t[..i];
        UnionUpdate(old(cssVars), CssVars(t[..i]), VarName(t[i].0), t[i].1);
        cssVars := cssVars[VarName(t[i].0) := t[i].1];
      }
      assert t[..|t|] == t;
    }
  }
}
