/**
 * The theme provider of `contexts/theme-context.tsx`: a theme name and a
 * mode, the CSS custom properties they set, the `dark` class, the values
 * read back from local storage on mount and written on every change.
 * The colour values themselves are constant data and enter as parameters.
 */
module ThemeContext {
  import opened Wrappers
  import opened JsString

  // ---------------------------------------------------------------------
  // CSS variable names
  // ---------------------------------------------------------------------

  function UpperCount(s: string): nat {
    if s == [] then 0 else (if IsUpper(s[0]) then 1 else 0) + UpperCount(s[1..])
  }

  /** `key.replace(/([A-Z])/g, '-$1')`: a `-` before every upper-case letter. */
  function HyphenateUpper(key: string): (r: string)
    ensures |r| == |key| + UpperCount(key)
  {
    if key == [] then []
    else (if IsUpper(key[0]) then ['-', key[0]] else [key[0]]) + HyphenateUpper(key[1..])
  }

  /** The custom property a colour key sets. */
  function CssVarName(key: string): string {
    "--" + ToLower(HyphenateUpper(key))
  }

  /** The name starts with `--`, has no upper-case letter, and is one character longer per upper-case letter of the key. */
  lemma CssVarNameShape(key: string)
    ensures var n := CssVarName(key);
      && n[..2] == "--"
      && NoUpper(n)
      && |n| == 2 + |key| + UpperCount(key)
  {
    ToLowerNormalizes(HyphenateUpper(key));
  }

  function UpperChar(c: char): char {
    if 'a' <= c <= 'z' then (c as int - 32) as char else c
  }

  /** Reads a kebab-case name back as camel case: `-x` becomes `X`. */
  function CamelCase(name: string): string {
    if name == [] then []
    else if name[0] == '-' && |name| >= 2 then [UpperChar(name[1])] + CamelCase(name[2..])
    else [name[0]] + CamelCase(name[1..])
  }

  /** For keys without `-`, the variable name determines the key. */
  lemma {:induction false} CamelCaseInverts(key: string)
    requires '-' !in key
    ensures CamelCase(ToLower(HyphenateUpper(key))) == key
  {
    if key != [] {
      var head := if IsUpper(key[0]) then ['-', key[0]] else [key[0]];
      ToLowerConcat(head, HyphenateUpper(key[1..]));
      assert '-' !in key[1..];
      CamelCaseInverts(key[1..]);
      var lowered := ToLower(head) + ToLower(HyphenateUpper(key[1..]));
      if IsUpper(key[0]) {
        assert lowered[0] == '-' && lowered[1] == LowerChar(key[0]);
        assert lowered[2..] == ToLower(HyphenateUpper(key[1..]));
      } else {
        assert key[0] != '-';
        assert lowered[1..] == ToLower(HyphenateUpper(key[1..]));
      }
    }
  }

  /** Two colour keys without `-` never set the same variable. */
  lemma CssVarNameInjective(a: string, b: string)
    requires '-' !in a && '-' !in b
    requires CssVarName(a) == CssVarName(b)
    ensures a == b
  {
    assert CssVarName(a)[2..] == ToLower(HyphenateUpper(a));
    assert CssVarName(b)[2..] == ToLower(HyphenateUpper(b));
    CamelCaseInverts(a);
    CamelCaseInverts(b);
  }

  /**
   * A key made of a lower-case word and a capitalised one names the two
   * words joined by `-`, all in lower case: `primaryForeground` sets
   * `--primary-foreground`.
   */
  lemma TwoWordVariable(a: string, c: char, b: string)
    requires NoUpper(a) && NoUpper(b) && IsUpper(c)
    ensures CssVarName(a + [c] + b) == "--" + a + ['-', LowerChar(c)] + b
  {
    HyphenateConcat(a + [c], b);
    HyphenateConcat(a, [c]);
    HyphenateLower(a);
    HyphenateLower(b);
    assert HyphenateUpper([c]) == ['-', c];
    var h := a + ['-', c] + b;
    assert HyphenateUpper(a + [c] + b) == h;
    ToLowerConcat(a + ['-', c], b);
    ToLowerConcat(a, ['-', c]);
    ToLowerOfLower(a);
    ToLowerOfLower(b);
  }

  lemma {:induction false} HyphenateConcat(a: string, b: string)
    ensures HyphenateUpper(a + b) == HyphenateUpper(a) + HyphenateUpper(b)
  {
    if a != [] {
      assert (a + b)[1..] == a[1..] + b;
      HyphenateConcat(a[1..], b);
    } else {
      assert a + b == b;
    }
  }

  lemma HyphenateLower(s: string)
    requires NoUpper(s)
    ensures HyphenateUpper(s) == s
  {
  }

  /** A key without upper-case letters keeps its spelling: `chart1` sets `--chart1`. */
  lemma LowerKeyVariable(key: string)
    requires NoUpper(key)
    ensures CssVarName(key) == "--" + key
  {
    HyphenateLower(key);
    ToLowerOfLower(key);
  }

  // ---------------------------------------------------------------------
  // Themes and modes
  // ---------------------------------------------------------------------

  datatype ThemeName = Wiillow | Education | Friendly | Corporate

  function ThemeKey(t: ThemeName): string {
    match t
    case Wiillow => "wiillow"
    case Education => "education"
    case Friendly => "friendly"
    case Corporate => "corporate"
  }

  /** `themes[s]` as a lookup of the four keys. */
  function ThemeByKey(s: string): (t: Option<ThemeName>)
    ensures t.Some? ==> ThemeKey(t.value) == s
  {
    if s == "wiillow" then Some(Wiillow)
    else if s == "education" then Some(Education)
    else if s == "friendly" then Some(Friendly)
    else if s == "corporate" then Some(Corporate)
    else None
  }

  /** Every theme is found under its own key, and only there. */
  lemma ThemeByKeyInverts(t: ThemeName, s: string)
    ensures ThemeByKey(ThemeKey(t)) == Some(t)
    ensures ThemeByKey(s).Some? <==> exists u :: ThemeKey(u) == s
  {
    if ThemeByKey(s).None? {
      forall u ensures ThemeKey(u) != s {
        assert ThemeByKey(ThemeKey(u)).Some?;
      }
    }
  }

  /**
   * The provider's state. The mode is kept as the string it is, since a
   * saved mode is adopted without checking it is `light` or `dark`.
   */
  datatype State = State(theme: ThemeName, mode: string)

  const InitialState: State := State(Wiillow, "light")

  /** What local storage holds under `theme` and `mode`. */
  datatype Storage = Storage(theme: Option<string>, mode: Option<string>)

  /** The mount effect: a saved theme is adopted if it names a theme; a saved mode if non-empty, else the system preference. */
  function LoadSaved(s: State, saved: Storage, prefersDark: bool): (s': State)
    ensures Truthy(saved.theme) && ThemeByKey(saved.theme.value).Some? ==> s'.theme == ThemeByKey(saved.theme.value).value
    ensures !(Truthy(saved.theme) && ThemeByKey(saved.theme.value).Some?) ==> s'.theme == s.theme
    ensures Truthy(saved.mode) ==> s'.mode == saved.mode.value
    ensures !Truthy(saved.mode) ==> s'.mode == (if prefersDark then "dark" else "light")
  {
    var theme := if Truthy(saved.theme) && ThemeByKey(saved.theme.value).Some? then ThemeByKey(saved.theme.value).value else s.theme;
    var mode := if Truthy(saved.mode) then saved.mode.value else if prefersDark then "dark" else "light";
    State(theme, mode)
  }

  /** `setTheme`: the state and the storage both take the new theme. */
  function SetTheme(s: State, store: Storage, t: ThemeName): (r: (State, Storage))
    ensures r.0 == s.(theme := t) && r.1 == store.(theme := Some(ThemeKey(t)))
  {
    (s.(theme := t), store.(theme := Some(ThemeKey(t))))
  }

  /** `setMode`. */
  function SetMode(s: State, store: Storage, mode: string): (r: (State, Storage))
    ensures r.0 == s.(mode := mode) && r.1 == store.(mode := Some(mode))
  {
    (s.(mode := mode), store.(mode := Some(mode)))
  }

  /** `toggleMode`: `light` becomes `dark`, anything else becomes `light`. */
  function ToggleMode(s: State, store: Storage): (State, Storage) {
    SetMode(s, store, if s.mode == "light" then "dark" else "light")
  }

  /**
   * Toggling swaps light and dark and persists the new mode; twice it is
   * the identity on the state exactly when the mode was light or dark.
   */
  lemma ToggleModeSpec(s: State, store: Storage)
    ensures var (s1, st1) := ToggleMode(s, store);
      && s1.theme == s.theme
      && (s.mode == "light" ==> s1.mode == "dark")
      && (s.mode == "dark" ==> s1.mode == "light")
      && st1.mode == Some(s1.mode) && st1.theme == store.theme
      && (ToggleMode(s1, st1).0 == s <==> s.mode == "light" || s.mode == "dark")
  {
  }

  /** A state saved by the setters is restored by the next mount, whatever the system prefers. */
  lemma SavedStateRestored(s: State, store: Storage, t: ThemeName, mode: string, any: State, prefersDark: bool)
    requires mode != ""
    ensures var (s1, st1) := SetTheme(s, store, t);
      var (s2, st2) := SetMode(s1, st1, mode);
      LoadSaved(any, st2, prefersDark) == s2
  {
    ThemeByKeyInverts(t, "");
  }

  /** A first visit starts from wiillow and takes the mode from the system preference. */
  lemma FirstVisit(prefersDark: bool)
    ensures LoadSaved(InitialState, Storage(None, None), prefersDark).theme == Wiillow
    ensures LoadSaved(InitialState, Storage(None, None), prefersDark).mode == "dark" <==> prefersDark
  {
  }

  // ---------------------------------------------------------------------
  // The saved-theme guard as written
  // ---------------------------------------------------------------------

  /**
   * Names every plain JavaScript object inherits from `Object.prototype`;
   * `themes[name]` is a function or an object for each, so truthy.
   */
  const InheritedNames: set<string> := {
    "constructor", "hasOwnProperty", "isPrototypeOf", "propertyIsEnumerable",
    "toLocaleString", "toString", "valueOf", "__proto__",
    "__defineGetter__", "__defineSetter__", "__lookupGetter__", "__lookupSetter__"}

  /** `themes[s]` is truthy: one of the four themes, or an inherited member. */
  predicate LookupTruthy(s: string) {
    ThemeByKey(s).Some? || s in InheritedNames
  }

  /**
   * The theme the mount adopts as the code is written, with the theme kept
   * as the key string the state holds: the saved value whenever it is
   * non-empty and `themes[saved]` is truthy.
   */
  function LoadSavedThemeAsWritten(current: string, saved: Option<string>): (key: string)
    ensures key == current || (saved.Some? && key == saved.value)
    ensures Truthy(saved) && ThemeByKey(saved.value).Some? ==> key == saved.value
  {
    if Truthy(saved) && LookupTruthy(saved.value) then saved.value else current
  }

  /**
   * A saved `toString` is adopted although it names no theme, so
   * `themes[theme].colors` is then undefined when the variables are applied.
   */
  lemma SavedToStringAdopted()
    ensures LoadSavedThemeAsWritten(ThemeKey(Wiillow), Some("toString")) == "toString"
    ensures ThemeByKey("toString").None?
  {
  }

  /**
   * On every saved value that is not an inherited name, the guard as
   * written adopts the same theme as `LoadSaved`, which only accepts the
   * four own keys.
   */
  lemma GuardAgreesOnOwnKeys(s: State, saved: Option<string>, mode: Option<string>, prefersDark: bool)
    requires saved.None? || saved.value !in InheritedNames
    ensures LoadSavedThemeAsWritten(ThemeKey(s.theme), saved)
      == ThemeKey(LoadSaved(s, Storage(saved, mode), prefersDark).theme)
  {
  }

  /** `LoadSaved` never leaves the state on a key that names no theme. */
  lemma LoadSavedNamesATheme(s: State, saved: Storage, prefersDark: bool)
    ensures ThemeByKey(ThemeKey(LoadSaved(s, saved, prefersDark).theme)) == Some(LoadSaved(s, saved, prefersDark).theme)
    ensures saved.theme.Some? && saved.theme.value in InheritedNames ==> LoadSaved(s, saved, prefersDark).theme == s.theme
  {
    ThemeByKeyInverts(LoadSaved(s, saved, prefersDark).theme, "");
  }

  // ---------------------------------------------------------------------
  // Applying a state to the document
  // ---------------------------------------------------------------------

  datatype ThemeColor = ThemeColor(light: string, dark: string)

  /** `colorValue[mode]`: nothing for a mode other than light and dark. */
  function ValueFor(c: ThemeColor, mode: string): Option<string> {
    if mode == "light" then Some(c.light) else if mode == "dark" then Some(c.dark) else None
  }

  /** The document root's state: its custom properties and whether it has the `dark` class. */
  datatype Root = Root(style: map<string, Option<string>>, dark: bool)

  /** The `setProperty` calls for the colour entries, in order. */
  function SetProperties(style: map<string, Option<string>>, colors: seq<(string, ThemeColor)>, mode: string)
    : map<string, Option<string>>
    decreases |colors|
  {
    if colors == [] then style
    else SetProperties(style[CssVarName(colors[0].0) := ValueFor(colors[0].1, mode)], colors[1..], mode)
  }

  /** The effect run on every change of theme or mode; `colors` is the current theme's colour table. */
  function Apply(root: Root, colors: seq<(string, ThemeColor)>, mode: string): (r: Root)
    ensures r.dark <==> mode == "dark"
  {
    Root(SetProperties(root.style, colors, mode), mode == "dark")
  }

  /**
   * After the effect, every colour key's variable holds that colour's value
   * for the mode, and any other variable is as it was — provided the keys
   * have no `-` and are distinct, as the colour tables' keys are.
   */
  lemma {:induction false} SetPropertiesSpec(style: map<string, Option<string>>, colors: seq<(string, ThemeColor)>, mode: string)
    requires forall i :: 0 <= i < |colors| ==> '-' !in colors[i].0
    requires forall i, j :: 0 <= i < j < |colors| ==> colors[i].0 != colors[j].0
    ensures var out := SetProperties(style, colors, mode);
      && (forall i :: 0 <= i < |colors| ==> CssVarName(colors[i].0) in out && out[CssVarName(colors[i].0)] == ValueFor(colors[i].1, mode))
      && (forall v :: v in style && (forall i :: 0 <= i < |colors| ==> v != CssVarName(colors[i].0)) ==> v in out && out[v] == style[v])
    decreases |colors|
  {
    if colors != [] {
      var style' := style[CssVarName(colors[0].0) := ValueFor(colors[0].1, mode)];
      SetPropertiesSpec(style', colors[1..], mode);
      var out := SetProperties(style, colors, mode);
      forall i | 1 <= i < |colors| ensures CssVarName(colors[0].0) != CssVarName(colors[i].0) {
        if CssVarName(colors[0].0) == CssVarName(colors[i].0) {
          CssVarNameInjective(colors[0].0, colors[i].0);
        }
      }
      assert CssVarName(colors[0].0) in out && out[CssVarName(colors[0].0)] == ValueFor(colors[0].1, mode) by {
        assert forall i :: 0 <= i < |colors[1..]| ==> CssVarName(colors[0].0) != CssVarName(colors[1..][i].0);
      }
      forall i | 1 <= i < |colors|
        ensures CssVarName(colors[i].0) in out && out[CssVarName(colors[i].0)] == ValueFor(colors[i].1, mode)
      {
        assert colors[i] == colors[1..][i - 1];
      }
      forall v | v in style && (forall i :: 0 <= i < |colors| ==> v != CssVarName(colors[i].0))
        ensures v in out && out[v] == style[v]
      {
        assert v != CssVarName(colors[0].0);
        assert forall i :: 0 <= i < |colors[1..]| ==> v != CssVarName(colors[1..][i].0) by {
          forall i | 0 <= i < |colors[1..]| ensures v != CssVarName(colors[1..][i].0) {
            assert colors[1..][i] == colors[i + 1];
          }
        }
      }
    }
  }
}
