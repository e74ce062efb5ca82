/**
 * The theme table of the content script and the part of `generateCSS`
 * that depends on the theme: the `:root` block that declares the
 * colour-scheme line and one CSS custom property per `--` entry.
 */
module Themes {
  import opened Prelude
  import opened JsStrings

  /** A property value of a theme object: the `dark` flag or a colour string. */
  datatype Value = Flag(b: bool) | Text(s: string)

  /** One own property of a theme object. */
  datatype Entry = Entry(key: string, value: Value)

  /**
   * A theme object as `Object.entries` lists it: its properties in
   * declaration order. `Object.entries` never lists a key twice; a sequence
   * with a repeated key stands for no object, and `Lookup` on it reads the
   * first entry while JavaScript would keep the last one.
   */
  type Theme = seq<Entry>

  const DarkNavy: Theme := [
    Entry("dark", Flag(true)),
    Entry("--background-color", Text("#1a202c")),
    Entry("--table-background-color", Text("#2d3848")),
    Entry("--text-color", Text("#dddddd")),
    Entry("--link-color", Text("#9facbe")),
    Entry("--pagetop-background-color", Text("#2d3848")),
    Entry("--pagetop-text-color", Text("#9facbe")),
    Entry("--pagetop-user-info-color", Text("#c8d2dc")),
    Entry("--pagetop-karma-color", Text("#ededed")),
    Entry("--hnname-color", Text("#bb86fc")),
    Entry("--title-link-color", Text("#ededed")),
    Entry("--title-link-visited-color", Text("#7fe0d4")),
    Entry("--subtext-link-color", Text("#c8d2dc")),
    Entry("--itemlist-even-bg-color", Text("#1c1c1c")),
    Entry("--itemlist-odd-bg-color", Text("#121212")),
    Entry("--c00-color", Text("#c8d2dc")),
    Entry("--active-link-color", Text("#ff4500"))
  ]

  const BlackTheme: Theme := [
    Entry("dark", Flag(true)),
    Entry("--background-color", Text("#1f1f1f")),
    Entry("--table-background-color", Text("#1f1f1f")),
    Entry("--text-color", Text("#e0e0e0")),
    Entry("--link-color", Text("#828282")),
    Entry("--pagetop-background-color", Text("#1f1f1f")),
    Entry("--pagetop-text-color", Text("#828282")),
    Entry("--pagetop-user-info-color", Text("#e0e0e0")),
    Entry("--pagetop-karma-color", Text("#ffffff")),
    Entry("--hnname-color", Text("#bb86fc")),
    Entry("--title-link-color", Text("#ededed")),
    Entry("--title-link-visited-color", Text("#868686")),
    Entry("--subtext-link-color", Text("#03dac6")),
    Entry("--itemlist-even-bg-color", Text("#1c1c1c")),
    Entry("--itemlist-odd-bg-color", Text("#121212")),
    Entry("--c00-color", Text("#ededed")),
    Entry("--active-link-color", Text("#ff6600"))
  ]

  /** The `themes` object, keyed by theme name. */
  const ThemeTable: map<string, Theme> := map["darkNavy" := DarkNavy, "blackTheme" := BlackTheme]

  /** The fallback theme name. */
  const DefaultTheme: string := "darkNavy"

  /** A theme name is valid when it is an own key of `themes`. */
  predicate ValidThemeName(name: string)
  {
    name == "darkNavy" || name == "blackTheme"
  }

  /** The valid names are exactly the keys of `themes`. */
  lemma ValidNamesAreKeys(name: string)
    ensures ValidThemeName(name) <==> name in ThemeTable
  {
  }

  /**
   * The names that `themes[name]` also finds, truthy, on the object's
   * prototype chain (`Object.prototype`), although they are not themes.
   */
  const ObjectPrototypeMembers: set<string> := {
    "constructor", "__proto__", "hasOwnProperty", "isPrototypeOf",
    "propertyIsEnumerable", "toString", "toLocaleString", "valueOf",
    "__defineGetter__", "__defineSetter__", "__lookupGetter__", "__lookupSetter__"
  }

  /** The guard as the source writes it: `themes[name]` is truthy. */
  predicate SourceThemeLookupTruthy(name: string)
  {
    ValidThemeName(name) || name in ObjectPrototypeMembers
  }

  /** The source's guard lets a non-theme name through. */
  lemma InheritedNamePassesSourceGuard()
    ensures SourceThemeLookupTruthy("constructor") && !ValidThemeName("constructor")
  {
  }

  // ----- Property lookup -----

  /** `theme[key]`: the value of the first entry with that key, if any. */
  function Lookup(t: Theme, key: string): (r: Option<Value>)
    ensures r.Some? <==> exists i :: 0 <= i < |t| && t[i].key == key
    ensures r.Some? ==> exists i :: 0 <= i < |t| && t[i] == Entry(key, r.value)
  {
    if t == [] then None
    else if t[0].key == key then Some(t[0].value)
    else
      var r := Lookup(t[1..], key);
      assert forall i :: 1 <= i < |t| ==> t[i] == t[1..][i - 1];
      r
  }

  /** JavaScript truthiness of a property value. */
  predicate Truthy(v: Value)
  {
    match v
    case Flag(b) => b
    case Text(s) => s != ""
  }

  /** `theme.dark` is truthy. */
  predicate IsDark(t: Theme)
  {
    match Lookup(t, "dark")
    case Some(v) => Truthy(v)
    case None => false
  }

  // ----- The variable block -----

  /** `key.startsWith('--')`: the entry is a CSS custom property. */
  predicate IsCustomProperty(key: string)
  {
    StartsWith(key, "--")
  }

  /** `Object.entries(theme).filter(([key]) => key.startsWith('--'))` */
  function CssVariables(t: Theme): (vs: Theme)
    ensures |vs| <= |t| && forall k :: 0 <= k < |vs| ==> IsCustomProperty(vs[k].key)
  {
    if t == [] then []
    else
      var last := t[|t| - 1];
      CssVariables(t[..|t| - 1]) + (if IsCustomProperty(last.key) then [last] else [])
  }

  /** `${value}`: the text a value is rendered as inside a template. */
  function RenderValue(v: Value): string
  {
    match v
    case Flag(b) => if b then "true" else "false"
    case Text(s) => s
  }

  /** `${key}: ${value};` */
  function RenderVariable(e: Entry): string
  {
    e.key + ": " + RenderValue(e.value) + ";"
  }

  /** `.map(([key, value]) => `${key}: ${value};`)` */
  function RenderVariables(vs: Theme): (rs: seq<string>)
    ensures |rs| == |vs| && forall k :: 0 <= k < |vs| ==> rs[k] == RenderVariable(vs[k])
  {
    seq(|vs|, k requires 0 <= k < |vs| => RenderVariable(vs[k]))
  }

  /** The indentation of every line inside the `:root` block. */
  const Indent: string := "      "

  /** `.join('\n      ')` of the rendered variables. */
  function VariableBlock(t: Theme): string
  {
    Join(RenderVariables(CssVariables(t)), "\n" + Indent)
  }

  /** `theme.dark ? 'color-scheme: dark;' : ''` */
  function ColorSchemeLine(t: Theme): (line: string)
    ensures line != "" <==> IsDark(t)
  {
    if IsDark(t) then "color-scheme: dark;" else ""
  }

  /**
   * The theme-dependent head of the template `generateCSS` returns, up to
   * the end of `:root`, written as the template's lines joined by line feeds.
   */
  function RootBlock(themeName: string, t: Theme): string
  {
    Join([
      "",
      "    /* Theme: " + themeName + " - Generated CSS with variables */",
      "",
      "    :root {",
      Indent + ColorSchemeLine(t),
      Indent + VariableBlock(t),
      "    }",
      ""], "\n")
  }

  /** `generateCSS(themeName)`, up to the end of the `:root` block. */
  function GenerateCSS(themeName: string): string
    requires ValidThemeName(themeName)
  {
    ValidNamesAreKeys(themeName);
    RootBlock(themeName, ThemeTable[themeName])
  }

  // ----- What the variable block contains -----

  /**
   * `idx` lists, in increasing order, the positions of `t` whose keys are
   * custom properties, and `vs` holds the entries at those positions.
   */
  ghost predicate SelectsCustomProperties(vs: Theme, t: Theme, idx: seq<nat>)
  {
    && |idx| == |vs|
    && (forall k :: 0 <= k < |idx| ==> idx[k] < |t| && vs[k] == t[idx[k]])
    && (forall k, m :: 0 <= k < m < |idx| ==> idx[k] < idx[m])
    && (forall i :: 0 <= i < |t| ==> (IsCustomProperty(t[i].key) <==> i in idx))
  }

  /** Appending one entry extends the selection of the entries before it. */
  lemma SelectionExtends(vs: Theme, init: Theme, idx: seq<nat>, e: Entry)
    requires SelectsCustomProperties(vs, init, idx)
    ensures IsCustomProperty(e.key) ==> SelectsCustomProperties(vs + [e], init + [e], idx + [|init|])
    ensures !IsCustomProperty(e.key) ==> SelectsCustomProperties(vs, init + [e], idx)
  {
    var t := init + [e];
    var n := |init|;
    assert forall i :: 0 <= i < n ==> t[i] == init[i];
    assert t[n] == e;
    forall k | 0 <= k < |idx| ensures idx[k] < n {
    }
    if IsCustomProperty(e.key) {
      var idx2 := idx + [n];
      forall i | 0 <= i < n ensures i in idx2 <==> i in idx {
        if i in idx2 { var k :| 0 <= k < |idx2| && idx2[k] == i; assert k < |idx|; }
      }
      assert idx2[|idx|] == n;
    } else {
      assert n !in idx;
    }
  }

  /**
   * The variable entries are exactly the theme's entries whose key starts
   * with `--`, each once, in declaration order.
   */
  lemma {:induction false} CssVariablesSelection(t: Theme) returns (idx: seq<nat>)
    ensures SelectsCustomProperties(CssVariables(t), t, idx)
  {
    if t == [] {
      idx := [];
    } else {
      var n := |t| - 1;
      var init := t[..n];
      var idx' := CssVariablesSelection(init);
      SelectionExtends(CssVariables(init), init, idx', t[n]);
      assert init + [t[n]] == t;
      idx := if IsCustomProperty(t[n].key) then idx' + [n] else idx';
    }
  }

  /** The `dark` flag is never emitted as a variable. */
  lemma {:induction false} DarkNeverAVariable(t: Theme)
    ensures forall k :: 0 <= k < |CssVariables(t)| ==> CssVariables(t)[k].key != "dark"
  {
    var idx := CssVariablesSelection(t);
    forall k | 0 <= k < |CssVariables(t)| ensures CssVariables(t)[k].key != "dark" {
      var key := CssVariables(t)[k].key;
      assert IsCustomProperty(t[idx[k]].key) by { assert idx[k] in idx; }
      assert key[0] == key[..2][0] == '-';
      assert "dark"[0] == 'd';
    }
  }

  // ----- The lines of the `:root` block -----

  /** `Indent` in front of every string of `rs`. */
  function Indented(rs: seq<string>): (ls: seq<string>)
    ensures |ls| == |rs| && forall k :: 0 <= k < |rs| ==> ls[k] == Indent + rs[k]
  {
    seq(|rs|, k requires 0 <= k < |rs| => Indent + rs[k])
  }

  /** The lines the variable block occupies: one per variable, or one blank line. */
  function VariableLines(t: Theme): seq<string>
  {
    if CssVariables(t) == [] then [Indent] else Indented(RenderVariables(CssVariables(t)))
  }

  /** The lines of the `:root` block, read off the template. */
  function RootBlockLines(themeName: string, t: Theme): seq<string>
  {
    RootBlockHead(themeName, t) + VariableLines(t) + ["    }", ""]
  }

  /** The lines of the `:root` block before the variables. */
  function RootBlockHead(themeName: string, t: Theme): seq<string>
  {
    ["", "    /* Theme: " + themeName + " - Generated CSS with variables */", "", "    :root {",
     Indent + ColorSchemeLine(t)]
  }

  /** Joining with a line feed and indentation is joining the indented strings with a line feed. */
  lemma {:induction false} IndentedJoin(rs: seq<string>)
    requires rs != []
    ensures Indent + Join(rs, "\n" + Indent) == Join(Indented(rs), "\n")
  {
    if |rs| > 1 {
      IndentedJoin(rs[1..]);
      assert Indented(rs) == [Indent + rs[0]] + Indented(rs[1..]);
      assert Indented(rs)[1..] == Indented(rs[1..]);
    }
  }

  /** The variable block, indented, is its lines joined by line feeds. */
  lemma VariableBlockAsLines(t: Theme)
    ensures Indent + VariableBlock(t) == Join(VariableLines(t), "\n")
  {
    var rs := RenderVariables(CssVariables(t));
    if rs == [] {
      assert Indent + VariableBlock(t) == Indent;
    } else {
      IndentedJoin(rs);
    }
  }

  /**
   * The `:root` block is, line by line: a comment naming the theme,
   * `:root {`, the colour-scheme line, one line `key: value;` per variable
   * entry in declaration order, and the closing brace.
   */
  lemma RootBlockAsLines(themeName: string, t: Theme)
    ensures RootBlock(themeName, t) == Join(RootBlockLines(themeName, t), "\n")
  {
    var head := RootBlockHead(themeName, t);
    var tail := ["    }", ""];
    var vb := Indent + VariableBlock(t);
    JoinThree(head, VariableLines(t), tail, "\n");
    JoinThree(head, [vb], tail, "\n");
    VariableBlockAsLines(t);
    assert head + [vb] + tail == [
      "", "    /* Theme: " + themeName + " - Generated CSS with variables */", "", "    :root {",
      Indent + ColorSchemeLine(t), vb, "    }", ""];
  }

  /** Neither keys nor rendered values of a theme contain a line feed. */
  ghost predicate SingleLineEntries(t: Theme)
  {
    forall i :: 0 <= i < |t| ==> '\n' !in t[i].key && '\n' !in RenderValue(t[i].value)
  }

  /** Each variable line is the indentation followed by a custom property name. */
  lemma VariableLinesShape(t: Theme)
    ensures forall k :: 0 <= k < |VariableLines(t)| ==>
      VariableLines(t)[k] == Indent ||
      (|VariableLines(t)[k]| > 7 && VariableLines(t)[k][6] == '-' && VariableLines(t)[k][7] == '-')
    ensures SingleLineEntries(t) ==> forall k :: 0 <= k < |VariableLines(t)| ==> '\n' !in VariableLines(t)[k]
  {
    var idx := CssVariablesSelection(t);
    var vs := CssVariables(t);
    var lines := VariableLines(t);
    if vs != [] {
      forall k | 0 <= k < |lines|
        ensures |lines[k]| > 7 && lines[k][6] == '-' && lines[k][7] == '-'
        ensures SingleLineEntries(t) ==> '\n' !in lines[k]
      {
        assert idx[k] in idx;
        var v := vs[k];
        assert v == t[idx[k]];
        assert lines[k] == Indent + (v.key + ": " + RenderValue(v.value) + ";");
        assert v.key[..2] == "--";
      }
    }
  }

  /**
   * For a theme written on single lines, splitting the block at line feeds
   * gives back exactly those lines.
   */
  lemma RootBlockSplitsIntoLines(themeName: string, t: Theme)
    requires '\n' !in themeName && SingleLineEntries(t)
    ensures Split(RootBlock(themeName, t), '\n') == RootBlockLines(themeName, t)
  {
    RootBlockLinesFree(themeName, t);
    RootBlockAsLines(themeName, t);
    JoinSplit(RootBlockLines(themeName, t), '\n');
  }

  /** No line of the block holds a line feed. */
  lemma RootBlockLinesFree(themeName: string, t: Theme)
    requires '\n' !in themeName && SingleLineEntries(t)
    ensures forall k :: 0 <= k < |RootBlockLines(themeName, t)| ==> '\n' !in RootBlockLines(themeName, t)[k]
  {
    var scheme := ColorSchemeLine(t);
    assert '\n' !in scheme by {
      if IsDark(t) {
        assert scheme == "color-scheme: dark;";
      }
    }
    HeadLinesFree(themeName, scheme);
    VariableLinesShape(t);
    LinesFreeConcat3(RootBlockHead(themeName, t), VariableLines(t), ["    }", ""]);
  }

  /** The lines before the variables hold no line feed when the theme name and scheme hold none. */
  lemma HeadLinesFree(themeName: string, scheme: string)
    requires '\n' !in themeName && '\n' !in scheme
    ensures var head := ["", "    /* Theme: " + themeName + " - Generated CSS with variables */", "", "    :root {", Indent + scheme];
      forall k :: 0 <= k < |head| ==> '\n' !in head[k]
  {
    NoLineFeedConcat("    /* Theme: ", themeName);
    NoLineFeedConcat("    /* Theme: " + themeName, " - Generated CSS with variables */");
    NoLineFeedConcat(Indent, scheme);
  }

  /** Three lists of lines free of line feeds make one. */
  lemma LinesFreeConcat3(a: seq<string>, b: seq<string>, c: seq<string>)
    requires forall k :: 0 <= k < |a| ==> '\n' !in a[k]
    requires forall k :: 0 <= k < |b| ==> '\n' !in b[k]
    requires forall k :: 0 <= k < |c| ==> '\n' !in c[k]
    ensures forall k :: 0 <= k < |a + b + c| ==> '\n' !in (a + b + c)[k]
  {
    LinesFreeConcat(a, b);
    LinesFreeConcat(a + b, c);
  }

  /** Two strings free of line feeds make one. */
  lemma NoLineFeedConcat(a: string, b: string)
    requires '\n' !in a && '\n' !in b
    ensures '\n' !in a + b
  {
    assert forall k :: |a| <= k < |a + b| ==> (a + b)[k] == b[k - |a|];
  }

  /** Two lists of lines free of line feeds make one. */
  lemma LinesFreeConcat(a: seq<string>, b: seq<string>)
    requires forall k :: 0 <= k < |a| ==> '\n' !in a[k]
    requires forall k :: 0 <= k < |b| ==> '\n' !in b[k]
    ensures forall k :: 0 <= k < |a + b| ==> '\n' !in (a + b)[k]
  {
    forall k | 0 <= k < |a + b| ensures '\n' !in (a + b)[k] {
      if k >= |a| {
        assert (a + b)[k] == b[k - |a|];
      }
    }
  }

  /** The line `color-scheme: dark;` is one of the block's lines exactly for dark themes. */
  lemma ColorSchemeLineIffDark(themeName: string, t: Theme)
    ensures Indent + "color-scheme: dark;" in RootBlockLines(themeName, t) <==> IsDark(t)
  {
    if IsDark(t) {
      assert RootBlockLines(themeName, t)[4] == Indent + "color-scheme: dark;";
    } else {
      NoColorSchemeLine(themeName, t);
    }
  }

  /** Without `dark`, no line of the block is `color-scheme: dark;`. */
  lemma NoColorSchemeLine(themeName: string, t: Theme)
    requires !IsDark(t)
    ensures forall k :: 0 <= k < |RootBlockLines(themeName, t)| ==>
      RootBlockLines(themeName, t)[k] != Indent + "color-scheme: dark;"
  {
    var target := Indent + "color-scheme: dark;";
    var lines := RootBlockLines(themeName, t);
    assert target[6] == 'c';
    forall k | 0 <= k < |lines| ensures lines[k] != target {
      if k == 1 {
        assert lines[1][4] == '/' && target[4] == ' ';
      } else if k == 3 {
        assert lines[3][4] == ':';
      } else if 5 <= k < |lines| - 2 {
        VariableLinesShape(t);
        assert lines[k] == VariableLines(t)[k - 5];
      }
    }
  }

  /** Every shipped theme's generated CSS declares `color-scheme: dark;`. */
  lemma ShippedThemesDeclareDarkScheme(name: string)
    requires ValidThemeName(name)
    ensures GenerateCSS(name) == Join(RootBlockLines(name, ThemeTable[name]), "\n")
    ensures Indent + "color-scheme: dark;" in RootBlockLines(name, ThemeTable[name])
  {
    ValidNamesAreKeys(name);
    RootBlockAsLines(name, ThemeTable[name]);
    ColorSchemeLineIffDark(name, ThemeTable[name]);
  }
}
