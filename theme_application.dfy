/**
 * Applying a theme to the page and choosing the theme to start with.
 * The module-level state of the content script (`currentTheme`,
 * `themeStyleElement`) together with the parts of the browser it touches
 * (the children of `document.head`, the theme switcher's value and the
 * `hnTheme` key of `chrome.storage.sync`) form one object.
 */
module ThemeApplication {
  import opened Prelude
  import opened Themes

  /**
   * A child of `document.head`: a style element this script injected, with
   * its `data-hn-skin-theme` attribute, or a node of the page.
   */
  datatype HeadNode = ThemeStyle(theme: string) | PageNode(id: nat)

  /** The theme style elements among the children of the head, in order. */
  function ThemeStyles(head: seq<HeadNode>): seq<HeadNode>
  {
    if head == [] then []
    else ThemeStyles(head[..|head| - 1]) + (if head[|head| - 1].ThemeStyle? then [head[|head| - 1]] else [])
  }

  /** The page's own children of the head, in order. */
  function PageNodes(head: seq<HeadNode>): seq<HeadNode>
  {
    if head == [] then []
    else PageNodes(head[..|head| - 1]) + (if head[|head| - 1].PageNode? then [head[|head| - 1]] else [])
  }

  /** `element.remove()`: the head without that element. */
  function Remove(head: seq<HeadNode>, e: HeadNode): seq<HeadNode>
  {
    if head == [] then []
    else Remove(head[..|head| - 1], e) + (if head[|head| - 1] != e then [head[|head| - 1]] else [])
  }

  /** Appending a style adds it to the theme styles and leaves the page's nodes alone. */
  lemma AppendStyle(head: seq<HeadNode>, s: HeadNode)
    requires s.ThemeStyle?
    ensures ThemeStyles(head + [s]) == ThemeStyles(head) + [s]
    ensures PageNodes(head + [s]) == PageNodes(head)
  {
    assert (head + [s])[..|head|] == head;
  }

  /** Removing the only theme style leaves none and keeps the page's nodes. */
  lemma {:induction false} RemoveStyle(head: seq<HeadNode>, e: HeadNode)
    requires e.ThemeStyle? && forall k :: 0 <= k < |ThemeStyles(head)| ==> ThemeStyles(head)[k] == e
    ensures ThemeStyles(Remove(head, e)) == []
    ensures PageNodes(Remove(head, e)) == PageNodes(head)
  {
    if head != [] {
      var init := head[..|head| - 1];
      var last := head[|head| - 1];
      assert head == init + [last];
      assert ThemeStyles(head) == ThemeStyles(init) + (if last.ThemeStyle? then [last] else []);
      forall k | 0 <= k < |ThemeStyles(init)| ensures ThemeStyles(init)[k] == e {
        assert ThemeStyles(init)[k] == ThemeStyles(head)[k];
      }
      RemoveStyle(init, e);
      var r := Remove(init, e);
      if last.ThemeStyle? {
        assert ThemeStyles(head)[|ThemeStyles(init)|] == last;
      }
      if last != e {
        assert Remove(head, e) == r + [last];
        assert (r + [last])[..|r|] == r;
      } else {
        assert Remove(head, e) == r;
      }
    }
  }

  // ----- Validating a theme name -----

  /** `if (!themes[themeName]) themeName = 'darkNavy'`, with the guard an own-key test. */
  function ValidatedName(name: string): (v: string)
    ensures ValidThemeName(v)
    ensures ValidThemeName(name) ==> v == name
    ensures !ValidThemeName(name) ==> v == DefaultTheme
  {
    if ValidThemeName(name) then name else DefaultTheme
  }

  /** The same validation with the guard as the source writes it: `themes[themeName]` truthy. */
  function ValidatedNameAsWritten(name: string): (v: string)
    ensures v == ValidatedName(name) <==> name !in ObjectPrototypeMembers
  {
    if SourceThemeLookupTruthy(name) then name else DefaultTheme
  }

  /** As written, validating `"constructor"` keeps a name that is not a theme. */
  lemma AsWrittenValidationKeepsNonTheme()
    ensures ValidatedNameAsWritten("constructor") == "constructor"
    ensures !ValidThemeName(ValidatedNameAsWritten("constructor"))
  {
    InheritedNamePassesSourceGuard();
  }

  // ----- Choosing the initial theme -----

  /** What `localStorage.getItem('hn-theme')` did: threw, or returned a string or `null`. */
  datatype LocalStorageRead = Threw | Item(value: Option<string>)

  /** The theme `loadInitialTheme` resolves to, and whether it writes it to sync storage. */
  datatype Resolution = Resolution(theme: string, migrate: bool)

  /** Sync storage holds a valid theme name. */
  predicate SyncHit(stored: Option<string>)
  {
    stored.Some? && ValidThemeName(stored.value)
  }

  /** `localStorage` returned a valid theme name. */
  predicate LocalHit(local: LocalStorageRead)
  {
    local.Item? && local.value.Some? && ValidThemeName(local.value.value)
  }

  /**
   * The decision chain of `loadInitialTheme`, given the `hnTheme` value read
   * from sync storage and the outcome of reading `localStorage`.
   */
  function ResolveInitialTheme(stored: Option<string>, local: LocalStorageRead): (r: Resolution)
    ensures ValidThemeName(r.theme)
    ensures SyncHit(stored) ==> r == Resolution(stored.value, false)
    ensures !SyncHit(stored) && LocalHit(local) ==> r == Resolution(local.value.value, true)
    ensures !SyncHit(stored) && !LocalHit(local) ==> r == Resolution(DefaultTheme, false)
    ensures r.migrate <==> !SyncHit(stored) && LocalHit(local)
  {
    if SyncHit(stored) then Resolution(stored.value, false)
    else if LocalHit(local) then Resolution(local.value.value, true)
    else Resolution(DefaultTheme, false)
  }

  /** A failure to read `localStorage` counts as finding no value there. */
  lemma LocalStorageFailureIsAbsence(stored: Option<string>)
    ensures ResolveInitialTheme(stored, Threw) == ResolveInitialTheme(stored, Item(None))
  {
  }

  /** The name `applyTheme` persists is what the next load resolves to, with no write. */
  lemma AppliedThemeReloads(name: string, local: LocalStorageRead)
    ensures ResolveInitialTheme(Some(ValidatedName(name)), local) == Resolution(ValidatedName(name), false)
  {
  }

  /** Once a migration has been written, loading again gives the same theme and writes nothing. */
  lemma MigrationIsStable(stored: Option<string>, local: LocalStorageRead)
    ensures var r := ResolveInitialTheme(stored, local);
      var stored' := if r.migrate then Some(r.theme) else stored;
      ResolveInitialTheme(stored', local) == Resolution(r.theme, false)
  {
  }

  // ----- The theme state of the page -----

  class ThemeState {
    /** `currentTheme` */
    var currentTheme: string
    /** `themeStyleElement` */
    var themeStyleElement: Option<HeadNode>
    /** The children of `document.head`. */
    var head: seq<HeadNode>
    /** The value of the `.theme_switcher select` element, when the page has one. */
    var switcherValue: Option<string>
    /** The `hnTheme` entry of `chrome.storage.sync`. */
    var storedTheme: Option<string>

    /**
     * The current theme is a theme; the injected style, when there is one,
     * is the only theme style in the head and is the current theme's; the
     * switcher shows the current theme.
     */
    ghost predicate Valid()
      reads this
    {
      && ValidThemeName(currentTheme)
      && (themeStyleElement.Some? ==> themeStyleElement.value == ThemeStyle(currentTheme))
      && ThemeStyles(head) == (if themeStyleElement.Some? then [themeStyleElement.value] else [])
      && (switcherValue.Some? ==> switcherValue.value == currentTheme)
    }

    /** The state when the content script starts on a page. */
    constructor (pageHead: seq<HeadNode>, stored: Option<string>)
      requires ThemeStyles(pageHead) == []
      ensures Valid()
      ensures currentTheme == DefaultTheme && themeStyleElement == None
      ensures head == pageHead && switcherValue == None && storedTheme == stored
    {
      currentTheme := DefaultTheme;
      themeStyleElement := None;
      head := pageHead;
      switcherValue := None;
      storedTheme := stored;
    }

    /** `applyTheme(themeName)` */
    method ApplyTheme(themeName: string)
      requires Valid()
      modifies this
      ensures Valid()
      ensures currentTheme == ValidatedName(themeName)
      ensures themeStyleElement == Some(ThemeStyle(currentTheme))
      ensures head == (if old(themeStyleElement).Some? then Remove(old(head), old(themeStyleElement).value)
                       else old(head)) + [themeStyleElement.value]
      ensures ThemeStyles(head) == [themeStyleElement.value]
      ensures PageNodes(head) == PageNodes(old(head))
      ensures switcherValue == if old(switcherValue).Some? then Some(currentTheme) else None
      ensures storedTheme == Some(currentTheme)
    {
      var name := ValidatedName(themeName);
      if themeStyleElement.Some? {
        RemoveStyle(head, themeStyleElement.value);
        head := Remove(head, themeStyleElement.value);
      }
      var style := ThemeStyle(name);
      AppendStyle(head, style);
      head := head + [style];
      themeStyleElement := Some(style);
      currentTheme := name;
      if switcherValue.Some? {
        switcherValue := Some(name);
      }
      storedTheme := Some(name);
    }

    /** `loadInitialTheme()`, given what reading `localStorage` does. */
    method LoadInitialTheme(local: LocalStorageRead) returns (name: string)
      modifies this`storedTheme
      ensures name == ResolveInitialTheme(old(storedTheme), local).theme
      ensures storedTheme == if ResolveInitialTheme(old(storedTheme), local).migrate then Some(name)
                             else old(storedTheme)
    {
      if storedTheme.Some? && ValidThemeName(storedTheme.value) {
        return storedTheme.value;
      }
      if local.Item? && local.value.Some? && ValidThemeName(local.value.value) {
        storedTheme := local.value;
        return local.value.value;
      }
      name := DefaultTheme;
    }

    /** The `select.value = currentTheme` step of `addThemeSwitcher`, on pages with a footer. */
    method AddThemeSwitcher(hasFooter: bool)
      requires Valid()
      modifies this`switcherValue
      ensures Valid()
      ensures switcherValue == if hasFooter then Some(currentTheme) else old(switcherValue)
    {
      if hasFooter {
        switcherValue := Some(currentTheme);
      }
    }
  }

  /**
   * Start-up as `initialize` orders it: load the initial theme, then apply
   * it. The page then shows the loaded theme, stored in sync storage.
   */
  method StartUp(state: ThemeState, local: LocalStorageRead) returns (name: string)
    requires state.Valid()
    modifies state
    ensures state.Valid()
    ensures name == ResolveInitialTheme(old(state.storedTheme), local).theme
    ensures state.currentTheme == name && state.storedTheme == Some(name)
    ensures state.themeStyleElement == Some(ThemeStyle(name)) && ThemeStyles(state.head) == [ThemeStyle(name)]
  {
    name := state.LoadInitialTheme(local);
    state.ApplyTheme(name);
  }
}
