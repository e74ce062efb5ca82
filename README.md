# HN Skin content script — a Dafny model

HN Skin is a browser extension that re-skins Hacker News. Its content script
(`src/content/main.ts`) does four things when a page loads:

- It picks a theme. It looks first in `chrome.storage.sync`, then in the
  `hn-theme` key that the old userscript left in `localStorage`, and
  otherwise uses `darkNavy`.
- It applies that theme: it injects one `<style>` element whose `:root`
  block declares the theme's CSS custom properties, and `color-scheme: dark;`
  for dark themes.
- It rebuilds the `.pagetop` navigation bar. The bar becomes a fixed menu
  of links, with the current page's link marked active. The user link, the
  karma score and the logout link are added back after the menu.
- It adds a theme switcher to the footer.

The model has six modules:

- `Prelude`: `Option`.
- `JsStrings`: the JavaScript string built-ins the script uses
  (`startsWith`, `join`, `split` on one character, `trim` with the
  ECMAScript white-space set).
- `Themes`: the two themes as ordered key/value entries, in
  `Object.entries` order, and the `:root` block that `generateCSS` writes.
- `ThemeApplication`: theme-name validation, the decision chain of
  `loadInitialTheme`, and the class `ThemeState`. That class holds the
  script's `currentTheme` and `themeStyleElement`, plus the parts of the
  browser they touch: the children of `document.head`, the switcher's
  value, and the stored `hnTheme`. Its methods are `applyTheme`,
  `loadInitialTheme` and the value step of `addThemeSwitcher`.
- `Navigation`: DOM nodes, the active-link test, the separators
  `createLink` inserts, the menu `buildMenu` builds, and the class
  `Container`, whose `children` the two methods append to.
- `NavBar`: `modifyNav`. It covers the three `querySelector` lookups, the
  user id read from the threads link, the loop that collects the karma
  text, and the user-info element.

Page state comes in as parameters:

- the outcome of reading `localStorage`;
- the current `location.pathname`;
- the directory that relative hrefs resolve against;
- whether the page has a footer.

## Model

| member | source | states |
|---|---|---|
| Themes.Lookup | src/content/main.ts:70-73 | A key is found in a theme exactly when some entry has it, and the value returned is that entry's value. |
| Themes.CssVariables | src/content/main.ts:80 | Defines the filtered entries, in order. Each one's key starts with `--`, and there are no more of them than entries in the theme. `CssVariablesSelection` proves that exactly the `--` entries are kept. |
| Themes.ColorSchemeLine | src/content/main.ts:73 | Defines the colour-scheme text. It is non-empty exactly when the theme's `dark` flag is truthy. |
| Themes.VariableBlock | src/content/main.ts:80 | Defines the rendered `key: value;` declarations joined by a line feed and the indentation. `RootBlockSplitsIntoLines` states what it contains. |
| Themes.RootBlock | src/content/main.ts:75-81 | Defines the template text from the theme comment up to the closing brace of `:root`. `RootBlockSplitsIntoLines` and `ColorSchemeLineIffDark` state its lines. |
| Themes.GenerateCSS | src/content/main.ts:69-81 | Defines `generateCSS` of a theme name as the `:root` block of the theme with that name. `ShippedThemesDeclareDarkScheme` states its lines for the shipped themes. |
| Themes.CssVariablesSelection | src/content/main.ts:80 | The declared variables are exactly the entries whose key starts with `--`, in the theme's order. |
| Themes.DarkNeverAVariable | src/content/main.ts:73-80 | The `dark` flag never shows up as a CSS variable declaration. |
| Themes.RootBlockSplitsIntoLines | src/content/main.ts:75-81 | Split at line breaks, the `:root` block is: the theme comment line, the selector line, the colour-scheme line, then one indented `key: value;` line per variable. |
| Themes.ColorSchemeLineIffDark | src/content/main.ts:73-79 | The block has the line `color-scheme: dark;` exactly when the theme's `dark` flag is truthy. |
| Themes.ShippedThemesDeclareDarkScheme | src/content/main.ts:11-50 | For both shipped themes, `generateCSS` is the join of those lines and declares `color-scheme: dark;`. |
| ThemeApplication.ValidatedName | src/content/main.ts:268-271 | The name that is used is always a theme; a valid name is kept and any other name becomes `darkNavy`. |
| ThemeApplication.ValidatedNameAsWritten | src/content/main.ts:268-271 | Tests the guard as written (`themes[name]` truthy). It agrees with the own-key validation `ValidatedName` exactly when the name is not an inherited `Object.prototype` member. This is the as-written half of the finding. |
| ThemeApplication.AsWrittenValidationKeepsNonTheme | src/content/main.ts:268-271 | With the guard as written (`themes[name]` truthy), `"constructor"` is kept even though it is not a theme. |
| ThemeApplication.ResolveInitialTheme | src/content/main.ts:303-332 | A valid sync value wins and is not rewritten. Otherwise a valid `localStorage` value is used and migrated. Otherwise the result is `darkNavy`. A migration happens exactly in the second case. |
| ThemeApplication.LocalStorageFailureIsAbsence | src/content/main.ts:314-326 | A `localStorage` read that throws resolves the same way as a missing value. |
| ThemeApplication.AppliedThemeReloads | src/content/main.ts:294 | The name `applyTheme` persists is what the next load returns, with no migration. |
| ThemeApplication.MigrationIsStable | src/content/main.ts:319 | After the migration write, loading again gives the same theme and writes nothing. |
| ThemeApplication.ThemeState.ApplyTheme | src/content/main.ts:266-297 | See below. |
| ThemeApplication.ThemeState.constructor | src/content/main.ts:55-58 | The state when the script starts: `currentTheme` is `darkNavy`, there is no injected style, the head has no theme style, there is no switcher yet, and storage holds whatever was saved. |
| ThemeApplication.ThemeState.LoadInitialTheme | src/content/main.ts:303-332 | Returns the resolved theme. Sync storage is written only when migrating, and then holds the migrated name. |
| ThemeApplication.ThemeState.AddThemeSwitcher | src/content/main.ts:468-491 | With a footer, the switcher shows the current theme; without one nothing changes. The invariant is kept. |
| ThemeApplication.StartUp | src/content/main.ts:516-525 | Loading then applying leaves the resolved theme current, stored, and the only theme style in the head. |
| JsStrings.Split | src/content/main.ts:408 | `split` always returns at least one field. |
| JsStrings.SplitJoin | src/content/main.ts:408 | Joining the fields of a split with the separator gives back the original string. |
| JsStrings.Trim | src/content/main.ts:439-442 | `trim` returns a slice of the input with only white space removed at each end, and it neither starts nor ends with white space. |
| JsStrings.TrimEmptyIff | src/content/main.ts:439 | The trimmed text is empty exactly when every character is white space. |
| JsStrings.StartsWith | src/content/main.ts:80 | Defines `startsWith`: the prefix has at most the string's length and matches the string's first characters. |
| JsStrings.Join | src/content/main.ts:80 | Defines `join`: the parts with the separator between each two. `SplitJoin` and `JoinSplit` relate it to `split`. |
| Navigation.IsActiveIff | src/content/main.ts:349-357 | A link is marked active exactly when its href has a pathname and that pathname is the page's. |
| Navigation.Pathname | src/content/main.ts:350-351 | Defines the pathname of a root-relative href as the text before `?` or `#`. For any other href it is `None`: an href the model does not parse (see "Left out"). |
| Navigation.IsActive | src/content/main.ts:352-354 | Defines the active test. `IsActiveIff` proves it is exactly "the pathname exists and equals the page's". |
| Navigation.MakeLinkActive | src/content/main.ts:345-357 | The link `createLink` makes is an anchor with the given href and text. It has class `active` exactly when its href's pathname is the page's. |
| Navigation.AddLink | src/content/main.ts:359-367 | Defines `createLink`'s effect on the child list: the two sequential length tests, then the link. `AddLinkSeparator` states the three cases. |
| Navigation.AddLinkSeparator | src/content/main.ts:359-367 | With 0 or 2 children the link alone is appended. With 1 child, `' '` then the link. With more than 2, `' \| '` then the link. |
| Navigation.Container.CreateLink | src/content/main.ts:344-368 | The container's new children are the old ones followed by the separator rule's nodes and the new link, whose active flag is set as above. |
| Navigation.Container.BuildMenu | src/content/main.ts:375-389 | The container's new children are the old ones with the menu links added one by one, in the source's order. |
| Navigation.Container.constructor | src/content/main.ts:344 | A container with the given children and classes. |
| Navigation.MenuLinks | src/content/main.ts:375-389 | Defines the menu links: 7, or 8 with a user id. `MenuContents` and `AtMostOneActiveLink` state what they contain. |
| Navigation.LayoutFromEmpty | src/content/main.ts:359-365 | Added to an empty container, the links sit at the even positions, with `' '` after the first and `' \| '` between the others. |
| Navigation.BuildMenuFromEmpty | src/content/main.ts:375-389 | Building the menu in an empty container gives exactly that layout for the menu links. |
| Navigation.MenuContents | src/content/main.ts:376-388 | The menu has 7 links, or 8 with a user id. A threads link is present exactly when the id is non-empty, and then it is the fourth link and points at `/threads?id=` followed by the id. |
| Navigation.MenuHrefPathnames | src/content/main.ts:350-351 | Every menu href resolves to a pathname: the href without its query. |
| Navigation.AtMostOneActiveLink | src/content/main.ts:349-357 | A menu link is active exactly when its path is the page's path, so at most one menu link is active. |
| NavBar.FindAnchor | src/content/main.ts:403-405 | `querySelector('a[href^=…]')` returns the first anchor whose href has the prefix, and no earlier node matches. |
| NavBar.Username | src/content/main.ts:403-407 | The user name is the text of the first child anchor whose href starts with `user?id=`. It is empty when no child matches. |
| NavBar.UserId | src/content/main.ts:408 | Defines `threadsLink?.href.split('=')[1] ?? ''`, on the resolved href. `UserIdOfThreadsLink` states what it is. |
| NavBar.TextOf | src/content/main.ts:413-418 | Defines the concatenated text of the text nodes of a list, in order. `TextOfAppend` and `TextOfWithoutTextNodes` characterise it. |
| NavBar.KarmaText | src/content/main.ts:410-420 | Defines the karma text when both links exist: the text of the text nodes after the user link, up to the logout link when that comes later, or else up to the end of the bar. Without both links it is empty. `CollectKarmaText` is the loop proved against it. |
| NavBar.UserIdOfThreadsLink | src/content/main.ts:405-408 | Without a threads link the user id is empty. Otherwise, when the page's URL has no `=` before its last `/`, the user id is the text after `threads?id=` in the link up to the next `=`: a prefix of that text, free of `=`, and followed by `=` or by the end. |
| NavBar.UserIdIsThreadsId | src/content/main.ts:405-408 | When the page's URL has no `=` before its last `/`, a threads link `threads?id=<id>` whose id has no `=` gives exactly that id. |
| NavBar.CollectKarmaText | src/content/main.ts:411-420 | The loop collects the text of the text nodes after the user link. It stops at the logout link when that comes later, otherwise at the end of the bar. |
| NavBar.ReadUser | src/content/main.ts:403-420 | The user name, user id and karma text are the ones defined from the old children. |
| NavBar.BuildUserInfo | src/content/main.ts:433-455 | The `span.user-info` built by the imperative steps is the user-info element. |
| NavBar.UserInfoContents | src/content/main.ts:432-456 | See below. |
| NavBar.UserInfo | src/content/main.ts:432-456 | Defines the `span.user-info` element, present only with a user name. `UserInfoContents` states its contents. |
| NavBar.KarmaScore | src/content/main.ts:439-443 | Defines the `span.karma-score` holding the trimmed karma text, present only when that text is not empty. |
| NavBar.ModifiedNav | src/content/main.ts:423-456 | Defines the children of `.pagetop` after `modifyNav`: the menu, then the user info. `ModifiedNavLayout` states its shape. |
| NavBar.ModifiedNavLayout | src/content/main.ts:423-456 | The new bar is the menu layout followed by the user info. The user info is present exactly when there is a user name. The menu has the threads link exactly when a non-empty user id was read. |
| NavBar.RebuildNav | src/content/main.ts:423-456 | After clearing, the bar holds the menu followed by the user info, and its classes gain `menu`. |
| NavBar.ModifyNav | src/content/main.ts:394-459 | Without `.pagetop` nothing changes. Otherwise the bar's children become the modified navigation computed from the old children, and `menu` is added to its classes. |

Two of these contracts say more than fits in the table:

- `ThemeApplication.ThemeState.ApplyTheme`:
  - the current theme becomes the validated name;
  - the old injected style is removed;
  - a style for the new theme is appended and becomes the only theme style;
  - the page's own head nodes are unchanged;
  - an existing switcher shows the theme;
  - sync storage holds it.
- `NavBar.UserInfoContents`: the user info is there exactly when there is a
  user name. It then holds:
  - a link to `/user?id=<name>`;
  - a karma score equal to the trimmed karma text, present exactly when the
    karma text has a character that is not white space;
  - `' | '`;
  - a link to `/logout`.

## Left out

- The fixed CSS rules after the `:root` block (`src/content/main.ts:83-254`) are constant text. They are not modelled. The model of `generateCSS` is the comment line and the `:root` block.
- The text of an injected style element (`src/content/main.ts:280`) is not held in the state. A head node records only the style's theme attribute, and the text is `Themes.GenerateCSS` of that theme.
- Console output, and the callbacks and promises of `chrome.storage` and `initialize`, are left out. Storage is one field that writes update at once. `loadInitialTheme` gets the outcome of the `localStorage` read as a parameter.
- ThemeApplication.ResolveInitialTheme: the migration write never fails in the model. In the source, the `try` at `src/content/main.ts:314-326` also wraps the write at line 319. If that write threw, the source would resolve `darkNavy`, not the `localStorage` theme.
- Themes.Lookup: a theme is a sequence of entries, which could repeat a key. `Object.entries` never lists a key twice, so such a sequence stands for no theme object. On one, `Lookup` would read the first entry where JavaScript keeps the last. Both shipped themes list each key once.
- `initialize` is modelled only as its first two steps, load then apply (`ThemeApplication.StartUp`). `modifyNav` and `addThemeSwitcher` are modelled separately. The `try`/`catch` around the steps is left out.
- `addThemeSwitcher` is modelled only as setting the select's value to the current theme. These parts are left out:
  - building the span, the options and the text node;
  - appending a new switcher on every call;
  - the change listener that calls `applyTheme`.
- Navigation.Pathname: URL parsing is modelled only for root-relative hrefs (one leading `/`), which are all that `buildMenu` passes. Their pathname is the text before `?` or `#`. Any other href is treated as a parse that gives no pathname, so the link is never active. Percent-encoding and dot segments are not modelled.
- NavBar.ResolveRelative: the threads link's `href` property is the page's directory followed by the attribute value. Full relative-URL resolution is not modelled.
- The `.pagetop` element is modelled as a flat list of child nodes. `querySelector` finds descendants at any depth, and `nextSibling` walks siblings of the user link wherever it sits. The model looks only at direct children.
- The user link's `textContent` is the anchor's own text. Markup nested inside an anchor is not modelled.
- `src/background` and `src/options` are not part of this model, and neither is `vite.config.ts`.

## Findings

| source | as written | input that shows it | evidently intended | confidence | as-written member | corrected member |
|---|---|---|---|---|---|---|
| src/content/main.ts:268-271 | `if (!themes[themeName])` treats any truthy property of the `themes` object as a theme, and the same test guards the stored values at lines 307 and 316 | `"constructor"`: for example a stored `hnTheme` or `hn-theme` value. Both values are cast to `ThemeName` without a check. `themes["constructor"]` is `Object`, which is truthy, so the name is kept and `generateCSS` reads `themes["constructor"]` as a theme | only the two own keys `darkNavy` and `blackTheme` are accepted | low; not executed | ThemeApplication.AsWrittenValidationKeepsNonTheme | ThemeApplication.ValidatedName |
