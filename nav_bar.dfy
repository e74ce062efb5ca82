/**
 * `modifyNav`: read the user name, the user id and the karma text from the
 * `.pagetop` element, empty it, build the menu in it and put the user's
 * links back on the right.
 *
 * The `.pagetop` element is modelled by its child list; `querySelector`
 * looks for the first matching anchor among those children, and the
 * siblings after the user link are the children after it.
 */
module NavBar {
  import opened Prelude
  import opened JsStrings
  import opened Navigation

  /** The `href^=` prefixes of the three links `modifyNav` looks for. */
  const UserPrefix := "user?id="
  const LogoutPrefix := "logout"
  const ThreadsPrefix := "threads?id="

  /** The node matches `a[href^="prefix"]`: an anchor whose href attribute starts with `prefix`. */
  predicate MatchesAnchor(n: Node, prefix: string)
  {
    n.Anchor? && StartsWith(n.href, prefix)
  }

  /** `pagetop.querySelector('a[href^="prefix"]')`: the first matching child, if any. */
  function FindAnchor(nodes: seq<Node>, prefix: string): (r: Option<nat>)
    ensures r.Some? ==> r.value < |nodes| && MatchesAnchor(nodes[r.value], prefix)
    ensures forall k :: 0 <= k < |nodes| && (r.None? || k < r.value) ==> !MatchesAnchor(nodes[k], prefix)
  {
    if nodes == [] then None
    else if MatchesAnchor(nodes[0], prefix) then Some(0)
    else
      match FindAnchor(nodes[1..], prefix)
      case None => None
      case Some(i) => Some(i + 1)
  }

  /**
   * `userLink?.textContent || ''`: the text of the first child anchor whose
   * href starts with `user?id=`, or empty when there is none.
   */
  function Username(nodes: seq<Node>): (name: string)
    ensures (forall k :: 0 <= k < |nodes| ==> !MatchesAnchor(nodes[k], UserPrefix)) ==> name == ""
    ensures forall k ::
      (0 <= k < |nodes| && MatchesAnchor(nodes[k], UserPrefix) &&
       (forall j :: 0 <= j < k ==> !MatchesAnchor(nodes[j], UserPrefix))) ==> name == nodes[k].text
  {
    match FindAnchor(nodes, UserPrefix)
    case None => ""
    case Some(u) => nodes[u].text
  }

  /**
   * `link.href` for a path-relative href attribute such as `threads?id=…`:
   * the attribute appended to `baseDir`, the page's URL up to and including
   * the last `/` of its path.
   */
  function ResolveRelative(baseDir: string, href: string): string
  {
    baseDir + href
  }

  /** `threadsLink?.href.split('=')[1] ?? ''` */
  function UserId(nodes: seq<Node>, baseDir: string): string
  {
    match FindAnchor(nodes, ThreadsPrefix)
    case None => ""
    case Some(t) =>
      var fields := Split(ResolveRelative(baseDir, nodes[t].href), '=');
      if |fields| > 1 then fields[1] else ""
  }

  /**
   * When the page's URL has no `=` before its last `/`, the user id is the
   * value of the threads link's `id=`, up to the next `=`; without a
   * threads link it is empty.
   */
  lemma UserIdOfThreadsLink(nodes: seq<Node>, baseDir: string)
    requires '=' !in baseDir
    ensures FindAnchor(nodes, ThreadsPrefix).None? ==> UserId(nodes, baseDir) == ""
    ensures FindAnchor(nodes, ThreadsPrefix).Some? ==>
      var href := nodes[FindAnchor(nodes, ThreadsPrefix).value].href;
      var rest := href[|ThreadsPrefix|..];
      var id := UserId(nodes, baseDir);
      && id == Split(rest, '=')[0]
      && |id| <= |rest| && rest[..|id|] == id && '=' !in id && (|id| < |rest| ==> rest[|id|] == '=')
  {
    var t := FindAnchor(nodes, ThreadsPrefix);
    if t.Some? {
      var href := nodes[t.value].href;
      var rest := href[|ThreadsPrefix|..];
      var a := baseDir + "threads?id";
      assert href == ThreadsPrefix + rest;
      assert ResolveRelative(baseDir, href) == a + ['='] + rest;
      assert '=' !in a by {
        assert forall k :: 0 <= k < |baseDir| ==> a[k] == baseDir[k];
        assert forall k :: |baseDir| <= k < |a| ==> a[k] == "threads?id"[k - |baseDir|];
      }
      SplitAppend(a, rest, '=');
      SplitNoSeparator(a, '=');
      SplitFirstField(rest, '=');
    }
  }

  /** A threads link `threads?id=<id>` with an id free of `=` gives exactly that id. */
  lemma UserIdIsThreadsId(nodes: seq<Node>, baseDir: string, id: string)
    requires '=' !in baseDir && '=' !in id
    requires FindAnchor(nodes, ThreadsPrefix).Some?
    requires nodes[FindAnchor(nodes, ThreadsPrefix).value].href == ThreadsPrefix + id
    ensures UserId(nodes, baseDir) == id
  {
    UserIdOfThreadsLink(nodes, baseDir);
    assert (ThreadsPrefix + id)[|ThreadsPrefix|..] == id;
    SplitNoSeparator(id, '=');
  }

  // ----- The karma text -----

  /** The concatenated `textContent` of the text nodes of a list, in order. */
  function TextOf(nodes: seq<Node>): string
  {
    if nodes == [] then ""
    else TextOf(nodes[..|nodes| - 1]) + (if nodes[|nodes| - 1].TextNode? then nodes[|nodes| - 1].text else "")
  }

  /** The text of two lists one after the other is the text of the first, then of the second. */
  lemma {:induction false} TextOfAppend(a: seq<Node>, b: seq<Node>)
    ensures TextOf(a + b) == TextOf(a) + TextOf(b)
  {
    if b == [] {
      assert a + b == a;
    } else {
      var b' := b[..|b| - 1];
      TextOfAppend(a, b');
      assert (a + b)[..|a + b| - 1] == a + b';
      assert (a + b)[|a + b| - 1] == b[|b| - 1];
    }
  }

  /** Only text nodes contribute: a list without text nodes has no text. */
  lemma {:induction false} TextOfWithoutTextNodes(nodes: seq<Node>)
    requires forall k :: 0 <= k < |nodes| ==> !nodes[k].TextNode?
    ensures TextOf(nodes) == ""
  {
    if nodes != [] {
      TextOfWithoutTextNodes(nodes[..|nodes| - 1]);
    }
  }

  /**
   * Where the walk from the user link's next sibling stops: at the logout
   * link when it comes after the user link, otherwise at the end of the
   * list, since the walk never meets it.
   */
  function KarmaStop(n: nat, user: nat, logout: nat): nat
  {
    if user < logout then logout else n
  }

  /** The karma text `modifyNav` collects, given the positions of the user and logout links. */
  function KarmaText(nodes: seq<Node>, user: Option<nat>, logout: Option<nat>): string
  {
    if user.Some? && logout.Some? && user.value < |nodes| && logout.value < |nodes| then
      TextOf(nodes[user.value + 1..KarmaStop(|nodes|, user.value, logout.value)])
    else ""
  }

  /** The `while (node && node !== logoutLink)` loop over the siblings after the user link. */
  method CollectKarmaText(nodes: seq<Node>, user: nat, logout: nat) returns (karma: string)
    requires user < |nodes| && logout < |nodes|
    ensures karma == TextOf(nodes[user + 1..KarmaStop(|nodes|, user, logout)])
  {
    karma := "";
    var i := user + 1;
    while i < |nodes| && i != logout
      invariant user + 1 <= i <= KarmaStop(|nodes|, user, logout)
      invariant karma == TextOf(nodes[user + 1..i])
      decreases |nodes| - i
    {
      assert nodes[user + 1..i + 1][..i - user - 1] == nodes[user + 1..i];
      if nodes[i].TextNode? {
        karma := karma + nodes[i].text;
      }
      i := i + 1;
    }
  }

  // ----- The user info -----

  /** The karma score element, when the trimmed karma text is not empty. */
  function KarmaScore(karmaText: string): seq<Node>
  {
    var karma := Trim(karmaText);
    if karma != "" then [Element("span", "karma-score", [TextNode(karma)])] else []
  }

  /** The `span.user-info` element `modifyNav` appends, present only with a user name. */
  function UserInfo(username: string, karmaText: string): seq<Node>
  {
    if username == "" then []
    else
      [Element("span", "user-info",
        [Anchor("/user?id=" + username, username, false)] + KarmaScore(karmaText) +
        [TextNode(" | "), Anchor("/logout", "logout", false)])]
  }

  /**
   * The user info is there exactly when there is a user name; it links to
   * the user's page and to logout, and shows the karma score exactly when
   * the karma text has a character that is not white space, as that text
   * trimmed.
   */
  lemma UserInfoContents(username: string, karmaText: string)
    ensures |UserInfo(username, karmaText)| == (if username == "" then 0 else 1)
    ensures username != "" ==>
      var info := UserInfo(username, karmaText)[0];
      && info.Element? && info.tag == "span" && info.className == "user-info"
      && info.children[0] == Anchor("/user?id=" + username, username, false)
      && info.children[|info.children| - 1] == Anchor("/logout", "logout", false)
      && info.children[|info.children| - 2] == TextNode(" | ")
      && (|info.children| == 4 <==> exists k :: 0 <= k < |karmaText| && !IsWhiteSpace(karmaText[k]))
      && (|info.children| == 4 ==> info.children[1] == Element("span", "karma-score", [TextNode(Trim(karmaText))]))
      && (|info.children| == 3 || |info.children| == 4)
  {
    TrimEmptyIff(karmaText);
  }

  // ----- The navigation bar -----

  /** The children of `.pagetop` after `modifyNav`. */
  function ModifiedNav(nodes: seq<Node>, baseDir: string, here: string): seq<Node>
  {
    var karma := KarmaText(nodes, FindAnchor(nodes, UserPrefix), FindAnchor(nodes, LogoutPrefix));
    AppendLinks([], MenuLinks(UserId(nodes, baseDir), here)) + UserInfo(Username(nodes), karma)
  }

  /**
   * The new navigation bar is the menu, links separated by `' '` then
   * `' | '`, followed by the user info when the old bar had a user link
   * with a name. The menu has a threads link exactly when the old bar has
   * a threads link from which a non-empty id is read.
   */
  lemma ModifiedNavLayout(nodes: seq<Node>, baseDir: string, here: string)
    ensures var links := MenuLinks(UserId(nodes, baseDir), here);
      var nav := ModifiedNav(nodes, baseDir, here);
      var m := 2 * |links| - 1;
      && m <= |nav|
      && IsMenuLayout(nav[..m], links)
      && nav[m..] == UserInfo(Username(nodes), KarmaText(nodes, FindAnchor(nodes, UserPrefix), FindAnchor(nodes, LogoutPrefix)))
      && (|nav| == m + 1 <==> Username(nodes) != "")
      && (|links| == 8 <==> UserId(nodes, baseDir) != "")
      && (UserId(nodes, baseDir) != "" ==> FindAnchor(nodes, ThreadsPrefix).Some?)
  {
    var links := MenuLinks(UserId(nodes, baseDir), here);
    var menu := AppendLinks([], links);
    LayoutFromEmpty(links);
    MenuContents(UserId(nodes, baseDir), here);
    var nav := ModifiedNav(nodes, baseDir, here);
    assert nav == menu + UserInfo(Username(nodes), KarmaText(nodes, FindAnchor(nodes, UserPrefix), FindAnchor(nodes, LogoutPrefix)));
    assert nav[..|menu|] == menu;
    UserInfoContents(Username(nodes), KarmaText(nodes, FindAnchor(nodes, UserPrefix), FindAnchor(nodes, LogoutPrefix)));
  }

  /**
   * The first half of `modifyNav`: the user name, the user id and the
   * karma text read from the children of `.pagetop` before it is cleared.
   */
  method ReadUser(nodes: seq<Node>, baseDir: string) returns (username: string, userId: string, karmaText: string)
    ensures username == Username(nodes)
    ensures userId == UserId(nodes, baseDir)
    ensures karmaText == KarmaText(nodes, FindAnchor(nodes, UserPrefix), FindAnchor(nodes, LogoutPrefix))
  {
    var userLink := FindAnchor(nodes, UserPrefix);
    var logoutLink := FindAnchor(nodes, LogoutPrefix);
    var threadsLink := FindAnchor(nodes, ThreadsPrefix);

    username := if userLink.Some? then nodes[userLink.value].text else "";
    userId := "";
    if threadsLink.Some? {
      var fields := Split(ResolveRelative(baseDir, nodes[threadsLink.value].href), '=');
      if |fields| > 1 {
        userId := fields[1];
      }
    }

    karmaText := "";
    if userLink.Some? && logoutLink.Some? {
      karmaText := CollectKarmaText(nodes, userLink.value, logoutLink.value);
    }
  }

  /** The `span.user-info` element built child by child, for a non-empty user name. */
  method BuildUserInfo(username: string, karmaText: string) returns (info: Node)
    requires username != ""
    ensures [info] == UserInfo(username, karmaText)
  {
    var karma := Trim(karmaText);
    var children := [Anchor("/user?id=" + username, username, false)];
    ghost var score: seq<Node> := [];
    if karma != "" {
      score := [Element("span", "karma-score", [TextNode(karma)])];
      children := children + [Element("span", "karma-score", [TextNode(karma)])];
    }
    assert score == KarmaScore(karmaText);
    children := children + [TextNode(" | ")];
    children := children + [Anchor("/logout", "logout", false)];
    assert children == [Anchor("/user?id=" + username, username, false)] + score +
      [TextNode(" | "), Anchor("/logout", "logout", false)];
    info := Element("span", "user-info", children);
  }

  /**
   * The second half of `modifyNav`: empty the bar, mark it as the menu,
   * build the menu and append the user info.
   */
  method RebuildNav(pagetop: Container, username: string, userId: string, karmaText: string, here: string)
    modifies pagetop
    ensures pagetop.children == AppendLinks([], MenuLinks(userId, here)) + UserInfo(username, karmaText)
    ensures pagetop.classes == old(pagetop.classes) + {"menu"}
  {
    pagetop.children := [];
    pagetop.classes := pagetop.classes + {"menu"};
    pagetop.BuildMenu(userId, here);
    if username != "" {
      var info := BuildUserInfo(username, karmaText);
      pagetop.children := pagetop.children + [info];
    } else {
      assert pagetop.children + UserInfo(username, karmaText) == pagetop.children;
    }
  }

  /**
   * `modifyNav()` on the page whose URL directory is `baseDir` and whose
   * path is `here`; `pagetop` is null when the page has no `.pagetop`.
   */
  method ModifyNav(pagetop: Container?, baseDir: string, here: string)
    modifies pagetop
    ensures pagetop != null ==> pagetop.children == ModifiedNav(old(pagetop.children), baseDir, here)
    ensures pagetop != null ==> pagetop.classes == old(pagetop.classes) + {"menu"}
  {
    if pagetop == null {
      return;
    }
    var username, userId, karmaText := ReadUser(pagetop.children, baseDir);
    RebuildNav(pagetop, username, userId, karmaText, here);
  }
}
