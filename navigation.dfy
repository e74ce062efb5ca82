/**
 * The navigation menu: `createLink` appends one link, preceded by a
 * separator that depends on how many children the container already has,
 * and `buildMenu` appends the fixed list of menu links.
 */
module Navigation {
  import opened Prelude

  /** A DOM node as far as the navigation bar is concerned. */
  datatype Node =
    | TextNode(text: string)
    | CommentNode(text: string)
    | Anchor(href: string, text: string, active: bool)  // `<a href=href>text</a>`, `active`: has class `active`
    | Element(tag: string, className: string, children: seq<Node>)

  // ----- Active link detection -----

  /** The path of a URL reference: everything before the first `?` or `#`. */
  function PathPart(s: string): (p: string)
    ensures |p| <= |s| && p == s[..|p|] && '?' !in p && '#' !in p
    ensures |p| < |s| ==> s[|p|] == '?' || s[|p|] == '#'
  {
    if s == [] || s[0] == '?' || s[0] == '#' then []
    else
      var p := PathPart(s[1..]);
      assert s[1..][..|p|] == p;
      [s[0]] + p
  }

  /** A root-relative reference: one `/`, then no second `/`. */
  predicate IsRootRelative(href: string)
  {
    |href| >= 1 && href[0] == '/' && !(|href| >= 2 && href[1] == '/')
  }

  /**
   * `new URL(link.href, window.location.origin).pathname` for a
   * root-relative href; `None` stands for an href this model does not parse.
   */
  function Pathname(href: string): Option<string>
  {
    if IsRootRelative(href) then Some(PathPart(href)) else None
  }

  /** A path without `?` or `#` is its own pathname, also with a query after it. */
  lemma {:induction false} PathPartOfQuery(p: string, q: string)
    requires '?' !in p && '#' !in p
    ensures PathPart(p) == p && PathPart(p + "?" + q) == p
  {
    if p != [] {
      assert '?' !in p[1..] && '#' !in p[1..] by {
        forall k | 0 <= k < |p[1..]| ensures p[1..][k] == p[k + 1] { }
      }
      PathPartOfQuery(p[1..], q);
      assert (p + "?" + q)[1..] == p[1..] + "?" + q;
      assert p == [p[0]] + p[1..];
    } else {
      assert p + "?" + q == "?" + q;
    }
  }

  /** The pathname of `s` is `here`, checked one character at a time. */
  predicate PathIs(s: string, here: string)
  {
    if s == [] || s[0] == '?' || s[0] == '#' then here == []
    else here != [] && here[0] == s[0] && PathIs(s[1..], here[1..])
  }

  /** `PathIs` tests exactly `PathPart(s) == here`. */
  lemma {:induction false} PathIsPathPart(s: string, here: string)
    ensures PathIs(s, here) <==> PathPart(s) == here
  {
    if !(s == [] || s[0] == '?' || s[0] == '#') && here != [] {
      PathIsPathPart(s[1..], here[1..]);
      var p := PathPart(s[1..]);
      assert PathPart(s) == [s[0]] + p;
      if PathPart(s) == here {
        assert here[1..] == p;
      } else if here[0] == s[0] {
        assert here == [here[0]] + here[1..];
      }
    }
  }

  /** `link.pathname === window.location.pathname`: whether the link gets class `active`. */
  predicate IsActive(href: string, here: string)
  {
    IsRootRelative(href) && PathIs(href, here)
  }

  /** Being active is having the page's pathname. */
  lemma IsActiveIff(href: string, here: string)
    ensures IsActive(href, here) <==> Pathname(href) == Some(here)
  {
    PathIsPathPart(href, here);
  }

  /** The link `createLink(container, text, href)` creates on the page whose path is `here`. */
  function MakeLink(text: string, href: string, here: string): Node
  {
    Anchor(href, text, IsActive(href, here))
  }

  /**
   * The link `createLink` makes carries the given href and text, and has
   * class `active` exactly when its pathname is the page's.
   */
  lemma MakeLinkActive(text: string, href: string, here: string)
    ensures var link := MakeLink(text, href, here);
      link.Anchor? && link.href == href && link.text == text && (link.active <==> Pathname(href) == Some(here))
  {
    IsActiveIff(href, here);
  }

  // ----- Separators -----

  /**
   * `createLink`'s effect on the child list: `' '` if there is exactly one
   * child, then `' | '` if there are now more than two, then the link.
   */
  function AddLink(children: seq<Node>, link: Node): seq<Node>
  {
    var afterSpace := if |children| == 1 then children + [TextNode(" ")] else children;
    var afterBar := if |afterSpace| > 2 then afterSpace + [TextNode(" | ")] else afterSpace;
    afterBar + [link]
  }

  /** Each link comes with at most one separator, chosen by the number of children before it. */
  lemma AddLinkSeparator(children: seq<Node>, link: Node)
    ensures |children| == 0 || |children| == 2 ==> AddLink(children, link) == children + [link]
    ensures |children| == 1 ==> AddLink(children, link) == children + [TextNode(" "), link]
    ensures |children| > 2 ==> AddLink(children, link) == children + [TextNode(" | "), link]
  {
  }

  /** The links appended one after the other. */
  function AppendLinks(children: seq<Node>, links: seq<Node>): seq<Node>
  {
    if links == [] then children
    else AddLink(AppendLinks(children, links[..|links| - 1]), links[|links| - 1])
  }

  /** Appending one more link is one more `createLink`. */
  lemma AppendLinksSnoc(children: seq<Node>, links: seq<Node>, link: Node)
    ensures AppendLinks(children, links + [link]) == AddLink(AppendLinks(children, links), link)
  {
    assert (links + [link])[..|links|] == links;
  }

  /** Appending two lists of links is appending their concatenation. */
  lemma {:induction false} AppendLinksConcat(children: seq<Node>, a: seq<Node>, b: seq<Node>)
    ensures AppendLinks(children, a + b) == AppendLinks(AppendLinks(children, a), b)
  {
    if b == [] {
      assert a + b == a;
    } else {
      var b' := b[..|b| - 1];
      AppendLinksConcat(children, a, b');
      assert (a + b)[..|a + b| - 1] == a + b';
      assert (a + b)[|a + b| - 1] == b[|b| - 1];
    }
  }

  /** Three links appended one after the other. */
  lemma AppendThreeLinks(children: seq<Node>, l0: Node, l1: Node, l2: Node)
    ensures AppendLinks(children, [l0, l1, l2]) == AddLink(AddLink(AddLink(children, l0), l1), l2)
  {
    AppendLinksSnoc(children, [], l0);
    AppendLinksSnoc(children, [l0], l1);
    AppendLinksSnoc(children, [l0, l1], l2);
    assert [] + [l0] == [l0] && [l0] + [l1] == [l0, l1] && [l0, l1] + [l2] == [l0, l1, l2];
  }

  /** Four links appended one after the other. */
  lemma AppendFourLinks(children: seq<Node>, l0: Node, l1: Node, l2: Node, l3: Node)
    ensures AppendLinks(children, [l0, l1, l2, l3]) == AddLink(AddLink(AddLink(AddLink(children, l0), l1), l2), l3)
  {
    AppendThreeLinks(children, l0, l1, l2);
    AppendLinksSnoc(children, [l0, l1, l2], l3);
    assert [l0, l1, l2] + [l3] == [l0, l1, l2, l3];
  }

  /**
   * `cs` holds the links in order at the even positions, `' '` between the
   * first two and `' | '` between any later two.
   */
  ghost predicate IsMenuLayout(cs: seq<Node>, links: seq<Node>)
  {
    && |cs| == (if links == [] then 0 else 2 * |links| - 1)
    && forall k :: 0 <= k < |cs| ==>
         cs[k] == (if k % 2 == 0 then links[k / 2] else if k == 1 then TextNode(" ") else TextNode(" | "))
  }

  /** Adding one more link to a menu layout keeps it a menu layout. */
  lemma AddLinkKeepsLayout(cs: seq<Node>, links: seq<Node>, link: Node)
    requires IsMenuLayout(cs, links)
    ensures IsMenuLayout(AddLink(cs, link), links + [link])
  {
    var links' := links + [link];
    var cs' := AddLink(cs, link);
    AddLinkSeparator(cs, link);
    forall k | 0 <= k < |cs'|
      ensures cs'[k] == (if k % 2 == 0 then links'[k / 2] else if k == 1 then TextNode(" ") else TextNode(" | "))
    {
      if k < |cs| {
        if k % 2 == 0 { assert links'[k / 2] == links[k / 2]; }
      } else if k == |cs'| - 1 {
        assert k / 2 == |links|;
      }
    }
  }

  /** From an empty container, the links and separators alternate: L1 ' ' L2 ' | ' L3 ' | ' ... */
  lemma {:induction false} LayoutFromEmpty(links: seq<Node>)
    ensures IsMenuLayout(AppendLinks([], links), links)
  {
    if links != [] {
      var init := links[..|links| - 1];
      LayoutFromEmpty(init);
      AddLinkKeepsLayout(AppendLinks([], init), init, links[|links| - 1]);
      assert init + [links[|links| - 1]] == links;
    }
  }

  // ----- The menu -----

  /** The texts of the menu links, in order; the threads link only with a user id. */
  function MenuTexts(userId: string): (texts: seq<string>)
    ensures |texts| == if userId == "" then 7 else 8
  {
    ["Hacker News", "active", "best"] + (if userId != "" then ["threads"] else []) +
    ["ask", "show", "past", "submit"]
  }

  /** The hrefs of the menu links, in order. */
  function MenuHrefs(userId: string): (hrefs: seq<string>)
    ensures |hrefs| == |MenuTexts(userId)|
  {
    ["/", "/active", "/best"] + (if userId != "" then ["/threads?id=" + userId] else []) +
    ["/ask", "/show", "/front", "/submit"]
  }

  /** The pathnames of the menu links, in order. */
  function MenuPaths(userId: string): (paths: seq<string>)
    ensures |paths| == |MenuTexts(userId)|
  {
    ["/", "/active", "/best"] + (if userId != "" then ["/threads"] else []) + ["/ask", "/show", "/front", "/submit"]
  }

  /** The links `buildMenu` creates, in order. */
  function MenuLinks(userId: string, here: string): (links: seq<Node>)
    ensures |links| == |MenuTexts(userId)|
  {
    var texts := MenuTexts(userId);
    var hrefs := MenuHrefs(userId);
    seq(|texts|, i requires 0 <= i < |texts| => MakeLink(texts[i], hrefs[i], here))
  }

  /** The first three links of the menu. */
  function MenuHead(here: string): seq<Node>
  {
    [MakeLink("Hacker News", "/", here), MakeLink("active", "/active", here), MakeLink("best", "/best", here)]
  }

  /** The threads link, present only with a user id. */
  function MenuThreads(userId: string, here: string): seq<Node>
  {
    if userId != "" then [MakeLink("threads", "/threads?id=" + userId, here)] else []
  }

  /** The last four links of the menu. */
  function MenuTail(here: string): seq<Node>
  {
    [MakeLink("ask", "/ask", here), MakeLink("show", "/show", here), MakeLink("past", "/front", here),
     MakeLink("submit", "/submit", here)]
  }

  /** The menu is its first three links, the threads link if any, and its last four links. */
  lemma MenuLinksInOrder(userId: string, here: string)
    ensures MenuLinks(userId, here) == MenuHead(here) + MenuThreads(userId, here) + MenuTail(here)
  {
    var links := MenuLinks(userId, here);
    var parts := MenuHead(here) + MenuThreads(userId, here) + MenuTail(here);
    var texts := MenuTexts(userId);
    var hrefs := MenuHrefs(userId);
    var n := |MenuThreads(userId, here)|;
    forall i | 0 <= i < |links| ensures links[i] == parts[i] {
      if i < 3 {
        assert parts[i] == MenuHead(here)[i];
      } else if i < 3 + n {
        assert parts[i] == MenuThreads(userId, here)[i - 3];
      } else {
        assert parts[i] == MenuTail(here)[i - 3 - n];
      }
    }
  }

  /** A root-relative path without `?` or `#` is its own pathname. */
  lemma PlainPathname(p: string)
    requires IsRootRelative(p) && '?' !in p && '#' !in p
    ensures Pathname(p) == Some(p)
  {
    PathPartOfQuery(p, "");
  }

  /** The pathname of every menu href is the matching entry of `MenuPaths`. */
  lemma MenuHrefPathnames(userId: string)
    ensures |MenuPaths(userId)| == |MenuHrefs(userId)|
    ensures forall i :: 0 <= i < |MenuHrefs(userId)| ==> Pathname(MenuHrefs(userId)[i]) == Some(MenuPaths(userId)[i])
  {
    var hs := MenuHrefs(userId);
    var ps := MenuPaths(userId);
    forall i | 0 <= i < |hs| ensures Pathname(hs[i]) == Some(ps[i]) {
      var j := if userId == "" && i >= 3 then i + 1 else i;
      if j == 0 { assert hs[i] == "/" == ps[i]; PlainPathname("/"); }
      else if j == 1 { assert hs[i] == "/active" == ps[i]; PlainPathname("/active"); }
      else if j == 2 { assert hs[i] == "/best" == ps[i]; PlainPathname("/best"); }
      else if j == 3 {
        var href := "/threads?id=" + userId;
        assert hs[i] == href && ps[i] == "/threads";
        assert href == "/threads" + "?" + ("id=" + userId);
        PathPartOfQuery("/threads", "id=" + userId);
        assert href[0] == '/' && href[1] == 't';
      }
      else if j == 4 { assert hs[i] == "/ask" == ps[i]; PlainPathname("/ask"); }
      else if j == 5 { assert hs[i] == "/show" == ps[i]; PlainPathname("/show"); }
      else if j == 6 { assert hs[i] == "/front" == ps[i]; PlainPathname("/front"); }
      else { assert hs[i] == "/submit" == ps[i]; PlainPathname("/submit"); }
    }
  }

  /**
   * The menu has 7 links, or 8 with a user id; the threads link is present
   * exactly when the user id is non-empty, and then it is the fourth link
   * and points at `/threads?id=` followed by the id.
   */
  lemma MenuContents(userId: string, here: string)
    ensures var links := MenuLinks(userId, here);
      && |links| == (if userId == "" then 7 else 8)
      && (forall i :: 0 <= i < |links| ==> links[i].Anchor?)
      && ((exists i :: 0 <= i < |links| && links[i].text == "threads") <==> userId != "")
      && (userId != "" ==> links[3].href == "/threads?id=" + userId && links[3].text == "threads")
  {
    var links := MenuLinks(userId, here);
    var texts := MenuTexts(userId);
    if userId == "" {
      forall i | 0 <= i < |links| ensures links[i].text != "threads" {
        assert links[i].text == texts[i];
      }
    } else {
      assert links[3].text == texts[3];
    }
  }

  /**
   * A menu link is active exactly when its pathname is the page's, so at
   * most one link is active: the menu paths are pairwise distinct.
   */
  lemma AtMostOneActiveLink(userId: string, here: string)
    ensures var links := MenuLinks(userId, here);
      && |links| == |MenuPaths(userId)|
      && (forall i :: 0 <= i < |links| ==> (links[i].active <==> MenuPaths(userId)[i] == here))
      && (forall i, j :: 0 <= i < |links| && 0 <= j < |links| && links[i].active && links[j].active ==> i == j)
  {
    MenuHrefPathnames(userId);
    var links := MenuLinks(userId, here);
    var hs := MenuHrefs(userId);
    var paths := MenuPaths(userId);
    forall i | 0 <= i < |links| ensures links[i].active <==> paths[i] == here {
      IsActiveIff(hs[i], here);
    }
    MenuPathsDistinct(userId);
  }

  /** No two menu links share a pathname. */
  lemma MenuPathsDistinct(userId: string)
    ensures forall i, j :: 0 <= i < |MenuPaths(userId)| && 0 <= j < |MenuPaths(userId)| && i != j ==>
      MenuPaths(userId)[i] != MenuPaths(userId)[j]
  {
    var ps := MenuPaths(userId);
    var all := ["/", "/active", "/best", "/threads", "/ask", "/show", "/front", "/submit"];
    assert forall i, j :: 0 <= i < j < |all| ==> all[i] != all[j];
    if userId == "" {
      assert forall i :: 0 <= i < |ps| ==> ps[i] == all[if i < 3 then i else i + 1];
    } else {
      assert ps == all;
    }
  }

  // ----- The container -----

  /** An element whose child list and class list the menu code changes. */
  class Container {
    var children: seq<Node>
    var classes: set<string>

    constructor (children0: seq<Node>, classes0: set<string>)
      ensures children == children0 && classes == classes0
    {
      children := children0;
      classes := classes0;
    }

    /** `createLink(container, text, href)` on the page whose path is `here`. */
    method CreateLink(text: string, href: string, here: string)
      modifies this`children
      ensures children == AddLink(old(children), MakeLink(text, href, here))
    {
      var active := false;
      var path := Pathname(href);
      if path.Some? && path.value == here {
        active := true;
      }
      IsActiveIff(href, here);
      var link := Anchor(href, text, active);
      if |children| == 1 {
        children := children + [TextNode(" ")];
      }
      if |children| > 2 {
        children := children + [TextNode(" | ")];
      }
      children := children + [link];
    }

    /** `buildMenu(container, userId)` on the page whose path is `here`. */
    method BuildMenu(userId: string, here: string)
      modifies this`children
      ensures children == AppendLinks(old(children), MenuLinks(userId, here))
    {
      CreateLink("Hacker News", "/", here);
      CreateLink("active", "/active", here);
      CreateLink("best", "/best", here);
      AppendThreeLinks(old(children), MakeLink("Hacker News", "/", here), MakeLink("active", "/active", here),
        MakeLink("best", "/best", here));
      ghost var afterHead := children;
      if userId != "" {
        CreateLink("threads", "/threads?id=" + userId, here);
        AppendLinksSnoc(afterHead, [], MakeLink("threads", "/threads?id=" + userId, here));
      }
      AppendLinksConcat(old(children), MenuHead(here), MenuThreads(userId, here));
      ghost var afterThreads := children;
      CreateLink("ask", "/ask", here);
      CreateLink("show", "/show", here);
      CreateLink("past", "/front", here);
      CreateLink("submit", "/submit", here);
      AppendFourLinks(afterThreads, MakeLink("ask", "/ask", here), MakeLink("show", "/show", here),
        MakeLink("past", "/front", here), MakeLink("submit", "/submit", here));
      AppendLinksConcat(old(children), MenuHead(here) + MenuThreads(userId, here), MenuTail(here));
      MenuLinksInOrder(userId, here);
    }
  }

  /** Building the menu in an emptied container gives exactly the menu layout. */
  method BuildMenuFromEmpty(container: Container, userId: string, here: string)
    requires container.children == []
    modifies container
    ensures IsMenuLayout(container.children, MenuLinks(userId, here))
  {
    container.BuildMenu(userId, here);
    LayoutFromEmpty(MenuLinks(userId, here));
  }
}
