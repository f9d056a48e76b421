/**
 * The admin shell (src/components/admin/admin-layout.tsx): the breadcrumb
 * trail computed from the pathname, the sidebar's active-link rule and its
 * icon lookup. `decodeURIComponent` is taken to be the identity.
 */
module AdminLayout {
  import opened Wrappers
  import opened Text

  /** `pathname.split('/').filter(part => part)`. */
  function Segments(pathname: string): (parts: seq<string>)
    ensures forall i :: 0 <= i < |parts| ==> parts[i] != "" && '/' !in parts[i]
    ensures forall p :: p in parts <==> p in Split(pathname, '/') && p != ""
  {
    SegmentsHaveNoSlash(pathname);
    NonEmptyPieces(Split(pathname, '/'))
  }

  lemma {:induction false} SegmentsHaveNoSlash(pathname: string)
    ensures forall p :: p in NonEmptyPieces(Split(pathname, '/')) ==> '/' !in p
  {
    var pieces := Split(pathname, '/');
    forall p | p in NonEmptyPieces(pieces) ensures '/' !in p {
      assert p in pieces;
      var j :| 0 <= j < |pieces| && pieces[j] == p;
    }
  }

  /** The segments of two paths joined by a '/' are those of the first followed by those of the second. */
  lemma {:induction false} SegmentsConcat(a: string, b: string)
    ensures Segments(a + "/" + b) == Segments(a) + Segments(b)
  {
    SplitConcat(a, b, '/');
    NonEmptyPiecesAppend(Split(a, '/'), Split(b, '/'));
  }

  /** `word.charAt(0).toUpperCase() + word.slice(1)`. */
  function Capitalise(word: string): string
  {
    if word == "" then "" else [UpperChar(word[0])] + word[1..]
  }

  function CapitalisedWords(words: seq<string>): (r: seq<string>)
    ensures |r| == |words|
    ensures forall i :: 0 <= i < |words| ==> r[i] == Capitalise(words[i])
  {
    seq(|words|, i requires 0 <= i < |words| => Capitalise(words[i]))
  }

  /** The crumb label: split on '-', capitalise every word, join with blanks. */
  function CrumbText(part: string): (r: string)
    ensures '-' !in part ==> r == Capitalise(part)
  {
    OneWordLabel(part);
    Join(CapitalisedWords(Split(part, '-')), " ")
  }

  /** A segment without '-' is one word, and its label is that word capitalised. */
  lemma {:induction false} OneWordLabel(part: string)
    ensures '-' !in part ==> Join(CapitalisedWords(Split(part, '-')), " ") == Capitalise(part)
  {
    if '-' !in part {
      SplitWithoutSeparator(part, '-');
      assert CapitalisedWords([part]) == [Capitalise(part)];
    }
  }

  /**
   * A character-by-character reading of the same label: every '-' becomes a
   * blank, and a character right after a '-' (or at the start, when `start`)
   * is uppercased.
   */
  function TitleCase(s: string, start: bool): (r: string)
    ensures |r| == |s|
    decreases |s|
  {
    if |s| == 0 then ""
    else if s[0] == '-' then " " + TitleCase(s[1..], true)
    else [if start then UpperChar(s[0]) else s[0]] + TitleCase(s[1..], false)
  }

  /** Character k of the title-cased string. */
  lemma {:induction false} TitleCaseAt(s: string, start: bool, k: nat)
    requires k < |s|
    ensures TitleCase(s, start)[k]
         == (if s[k] == '-' then ' '
             else if (if k == 0 then start else s[k - 1] == '-') then UpperChar(s[k])
             else s[k])
    decreases k
  {
    if k > 0 {
      TitleCaseAt(s[1..], s[0] == '-', k - 1);
      assert s[1..][k - 1] == s[k];
      if k > 1 {
        assert s[1..][k - 2] == s[k - 1];
      }
    }
  }

  lemma {:induction false} TitleCasePlain(x: string, t: string)
    requires '-' !in x
    ensures TitleCase(x + t, false) == x + TitleCase(t, false)
    decreases |x|
  {
    if |x| > 0 {
      var xt := x + t;
      assert xt[0] == x[0] && xt[1..] == x[1..] + t;
      assert '-' !in x[1..] by {
        forall k | 0 <= k < |x| - 1 ensures x[1..][k] != '-' { assert x[1..][k] == x[k + 1]; }
      }
      TitleCasePlain(x[1..], t);
      assert TitleCase(xt, false) == [x[0]] + TitleCase(x[1..] + t, false);
      assert x == [x[0]] + x[1..];
    } else {
      assert x + t == t;
    }
  }

  /** A word without '-' followed by more text: the word is capitalised, the text continues mid-word. */
  lemma {:induction false} TitleCaseWord(a: string, t: string)
    requires '-' !in a
    ensures TitleCase(a + t, true) == Capitalise(a) + TitleCase(t, a == "")
  {
    if a != "" {
      var at := a + t;
      assert at[0] == a[0] && at[1..] == a[1..] + t;
      assert '-' !in a[1..] by {
        forall k | 0 <= k < |a| - 1 ensures a[1..][k] != '-' { assert a[1..][k] == a[k + 1]; }
      }
      TitleCasePlain(a[1..], t);
    } else {
      assert a + t == t;
    }
  }

  /** The position of the first `c` in `s`. */
  function IndexOf(s: string, c: char): (i: nat)
    requires c in s
    ensures i < |s| && s[i] == c
    ensures forall j :: 0 <= j < i ==> s[j] != c
    decreases |s|
  {
    if s[0] == c then 0 else 1 + IndexOf(s[1..], c)
  }

  /** The label of a segment whose first '-' sits after the word `a`. */
  lemma {:induction false} CrumbTextFirstWord(a: string, rest: string)
    requires '-' !in a
    ensures CrumbText(a + ['-'] + rest) == Capitalise(a) + " " + CrumbText(rest)
  {
    SplitAfterPiece(a, rest, '-');
    var words := Split(rest, '-');
    var caps := CapitalisedWords([a] + words);
    assert caps == [Capitalise(a)] + CapitalisedWords(words);
    assert caps[1..] == CapitalisedWords(words);
    assert |caps| >= 2;
    assert Join(caps, " ") == caps[0] + " " + Join(caps[1..], " ");
  }

  lemma {:induction false} TitleCaseDash(rest: string, start: bool)
    ensures TitleCase(['-'] + rest, start) == " " + TitleCase(rest, true)
  {
    assert (['-'] + rest)[1..] == rest;
  }

  lemma {:induction false} CrumbTextOneWord(s: string)
    requires '-' !in s
    ensures CrumbText(s) == TitleCase(s, true)
  {
    SplitWithoutSeparator(s, '-');
    assert CapitalisedWords([s]) == [Capitalise(s)];
    TitleCaseWord(s, "");
    assert s + "" == s;
  }

  /** One induction step: a first word, a '-', and a rest whose label already agrees. */
  lemma {:induction false} CrumbTextStep(a: string, rest: string)
    requires '-' !in a
    requires CrumbText(rest) == TitleCase(rest, true)
    ensures CrumbText(a + ['-'] + rest) == TitleCase(a + ['-'] + rest, true)
  {
    CrumbTextFirstWord(a, rest);
    TitleCaseFirstWord(a, rest);
  }

  lemma {:induction false} TitleCaseFirstWord(a: string, rest: string)
    requires '-' !in a
    ensures TitleCase(a + ['-'] + rest, true) == Capitalise(a) + " " + TitleCase(rest, true)
  {
    var dashRest := ['-'] + rest;
    assert a + ['-'] + rest == a + dashRest;
    TitleCaseWord(a, dashRest);
    TitleCaseDash(rest, a == "");
    assert Capitalise(a) + (" " + TitleCase(rest, true)) == Capitalise(a) + " " + TitleCase(rest, true);
  }

  /** The split-map-join label and the character-wise reading agree. */
  lemma {:induction false} CrumbTextIsTitleCase(s: string)
    ensures CrumbText(s) == TitleCase(s, true)
    decreases |s|
  {
    if '-' !in s {
      CrumbTextOneWord(s);
    } else {
      var i := IndexOf(s, '-');
      var a, rest := s[..i], s[i + 1..];
      assert '-' !in a;
      assert s == a + ['-'] + rest;
      CrumbTextIsTitleCase(rest);
      CrumbTextStep(a, rest);
    }
  }

  /** Every label is as long as its segment, and has a blank exactly where the segment has a '-'. */
  lemma {:induction false} CrumbTextShape(s: string)
    ensures |CrumbText(s)| == |s|
    ensures forall k :: 0 <= k < |s| ==> (CrumbText(s)[k] == ' ' <==> s[k] == '-' || s[k] == ' ')
  {
    CrumbTextIsTitleCase(s);
    forall k | 0 <= k < |s| ensures CrumbText(s)[k] == ' ' <==> s[k] == '-' || s[k] == ' ' {
      TitleCaseAt(s, true, k);
    }
  }

  datatype Crumb = Crumb(href: string, text: string, isLast: bool)

  /** The header's left side: the plain "Dashboard" heading, or the crumbs after the "Dashboard" link. */
  datatype AdminHeader = DashboardHeading | Trail(crumbs: seq<Crumb>)

  /** `AdminBreadcrumbs`: one crumb per segment after the first. */
  function AdminBreadcrumbs(pathname: string): (h: AdminHeader)
    ensures h.DashboardHeading? <==> |Segments(pathname)| <= 1
    ensures h.Trail? ==> |h.crumbs| == |Segments(pathname)| - 1
    ensures h.Trail? ==> forall i :: 0 <= i < |h.crumbs| ==> (h.crumbs[i].isLast <==> i == |h.crumbs| - 1)
    ensures h.Trail? ==> forall i :: 0 <= i < |h.crumbs| ==> h.crumbs[i].text == CrumbText(Segments(pathname)[i + 1])
    ensures h.Trail? ==> forall i :: 0 <= i < |h.crumbs| ==> h.crumbs[i].href == "/admin/" + Join(Segments(pathname)[1..i + 2], "/")
  {
    var parts := Segments(pathname);
    if |parts| <= 1 then DashboardHeading else Trail(Crumbs(parts))
  }

  /** The crumbs for the segments after the first. */
  function Crumbs(parts: seq<string>): (cs: seq<Crumb>)
    requires |parts| >= 2
    ensures |cs| == |parts| - 1
    ensures forall i :: 0 <= i < |cs| ==> cs[i] == Crumb("/admin/" + Join(parts[1..i + 2], "/"), CrumbText(parts[i + 1]), i == |parts| - 2)
  {
    seq(|parts| - 1, i requires 0 <= i < |parts| - 1 =>
      Crumb("/admin/" + Join(parts[1..i + 2], "/"), CrumbText(parts[i + 1]), i == |parts| - 2))
  }

  lemma {:induction false} JoinSnoc(ps: seq<string>, p: string, sep: string)
    requires |ps| >= 1
    ensures Join(ps + [p], sep) == Join(ps, sep) + sep + p
    decreases |ps|
  {
    if |ps| > 1 {
      assert (ps + [p])[1..] == ps[1..] + [p];
      JoinSnoc(ps[1..], p, sep);
    }
  }

  /** Each crumb's link extends the previous one by '/' and the next segment. */
  lemma {:induction false} HrefExtends(pathname: string, i: nat)
    requires AdminBreadcrumbs(pathname).Trail?
    requires i + 1 < |AdminBreadcrumbs(pathname).crumbs|
    ensures AdminBreadcrumbs(pathname).crumbs[i + 1].href
         == AdminBreadcrumbs(pathname).crumbs[i].href + "/" + Segments(pathname)[i + 2]
  {
    var parts := Segments(pathname);
    assert parts[1..i + 3] == parts[1..i + 2] + [parts[i + 2]];
    JoinSnoc(parts[1..i + 2], parts[i + 2], "/");
  }

  lemma {:induction false} NonEmptyPiecesKeepsAll(parts: seq<string>)
    requires forall i :: 0 <= i < |parts| ==> parts[i] != ""
    ensures NonEmptyPieces(parts) == parts
    decreases |parts|
  {
    if |parts| > 0 {
      NonEmptyPiecesKeepsAll(parts[1..]);
    }
  }

  lemma {:induction false} AdminHrefJoin(ps: seq<string>)
    requires |ps| >= 1
    ensures "/admin/" + Join(ps, "/") == Join(["", "admin"] + ps, "/")
  {
    var all := ["", "admin"] + ps;
    assert all[1..] == ["admin"] + ps;
    assert (["admin"] + ps)[1..] == ps;
  }

  /** An admin link built from segments splits back into "admin" and those segments. */
  lemma {:induction false} SegmentsOfAdminHref(ps: seq<string>)
    requires |ps| >= 1
    requires forall k :: 0 <= k < |ps| ==> ps[k] != "" && '/' !in ps[k]
    ensures Segments("/admin/" + Join(ps, "/")) == ["admin"] + ps
  {
    var all := ["", "admin"] + ps;
    AdminHrefJoin(ps);
    forall k | 0 <= k < |all| ensures '/' !in all[k] {
      if k >= 2 {
        assert all[k] == ps[k - 2];
      }
    }
    SplitJoin(all, '/');
    assert all[1..] == ["admin"] + ps;
    NonEmptyPiecesKeepsAll(["admin"] + ps);
  }

  /** Following crumb i leads to '/admin' and then the segments up to and including that crumb's own. */
  lemma {:induction false} HrefSegments(pathname: string, i: nat)
    requires AdminBreadcrumbs(pathname).Trail?
    requires i < |AdminBreadcrumbs(pathname).crumbs|
    ensures Segments(AdminBreadcrumbs(pathname).crumbs[i].href) == ["admin"] + Segments(pathname)[1..i + 2]
  {
    SegmentSlice(Segments(pathname), i + 2);
    SegmentsOfAdminHref(Segments(pathname)[1..i + 2]);
  }

  lemma {:induction false} SegmentSlice(parts: seq<string>, j: nat)
    requires 1 <= j <= |parts|
    requires forall k :: 0 <= k < |parts| ==> parts[k] != "" && '/' !in parts[k]
    ensures forall k :: 0 <= k < j - 1 ==> parts[1..j][k] != "" && '/' !in parts[1..j][k]
  {
    forall k | 0 <= k < j - 1 ensures parts[1..j][k] != "" && '/' !in parts[1..j][k] {
      assert parts[1..j][k] == parts[k + 1];
    }
  }

  datatype NavLink = NavLink(name: string, href: string)

  /** The sidebar entries, in order. */
  function AdminNavLinks(): seq<NavLink>
  {
    [ NavLink("Dashboard", "/admin"), NavLink("Games", "/admin/games"), NavLink("Orders", "/admin/orders"),
      NavLink("Messages", "/admin/messages"), NavLink("Settings", "/admin/settings") ]
  }

  /**
   * A sidebar button is highlighted on its own path; every link but the
   * dashboard also on every path it is a string prefix of.
   */
  predicate IsActive(pathname: string, href: string): (b: bool)
    ensures href == "/admin" ==> (b <==> pathname == "/admin")
    ensures href != "/admin" ==> (b <==> |href| <= |pathname| && forall k :: 0 <= k < |href| ==> pathname[k] == href[k])
  {
    pathname == href || (href != "/admin" && StartsWith(pathname, href))
  }

  /** No path highlights two sidebar entries: no entry's link is a prefix of another's. */
  lemma {:induction false} AtMostOneActive(pathname: string, i: nat, j: nat)
    requires i < j < |AdminNavLinks()|
    ensures IsActive(pathname, AdminNavLinks()[i].href) ==> !IsActive(pathname, AdminNavLinks()[j].href)
  {
    var links := AdminNavLinks();
    var hi, hj := links[i].href, links[j].href;
    assert |hj| >= 8 && hj[..7] == "/admin/" && hj != "/admin";
    if IsActive(pathname, hi) {
      if i == 0 {
        assert pathname == "/admin";
        assert |pathname| < |hj|;
      } else {
        assert |hi| >= 8 && hi[7] != hj[7];
        assert pathname[7] == hi[7];
      }
    }
  }

  /** The prefix test is not segment-aware: '/admin/gamesroom' highlights the Games entry. */
  lemma {:induction false} ActiveIsNotSegmentAware()
    ensures IsActive("/admin/gamesroom", "/admin/games")
    ensures !IsActive("/admin/games", "/admin")
  {
    assert "/admin/gamesroom"[..|"/admin/games"|] == "/admin/games";
  }

  datatype Icon = HomeIcon | GamepadIcon | CartIcon | SettingsIcon

  /** `ICONS[link.name]`; a name without an entry has no icon. */
  function IconFor(name: string): (icon: Option<Icon>)
    ensures icon.None? <==> name !in {"Dashboard", "Games", "Orders", "Settings"}
  {
    if name == "Dashboard" then Some(HomeIcon)
    else if name == "Games" then Some(GamepadIcon)
    else if name == "Orders" then Some(CartIcon)
    else if name == "Settings" then Some(SettingsIcon)
    else None
  }

  /** Of the sidebar entries, only "Messages" renders without an icon. */
  lemma {:induction false} OnlyMessagesLacksIcon()
    ensures forall i :: 0 <= i < |AdminNavLinks()| ==>
      (IconFor(AdminNavLinks()[i].name).None? <==> AdminNavLinks()[i].name == "Messages")
  {
  }
}
