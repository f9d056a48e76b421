/** The site chrome rule (src/components/layout/app-layout.tsx). */
module AppLayout {
  import opened Text

  /** `pathname.startsWith('/admin')`. */
  predicate IsAdminPage(pathname: string): (b: bool)
    ensures b <==> |pathname| >= 6 && forall k :: 0 <= k < 6 ==> pathname[k] == "/admin"[k]
  {
    StartsWith(pathname, "/admin")
  }

  /** `pathname.startsWith('/login') || pathname.startsWith('/signup')`. */
  predicate IsAuthPage(pathname: string): (b: bool)
    ensures b <==> ((|pathname| >= 6 && forall k :: 0 <= k < 6 ==> pathname[k] == "/login"[k])
                    || (|pathname| >= 7 && forall k :: 0 <= k < 7 ==> pathname[k] == "/signup"[k]))
  {
    StartsWith(pathname, "/login") || StartsWith(pathname, "/signup")
  }

  /** No path is both an admin page and an auth page. */
  lemma {:induction false} PageKindsDisjoint(pathname: string)
    ensures IsAdminPage(pathname) ==> !IsAuthPage(pathname)
  {
    if IsAdminPage(pathname) {
      assert pathname[1] == 'a';
    }
  }

  /** Both tests are closed under extension: every path that continues an admin or auth path is one too. */
  lemma {:induction false} PageKindsExtend(pathname: string, rest: string)
    ensures IsAdminPage(pathname) ==> IsAdminPage(pathname + rest)
    ensures IsAuthPage(pathname) ==> IsAuthPage(pathname + rest)
  {
    var p := pathname + rest;
    assert forall k :: 0 <= k < |pathname| ==> p[k] == pathname[k];
  }

  datatype Section = SiteHeader | MainContent | FaqSection | SiteFooter

  /** The bare full-height wrapper, or the public page with its sections in order. */
  datatype Chrome = Bare | Full(sections: seq<Section>)

  /** `AppLayout`: admin and auth pages are left unwrapped. */
  function ChromeFor(pathname: string): (c: Chrome)
    ensures c == Bare <==> IsAdminPage(pathname) || IsAuthPage(pathname)
    ensures c.Full? ==> c.sections == [SiteHeader, MainContent, FaqSection, SiteFooter]
  {
    if IsAdminPage(pathname) || IsAuthPage(pathname) then Bare
    else Full([SiteHeader, MainContent, FaqSection, SiteFooter])
  }

  /** The prefix tests are not segment-aware: these look-alike public paths lose the header and footer too. */
  lemma LookAlikePathsAreBare()
    ensures ChromeFor("/administrator") == Bare
    ensures ChromeFor("/login-help") == Bare
    ensures ChromeFor("/signups") == Bare
    ensures ChromeFor("/games").Full?
  {
    assert "/administrator"[..6] == "/admin";
    assert "/login-help"[..6] == "/login";
    assert "/signups"[..7] == "/signup";
    assert "/games"[..6][1] != "/admin"[1] && "/games"[..6][1] != "/login"[1];
  }
}
