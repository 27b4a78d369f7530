/** The active-path test of a navigation link. */
module NavLink {
  import opened Text

  /** `pathname === href || pathname.startsWith(`${href}/`)`. */
  predicate IsActive(pathname: string, href: string)
    ensures IsActive(pathname, href) ==> |href| <= |pathname| && pathname[..|href|] == href
  {
    pathname == href || StartsWith(pathname, href + "/")
  }

  /** Active exactly on `href` itself or on a path that continues it after a "/". */
  lemma ActiveIff(pathname: string, href: string)
    ensures IsActive(pathname, href) <==>
      pathname == href || (|pathname| > |href| && pathname[..|href|] == href && pathname[|href|] == '/')
  {
    if |pathname| > |href| {
      assert pathname[..|href| + 1] == pathname[..|href|] + [pathname[|href|]];
    }
  }

  /** Every path below `href` makes the link active. */
  lemma ActiveBelow(href: string, rest: string)
    ensures IsActive(href + "/" + rest, href)
  {
    assert (href + "/" + rest)[..|href + "/"|] == href + "/";
  }

  /** A path that only shares a character prefix does not. */
  lemma InactiveOnSharedPrefix()
    ensures !IsActive("/articles-old", "/articles")
  {
    assert "/articles-old"[9] == '-';
    ActiveIff("/articles-old", "/articles");
  }

  /** A path shorter than `href` never makes it active. */
  lemma InactiveWhenShorter(pathname: string, href: string)
    requires |pathname| < |href|
    ensures !IsActive(pathname, href)
  {
  }
}
