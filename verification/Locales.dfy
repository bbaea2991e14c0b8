/** The public site's language paths (src/i18n/locales.ts). */
module Locales {
  import opened Common

  datatype Locale = En | Bn

  // ----- paths that stay English -----

  /** "/" and a name, then the end or another "/". */
  predicate Area(path: string, name: string) {
    var n := 1 + |name|;
    |path| >= n && path[0] == '/' && path[1..n] == name && (|path| == n || path[n] == '/')
  }

  predicate Alnum(c: char) {
    'a' <= c <= 'z' || 'A' <= c <= 'Z' || '0' <= c <= '9'
  }

  /** Some dot with nothing but letters and digits after it, at least one. */
  predicate IsFile(path: string) {
    exists i | 0 <= i < |path| :: DotAt(path, i)
  }

  predicate DotAt(path: string, i: int) {
    0 <= i < |path| - 1 && path[i] == '.' && forall j | i < j < |path| :: Alnum(path[j])
  }

  predicate IsEnglishOnly(path: string) {
    || Area(path, "admin") || Area(path, "door") || Area(path, "api") || Area(path, "_next")
    || IsFile(path)
    || Area(path, "icon") || Area(path, "apple-icon") || Area(path, "manifest")
  }

  // ----- to and from a language path -----

  datatype Parsed = Parsed(locale: Locale, path: string)

  function LocaleFromPath(pathname: string): Parsed {
    if pathname == "/bn" || "/bn/" <= pathname then Parsed(Bn, if |pathname| == 3 then "/" else pathname[3..])
    else Parsed(En, pathname)
  }

  predicate Mark(c: char) {
    c == '?' || c == '#'
  }

  /** Up to the first query or fragment mark that is not the first character. */
  function PathPart(href: string): (part: string)
    ensures part <= href
  {
    if |href| <= 1 then href
    else if Mark(href[1]) then [href[0]]
    else [href[0]] + PathPart(href[1..])
  }

  predicate HasBnForm(href: string) {
    && href != [] && href[0] == '/' && !("//" <= href)
    && !IsEnglishOnly(PathPart(href)) && LocaleFromPath(PathPart(href)).locale.En?
  }

  function LocalisedPath(href: string, locale: Locale): string {
    if locale.En? || !HasBnForm(href) then href
    else "/bn" + (if PathPart(href) == "/" then [] else PathPart(href)) + href[|PathPart(href)|..]
  }

  // ----- the proxy's step -----

  datatype Request =
    Request(pathname: string, search: string, verb: string, cookie: Option<string>, locales: set<Locale>)

  datatype Step = NextStep(locale: Locale) | Rewrite(locale: Locale, path: string) | Redirect(url: string)

  function LocaleStep(r: Request): Step {
    if IsEnglishOnly(r.pathname) then NextStep(En)
    else if LocaleFromPath(r.pathname).locale.Bn? then
      if Bn in r.locales then Rewrite(Bn, LocaleFromPath(r.pathname).path) else NextStep(En)
    else if Bn in r.locales && r.cookie == Some("bn") && (r.verb == "GET" || r.verb == "HEAD")
            && "/bn" <= LocalisedPath(r.pathname, Bn) then
      Redirect(LocalisedPath(r.pathname, Bn) + r.search)
    else NextStep(En)
  }

  // ----- where a path ends -----

  predicate NoMark(s: string) {
    forall i | 0 < i < |s| :: !Mark(s[i])
  }

  predicate Tail(s: string) {
    s == [] || Mark(s[0])
  }

  lemma {:induction false} PathPartSplits(href: string)
    ensures |PathPart(href)| <= |href|
    ensures href == PathPart(href) + href[|PathPart(href)|..]
    ensures NoMark(PathPart(href)) && Tail(href[|PathPart(href)|..])
    ensures href != [] ==> PathPart(href) != [] && PathPart(href)[0] == href[0]
  {
    if |href| > 1 && !Mark(href[1]) {
      PathPartSplits(href[1..]);
      assert href == [href[0]] + href[1..];
    }
  }

  /** The page's part ends before the first query or fragment. */
  lemma {:induction false} PageEnds(href: string)
    ensures href == PathPart(href) + href[|PathPart(href)|..]
    ensures forall i | 0 < i < |PathPart(href)| :: href[i] != '?' && href[i] != '#'
    ensures |PathPart(href)| < |href| ==> href[|PathPart(href)|] == '?' || href[|PathPart(href)|] == '#'
    ensures href != [] ==> PathPart(href) != []
  {
    PathPartSplits(href);
    assert forall i | 0 < i < |PathPart(href)| :: href[i] == PathPart(href)[i];
  }

  lemma {:induction false} PathPartOf(path: string, tail: string)
    requires path != [] && NoMark(path) && Tail(tail)
    ensures PathPart(path + tail) == path
    ensures (path + tail)[|path|..] == tail
  {
    if |path| == 1 {
      assert path + tail == [path[0]] + tail;
      if tail != [] {
        assert (path + tail)[1] == tail[0];
      }
    } else {
      PathPartOf(path[1..], tail);
      assert (path + tail)[1..] == path[1..] + tail;
      assert path == [path[0]] + path[1..];
    }
  }

  function BnPath(path: string): string {
    "/bn" + if path == "/" then [] else path
  }

  lemma {:induction false} BnPathBack(path: string)
    requires path != [] && path[0] == '/' && NoMark(path)
    ensures LocaleFromPath(BnPath(path)) == Parsed(Bn, path)
    ensures NoMark(BnPath(path)) && "/bn" <= BnPath(path) && !("//" <= BnPath(path))
  {
    if path != "/" {
      assert BnPath(path)[3] == path[0];
      assert BnPath(path)[..4] == "/bn/";
      assert BnPath(path)[3..] == path;
      assert forall i | 3 < i < |BnPath(path)| :: BnPath(path)[i] == path[i - 3];
    }
    assert BnPath(path)[1] == 'b';
  }

  /** A link's language form names the same page, with the same query and fragment. */
  lemma {:induction false} RoundTrip(href: string)
    requires HasBnForm(href)
    ensures var url := LocalisedPath(href, Bn);
            && LocaleFromPath(PathPart(url)) == Parsed(Bn, PathPart(href))
            && url[|PathPart(url)|..] == href[|PathPart(href)|..]
  {
    PathPartSplits(href);
    BnPathBack(PathPart(href));
    PathPartOf(BnPath(PathPart(href)), href[|PathPart(href)|..]);
  }

  /** For a bare path, the parser undoes the printer. */
  lemma {:induction false} PathRoundTrip(path: string)
    requires HasBnForm(path) && NoMark(path)
    ensures LocaleFromPath(LocalisedPath(path, Bn)) == Parsed(Bn, path)
  {
    PathPartOf(path, []);
    assert path + [] == path;
    BnPathBack(path);
    assert LocalisedPath(path, Bn) == BnPath(path);
  }

  /** A link already in Bangla stays as it is. */
  lemma {:induction false} LocalisedOnce(href: string)
    ensures LocalisedPath(LocalisedPath(href, Bn), Bn) == LocalisedPath(href, Bn)
  {
    if HasBnForm(href) {
      RoundTrip(href);
    }
  }

  // ----- the proxy never loops -----

  lemma {:induction false} BnDot(path: string, i: int)
    requires path != [] && path[0] == '/'
    ensures DotAt(BnPath(path), i) ==> DotAt(path, i - 3)
  {
    var bn := BnPath(path);
    if path != "/" {
      assert forall j | 3 <= j < |bn| :: bn[j] == path[j - 3];
      if DotAt(bn, i) {
        assert forall j | i - 3 < j < |path| :: bn[j + 3] == path[j];
      }
    }
  }

  lemma {:induction false} BnPathNotEnglishOnly(path: string)
    requires path != [] && path[0] == '/' && !IsEnglishOnly(path)
    ensures !IsEnglishOnly(BnPath(path))
  {
    var bn := BnPath(path);
    forall i | 0 <= i < |bn|
      ensures !DotAt(bn, i)
    {
      BnDot(path, i);
    }
    NotArea(bn, "admin");
    NotArea(bn, "door");
    NotArea(bn, "api");
    NotArea(bn, "_next");
    NotArea(bn, "icon");
    NotArea(bn, "apple-icon");
    NotArea(bn, "manifest");
  }

  lemma {:induction false} NotArea(path: string, name: string)
    requires |path| >= 2 && name != [] && path[1] != name[0]
    ensures !Area(path, name)
  {
    if |path| >= 1 + |name| {
      assert path[1..1 + |name|][0] == path[1];
    }
  }

  /** A request as taken from a URL: no query or fragment mark in the path, and a search that is empty or marked. */
  predicate FromUrl(r: Request) {
    r.pathname != [] && r.pathname[0] == '/' && NoMark(r.pathname) && Tail(r.search)
  }

  lemma {:induction false} BarePath(path: string)
    requires path != [] && NoMark(path)
    ensures PathPart(path) == path && path[|PathPart(path)|..] == []
  {
    PathPartOf(path, []);
    assert path + [] == path;
  }

  /** Who is redirected: a visitor who chose Bangla, opening a page that has a Bangla form, with Bangla on. */
  lemma {:induction false} RedirectIff(r: Request)
    requires FromUrl(r)
    ensures LocaleStep(r).Redirect? <==>
            && Bn in r.locales && r.cookie == Some("bn") && (r.verb == "GET" || r.verb == "HEAD")
            && Offered(r.pathname)
  {
    BarePath(r.pathname);
    LinkChangesIff(r.pathname, Bn);
    if HasBnForm(r.pathname) {
      BnPathBack(r.pathname);
      assert LocalisedPath(r.pathname, Bn) == BnPath(r.pathname);
    } else if "/bn" <= r.pathname {
      assert r.pathname[1] == 'b';
    }
  }

  /**
   * Following a redirect, whatever is sent along, is a rewrite to the page first asked for, with the same search: never
   * a second redirect, and never off the site.
   */
  lemma {:induction false} RedirectOnce(r: Request, again: Request)
    requires FromUrl(r) && LocaleStep(r).Redirect?
    requires var url := LocaleStep(r).url;
             again.pathname == PathPart(url) && again.search == url[|PathPart(url)|..] && again.locales == r.locales
    ensures LocaleStep(again) == Rewrite(Bn, r.pathname)
    ensures again.search == r.search
    ensures "/bn" <= LocaleStep(r).url && !("//" <= LocaleStep(r).url)
  {
    RedirectIff(r);
    LinkChangesIff(r.pathname, Bn);
    BarePath(r.pathname);
    BnPathBack(r.pathname);
    BnPathNotEnglishOnly(r.pathname);
    assert LocalisedPath(r.pathname, Bn) == BnPath(r.pathname);
    PathPartOf(BnPath(r.pathname), r.search);
    assert LocaleStep(r).url[1] == BnPath(r.pathname)[1] == 'b';
  }

  // ----- told by a path's first segment -----

  function UpToSlash(s: string): string {
    if s == [] || s[0] == '/' then [] else [s[0]] + UpToSlash(s[1..])
  }

  /** What follows the first slash, up to the next. */
  function FirstSegment(path: string): string {
    if path != [] && path[0] == '/' then UpToSlash(path[1..]) else []
  }

  lemma {:induction false} UpToSlashIs(s: string, name: string)
    requires '/' !in name
    ensures UpToSlash(s) == name <==> name <= s && (|s| == |name| || s[|name|] == '/')
  {
    if s != [] && s[0] != '/' && name != [] {
      UpToSlashIs(s[1..], name[1..]);
      assert name == [name[0]] + name[1..] && s == [s[0]] + s[1..];
      if |s| > |name| {
        assert s[1..][|name[1..]|] == s[|name|];
      }
    }
  }

  lemma {:induction false} AreaIff(path: string, name: string)
    requires name != [] && '/' !in name
    ensures Area(path, name) <==> FirstSegment(path) == name
  {
    if path != [] && path[0] == '/' {
      UpToSlashIs(path[1..], name);
      if |path| >= 1 + |name| {
        assert path[1..1 + |name|] == path[1..][..|name|];
      }
    }
  }

  const ENGLISH_AREAS: set<string> :=
    {"admin", "door", "api", "_next", "icon", "apple-icon", "manifest"}

  /** A name, a dot, and a suffix of letters and digits. */
  ghost predicate NamesFile(path: string) {
    exists stem, suffix :: path == stem + ['.'] + suffix && IsSuffix(suffix)
  }

  predicate IsSuffix(suffix: string) {
    && suffix != []
    && forall i | 0 <= i < |suffix| ::
         'a' <= suffix[i] <= 'z' || 'A' <= suffix[i] <= 'Z' || '0' <= suffix[i] <= '9'
  }

  lemma {:induction false} FileIff(path: string)
    ensures IsFile(path) <==> NamesFile(path)
  {
    if i :| 0 <= i < |path| && DotAt(path, i) {
      assert path == path[..i] + ['.'] + path[i + 1..] && IsSuffix(path[i + 1..]);
    }
    if stem, suffix :| path == stem + ['.'] + suffix && IsSuffix(suffix) {
      assert forall j | |stem| < j < |path| :: path[j] == suffix[j - |stem| - 1];
      assert DotAt(path, |stem|);
    }
  }

  /** A path stays English exactly when it is in one of seven areas, or names a file. */
  lemma {:induction false} EnglishOnlyIff(path: string)
    ensures IsEnglishOnly(path) <==> FirstSegment(path) in ENGLISH_AREAS || NamesFile(path)
  {
    FileIff(path);
    AreaIff(path, "admin");
    AreaIff(path, "door");
    AreaIff(path, "api");
    AreaIff(path, "_next");
    AreaIff(path, "icon");
    AreaIff(path, "apple-icon");
    AreaIff(path, "manifest");
  }

  /** A path is Bangla exactly when its first segment is "bn"; the page is then what follows. */
  lemma {:induction false} BanglaIff(path: string)
    ensures LocaleFromPath(path).locale.Bn? <==> FirstSegment(path) == "bn"
    ensures LocaleFromPath(path).locale.En? ==> LocaleFromPath(path).path == path
    ensures LocaleFromPath(path).locale.Bn? ==>
              && LocaleFromPath(path).path != [] && LocaleFromPath(path).path[0] == '/'
              && (path == "/bn" + LocaleFromPath(path).path || (path == "/bn" && LocaleFromPath(path).path == "/"))
  {
    AreaIff(path, "bn");
    assert Area(path, "bn") <==> path == "/bn" || "/bn/" <= path by {
      if |path| >= 3 {
        assert path[1..3] == "bn" <==> path[1] == 'b' && path[2] == 'n';
      }
    }
    if "/bn/" <= path {
      assert path == path[..3] + path[3..] && path[..3] == "/bn";
    }
  }

  /** A link has a Bangla form: a page of this site, neither English only nor Bangla already. */
  ghost predicate Offered(href: string) {
    var page := PathPart(href);
    && href != [] && href[0] == '/' && (|href| == 1 || href[1] != '/')
    && FirstSegment(page) !in ENGLISH_AREAS && !NamesFile(page) && FirstSegment(page) != "bn"
  }

  /** Links change exactly when Bangla is asked for and they have such a form. */
  lemma {:induction false} LinkChangesIff(href: string, locale: Locale)
    ensures LocalisedPath(href, locale) != href <==> locale.Bn? && Offered(href)
    ensures HasBnForm(href) <==> Offered(href)
  {
    EnglishOnlyIff(PathPart(href));
    BanglaIff(PathPart(href));
    assert "//" <= href <==> |href| >= 2 && href[0] == '/' && href[1] == '/';
    if HasBnForm(href) {
      RoundTrip(href);
      assert PathPart(LocalisedPath(href, Bn)) == PathPart(href) ==>
               LocaleFromPath(PathPart(href)) == LocaleFromPath(PathPart(LocalisedPath(href, Bn)));
    }
  }

  /**
   * What the proxy does otherwise: a Bangla page is served in Bangla while Bangla is on; everything else goes on in
   * English, a Bangla path with Bangla off too.
   */
  lemma {:induction false} StepIff(r: Request)
    ensures var stays := FirstSegment(r.pathname) in ENGLISH_AREAS || NamesFile(r.pathname);
            && (LocaleStep(r).Rewrite? <==> !stays && FirstSegment(r.pathname) == "bn" && Bn in r.locales)
            && (LocaleStep(r).Rewrite? ==> LocaleStep(r) == Rewrite(Bn, LocaleFromPath(r.pathname).path))
            && (LocaleStep(r).NextStep? ==> LocaleStep(r) == NextStep(En))
            && (FirstSegment(r.pathname) == "bn" && Bn !in r.locales ==> LocaleStep(r) == NextStep(En))
            && (stays ==> LocaleStep(r) == NextStep(En))
  {
    EnglishOnlyIff(r.pathname);
    BanglaIff(r.pathname);
  }
}
