/**
 * The crawler's URL filter: decides whether a link found on a page is a Snowball
 * (xueqiu.com) page worth crawling, and if so rebuilds it with a percent-quoted path.
 * Parsing the URL into its parts and quoting the path are library calls; the parts
 * arrive as a value and quoting is a function parameter.
 */
module UrlFilter {
  import opened Common

  /** The six components a URL parses into. */
  datatype UrlParts = UrlParts(scheme: string, netloc: string, path: string, params: string, query: string, fragment: string)

  /** What the filter hands back: the site's front page as given, or a URL rebuilt from parts. */
  datatype Link = Unchanged(url: string) | Built(parts: UrlParts)

  const Home: string := "http://xueqiu.com/"
  const Host: string := "xueqiu.com"
  /** The full-width number sign U+FF03 that some links carry at their end. */
  const FullWidthHash: string := "\U{FF03}"
  const ReportSuffix: string := "/report"

  predicate EndsWith(s: string, suffix: string) {
    |suffix| <= |s| && s[|s| - |suffix|..] == suffix
  }

  predicate OccursAt(s: string, pat: string, k: int) {
    0 <= k && k + |pat| <= |s| && s[k..k + |pat|] == pat
  }

  /** The first index at or after `from` where `pat` occurs in `s`, or -1. */
  function FindFrom(s: string, pat: string, from: nat): (r: int)
    requires |pat| > 0
    ensures r == -1 || (from <= r && OccursAt(s, pat, r))
    ensures r == -1 ==> forall k :: from <= k ==> !OccursAt(s, pat, k)
    ensures r != -1 ==> forall k :: from <= k < r ==> !OccursAt(s, pat, k)
    decreases |s| - from
  {
    if from + |pat| > |s| then -1
    else if s[from..from + |pat|] == pat then from
    else FindFrom(s, pat, from + 1)
  }

  /** Python's str.find for a non-empty pattern: the first index of `pat` in `s`, or -1. */
  function Find(s: string, pat: string): (r: int)
    requires |pat| > 0
    ensures r == -1 <==> forall k :: !OccursAt(s, pat, k)
    ensures r != -1 ==> OccursAt(s, pat, r) && forall k :: 0 <= k < r ==> !OccursAt(s, pat, k)
  {
    FindFrom(s, pat, 0)
  }

  /** A trailing full-width '#' is cut first, then a trailing "/report". */
  function TrimPath(path: string): (p: string)
    ensures p <= path
    ensures path[|p|..] in {"", FullWidthHash, ReportSuffix, ReportSuffix + FullWidthHash}
    ensures |p| == |path| <==> !EndsWith(path, FullWidthHash) && !EndsWith(path, ReportSuffix)
  {
    var p1 := if EndsWith(path, FullWidthHash) then path[..|path| - |FullWidthHash|] else path;
    var p := if EndsWith(p1, ReportSuffix) then p1[..|p1| - |ReportSuffix|] else p1;
    assert path[|p1|..] == if EndsWith(path, FullWidthHash) then FullWidthHash else "";
    assert p1[|p|..] == if EndsWith(p1, ReportSuffix) then ReportSuffix else "";
    assert path[|p|..] == p1[|p|..] + path[|p1|..];
    p
  }

  /** Paths the crawler never follows: user, news, static and account pages, and embedded links. */
  predicate Blocked(path: string) {
    || "/P/" <= path || "/p/" <= path
    || "/n/GT%25" <= path
    || "/about/" <= path
    || "/account/" <= path
    || "/calendar/" <= path
    || ("/n/" <= path && Find(path, "%2525") > 0)
    || Find(path, "http:/") > 0
  }

  /**
   * The filter. The front page passes as it is; any other URL must be plain http on the
   * site's host with a path of 2 to 39 characters (measured before trimming); the trimmed
   * path must not be blocked; the result is rebuilt from the scheme, the host and the quoted
   * trimmed path, with no params, query or fragment.
   */
  function CheckAndQuoteUrl(url: string, parts: UrlParts, quote: string -> string): (r: Option<Link>)
    ensures url == Home ==> r == Some(Unchanged(url))
    ensures url != Home ==>
      (r.Some? <==> && parts.scheme == "http" && parts.netloc == Host
                    && 2 <= |parts.path| < 40
                    && !Blocked(TrimPath(parts.path)))
    ensures url != Home && r.Some? ==>
      r.value == Built(UrlParts("http", Host, quote(TrimPath(parts.path)), "", "", ""))
  {
    if url == Home then Some(Unchanged(url))
    else if parts.scheme != "http" then None
    else if parts.netloc != Host then None
    else if |parts.path| <= 1 || |parts.path| >= 40 then None
    else
      var path := TrimPath(parts.path);
      if Blocked(path) then None
      else Some(Built(UrlParts(parts.scheme, parts.netloc, quote(path), "", "", "")))
  }

  /** A 40-character report link is refused although its trimmed path has only 33 characters. */
  lemma LongReportLinkRefused(quote: string -> string)
    ensures var path := "/S/SH600000/abcdefghijklmnopqrstu" + ReportSuffix;
      && |path| == 40 && |TrimPath(path)| == 33
      && CheckAndQuoteUrl("http://xueqiu.com" + path, UrlParts("http", Host, path, "", "", ""), quote).None?
  {
    var path := "/S/SH600000/abcdefghijklmnopqrstu" + ReportSuffix;
    assert EndsWith(path, ReportSuffix);
    assert path[|path| - 1] == 't';
    assert !EndsWith(path, FullWidthHash);
  }

  /**
   * The trimmed path of an accepted URL starts with none of the blocked prefixes and, unless
   * it starts with "http:/" itself, holds "http:/" nowhere.
   */
  lemma AcceptedPathClean(url: string, parts: UrlParts, quote: string -> string)
    requires url != Home && CheckAndQuoteUrl(url, parts, quote).Some?
    ensures var path := TrimPath(parts.path);
      && !("/P/" <= path) && !("/p/" <= path) && !("/about/" <= path)
      && !("/account/" <= path) && !("/calendar/" <= path) && !("/n/GT%25" <= path)
      && (!OccursAt(path, "http:/", 0) ==> forall k :: !OccursAt(path, "http:/", k))
  {
    var path := TrimPath(parts.path);
    var f := Find(path, "http:/");
    assert !(f > 0);
  }

  /**
   * A path holding "http:/" after its first character, and not at its start, is refused.
   * (Only the first occurrence is looked at: one at the very start hides any later ones.)
   */
  lemma EmbeddedLinkRefused(url: string, parts: UrlParts, quote: string -> string, k: nat)
    requires url != Home && k > 0 && OccursAt(TrimPath(parts.path), "http:/", k)
    requires !OccursAt(TrimPath(parts.path), "http:/", 0)
    ensures CheckAndQuoteUrl(url, parts, quote).None?
  {
    var f := Find(TrimPath(parts.path), "http:/");
    assert f != -1;
    assert f != 0;
  }

  /**
   * The full-width '#' is cut before "/report": a path ending "/report" then '#' loses both,
   * one ending '#' then "/report" loses only "/report".
   */
  lemma {:induction false} TrimOrder(p: string)
    ensures TrimPath(p + ReportSuffix + FullWidthHash) == p
    ensures TrimPath(p + FullWidthHash + ReportSuffix) == p + FullWidthHash
  {
    var a := p + ReportSuffix + FullWidthHash;
    assert a[|a| - 1..] == FullWidthHash;
    assert a[..|a| - 1] == p + ReportSuffix;
    assert (p + ReportSuffix)[|p|..] == ReportSuffix;
    var b := p + FullWidthHash + ReportSuffix;
    assert b[|b| - 1] == 't';
    assert b[|b| - 7..] == ReportSuffix;
    assert b[..|b| - 7] == p + FullWidthHash;
  }

  /**
   * A news path ("/n/...") holding the doubly escaped "%2525" anywhere after its start is refused:
   * such a path starts with '/', so the first occurrence is past position 0.
   */
  lemma NewsPathDoubleEscapeRefused(url: string, parts: UrlParts, quote: string -> string, k: nat)
    requires url != Home && "/n/" <= TrimPath(parts.path) && OccursAt(TrimPath(parts.path), "%2525", k)
    ensures CheckAndQuoteUrl(url, parts, quote).None?
  {
    var path := TrimPath(parts.path);
    var f := Find(path, "%2525");
    assert f != -1;
    assert path[0] == '/';
    assert !OccursAt(path, "%2525", 0) by {
      assert "%2525"[0] == '%';
    }
  }
}
