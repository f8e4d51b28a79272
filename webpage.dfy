/**
 * The navigation rule of the embedded web view (tray/gui/webpage.cpp, isSamePage and
 * handleNavigationRequest): navigation stays inside the page of the daemon's web UI,
 * anything else goes to the external browser.
 */
module WebPage {
  import opened Types

  /** The parts of a URL the rule looks at; a URL without a port has port -1. */
  datatype Url = Url(scheme: string, host: string, port: int, path: string)

  /** The empty URL (no page loaded yet). */
  predicate IsEmptyUrl(u: Url)
  {
    u.scheme == [] && u.host == [] && u.port == -1 && u.path == []
  }

  /** A path without its trailing '/' characters. */
  function TrimTrailingSlashes(p: string): (r: string)
    ensures r <= p
    ensures r == [] || r[|r| - 1] != '/'
    ensures forall k :: |r| <= k < |p| ==> p[k] == '/'
    decreases |p|
  {
    if p != [] && p[|p| - 1] == '/' then TrimTrailingSlashes(p[..|p| - 1]) else p
  }

  /** Trimming is determined by what is left: the trimmed path is the unique such prefix. */
  lemma {:induction false} TrimTrailingSlashesUnique(p: string, q: string)
    requires q <= p && (q == [] || q[|q| - 1] != '/')
    requires forall k :: |q| <= k < |p| ==> p[k] == '/'
    ensures TrimTrailingSlashes(p) == q
    decreases |p|
  {
    if |p| > |q| {
      assert p[|p| - 1] == '/';
      var p' := p[..|p| - 1];
      assert q <= p';
      forall k | |q| <= k < |p'|
        ensures p'[k] == '/'
      {
        assert p'[k] == p[k];
      }
      TrimTrailingSlashesUnique(p', q);
    } else {
      assert p == q;
    }
  }

  /** Trimming twice is trimming once. */
  lemma TrimTrailingSlashesIdempotent(p: string)
    ensures TrimTrailingSlashes(TrimTrailingSlashes(p)) == TrimTrailingSlashes(p)
  {
    var t := TrimTrailingSlashes(p);
    TrimTrailingSlashesUnique(t, t);
  }

  /** Whether two URLs show the same page: same scheme, host and port and the same trimmed path. */
  predicate SamePage(u1: Url, u2: Url)
  {
    u1.scheme == u2.scheme && u1.host == u2.host && u1.port == u2.port &&
    TrimTrailingSlashes(u1.path) == TrimTrailingSlashes(u2.path)
  }

  /** The comparison, trimming local copies of the paths. */
  method IsSamePage(u1: Url, u2: Url) returns (same: bool)
    ensures same <==> SamePage(u1, u2)
  {
    if u1.scheme == u2.scheme && u1.host == u2.host && u1.port == u2.port {
      var path1 := u1.path;
      while path1 != [] && path1[|path1| - 1] == '/'
        invariant TrimTrailingSlashes(path1) == TrimTrailingSlashes(u1.path)
        decreases |path1|
      {
        path1 := path1[..|path1| - 1];
      }
      var path2 := u2.path;
      while path2 != [] && path2[|path2| - 1] == '/'
        invariant TrimTrailingSlashes(path2) == TrimTrailingSlashes(u2.path)
        decreases |path2|
      {
        path2 := path2[..|path2| - 1];
      }
      if path1 == path2 {
        return true;
      }
    }
    return false;
  }

  /** URLs that differ in scheme, host or port are never the same page. */
  lemma DifferentOriginNeverSamePage(u1: Url, u2: Url)
    requires u1.scheme != u2.scheme || u1.host != u2.host || u1.port != u2.port
    ensures !SamePage(u1, u2)
  {
  }

  /** Only trailing slashes are ignored: "/a", "/a/" and "/a//" are the same page, "/a" and "/b" are not. */
  lemma TrailingSlashesIgnored(u: Url)
    ensures SamePage(u.(path := "/a"), u.(path := "/a/"))
    ensures SamePage(u.(path := "/a/"), u.(path := "/a//"))
    ensures !SamePage(u.(path := "/a"), u.(path := "/b"))
  {
    TrimTrailingSlashesUnique("/a", "/a");
    TrimTrailingSlashesUnique("/a/", "/a");
    TrimTrailingSlashesUnique("/a//", "/a");
    TrimTrailingSlashesUnique("/b", "/b");
  }

  /** Adding slashes at the end of a path never leaves the page. */
  lemma {:induction false} AppendedSlashesSamePage(u: Url, n: nat)
    ensures SamePage(u, u.(path := u.path + seq(n, _ => '/')))
  {
    var p := u.path + seq(n, _ => '/');
    var t := TrimTrailingSlashes(u.path);
    forall k | |t| <= k < |p|
      ensures p[k] == '/'
    {
      if k < |u.path| {
        assert p[k] == u.path[k];
      }
    }
    TrimTrailingSlashesUnique(p, t);
  }

  /** The comparison is an equivalence: reflexive, symmetric and transitive. */
  lemma SamePageEquivalence(u1: Url, u2: Url, u3: Url)
    ensures SamePage(u1, u1)
    ensures SamePage(u1, u2) ==> SamePage(u2, u1)
    ensures SamePage(u1, u2) && SamePage(u2, u3) ==> SamePage(u1, u3)
  {
  }

  /**
   * A navigation request from the current URL to the target: allowed while nothing is
   * loaded or when it stays on the same page; otherwise it is refused and the target is
   * handed to the external browser (returned as `external`).
   */
  method HandleNavigationRequest(current: Url, target: Url) returns (allow: bool, external: Option<Url>)
    ensures IsEmptyUrl(current) ==> allow && external == None
    ensures !IsEmptyUrl(current) ==> (allow <==> SamePage(current, target))
    ensures external == if allow then None else Some(target)
  {
    if IsEmptyUrl(current) {
      return true, None;
    }
    var same := IsSamePage(current, target);
    if same {
      return true, None;
    }
    return false, Some(target);
  }
}
