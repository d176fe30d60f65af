/** The navigation bar's derived values: the path segments of the current
    location, the breadcrumb trail built from them, whether the trail is shown,
    and which top-level link is highlighted. */
module NavBar {
  import opened Wrappers
  import opened Strings

  datatype Link = Link(text: string, href: string)

  const TopLevelLinks: seq<Link> := [Link("Home", "/"), Link("Projects", "/projects")]

  /** `parts.filter(seg => seg !== "")`. */
  function NonEmpty(parts: seq<string>): (r: seq<string>)
    ensures |r| <= |parts|
    ensures forall k :: 0 <= k < |r| ==> r[k] != "" && r[k] in parts
  {
    if parts == [] then []
    else if parts[0] == "" then NonEmpty(parts[1..])
    else [parts[0]] + NonEmpty(parts[1..])
  }

  /** `pathname.split("/").filter(seg => seg !== "")`. */
  function PathSegments(pathname: string): (segs: seq<string>)
    ensures forall k :: 0 <= k < |segs| ==> segs[k] != "" && '/' !in segs[k]
  {
    NonEmpty(Split(pathname, '/'))
  }

  /** A crumb; the last one has no link. */
  datatype Crumb = Crumb(text: string, href: Option<string>)

  const HomeCrumb: Crumb := Crumb("Home", Some("/"))

  /** `s.replace(/^\w/, c => c.toUpperCase())`. */
  function CapitalizeFirst(s: string): (r: string)
    ensures |r| == |s|
    ensures forall i :: 0 < i < |s| ==> r[i] == s[i]
    ensures |s| > 0 ==> r[0] == UpperChar(s[0]) && (IsWordChar(s[0]) <==> IsWordChar(r[0]))
  {
    if |s| > 0 && IsWordChar(s[0]) then [UpperChar(s[0])] + s[1..] else s
  }

  /** `segment.replace(/-/g, " ").replace(/^\w/, c => c.toUpperCase())`. */
  function Label(segment: string): (l: string)
    ensures |l| == |segment| && '-' !in l
  {
    CapitalizeFirst(ReplaceChar(segment, '-', ' '))
  }

  /** The link of the crumb for `segs[k]`: "/" followed by the first k + 1 segments. */
  function CrumbHref(segs: seq<string>, k: nat): (h: string)
    requires k < |segs|
    ensures StartsWith(h, "/")
    ensures |h| >= 1 + |segs[k]| && h[|h| - |segs[k]|..] == segs[k]
  {
    JoinEndsWithLast(segs[..k + 1], "/");
    "/" + Join(segs[..k + 1], "/")
  }

  /** The trail: Home, then one crumb per segment, the last one without a link. */
  function Crumbs(pathname: string): (cs: seq<Crumb>)
    ensures |cs| == |PathSegments(pathname)| + 1 && cs[0] == HomeCrumb
    ensures forall k :: 0 < k < |cs| ==> (cs[k].href.None? <==> k == |cs| - 1)
  {
    var segs := PathSegments(pathname);
    [HomeCrumb] + seq(|segs|, k requires 0 <= k < |segs| =>
                        Crumb(Label(segs[k]), if k == |segs| - 1 then None else Some(CrumbHref(segs, k))))
  }

  /** `crumbs.length > 1`. */
  predicate ShowBreadcrumb(pathname: string)
    ensures ShowBreadcrumb(pathname) <==> PathSegments(pathname) != []
  {
    |Crumbs(pathname)| > 1
  }

  /** `pathname.startsWith(link.href)`. */
  predicate IsActive(pathname: string, href: string)
    ensures IsActive(pathname, href) ==> |href| <= |pathname|
    ensures href == "" ==> IsActive(pathname, href)
  {
    StartsWith(pathname, href)
  }

  // ---------------------------------------------------------------------------
  // Properties

  lemma {:induction false} NonEmptyOfNonEmpty(parts: seq<string>)
    requires forall k :: 0 <= k < |parts| ==> parts[k] != ""
    ensures NonEmpty(parts) == parts
  {
    if parts != [] {
      NonEmptyOfNonEmpty(parts[1..]);
    }
  }

  /** The filter works part by part: it keeps every non-empty part, in order. */
  lemma {:induction false} NonEmptyAppend(a: seq<string>, b: seq<string>)
    ensures NonEmpty(a + b) == NonEmpty(a) + NonEmpty(b)
  {
    if a == [] {
      assert a + b == b;
    } else {
      var ab := a + b;
      assert ab[0] == a[0];
      assert ab[1..] == a[1..] + b;
      NonEmptyAppend(a[1..], b);
      var head := if a[0] == "" then [] else [a[0]];
      assert NonEmpty(ab) == head + NonEmpty(a[1..] + b);
      assert NonEmpty(a) == head + NonEmpty(a[1..]);
    }
  }

  lemma NonEmptyOne(x: string)
    ensures NonEmpty([x]) == if x == "" then [] else [x]
  {
    assert [x][1..] == [];
  }

  lemma {:induction false} NonEmptyIsEmpty(parts: seq<string>)
    ensures NonEmpty(parts) == [] <==> forall k :: 0 <= k < |parts| ==> parts[k] == ""
  {
    if parts != [] {
      NonEmptyIsEmpty(parts[1..]);
      assert forall k :: 1 <= k < |parts| ==> parts[k] == parts[1..][k - 1];
    }
  }

  /** The segments of a path written as "/" and its segments joined by "/" are
      those segments: splitting recovers what joining built. */
  lemma PathSegmentsOfJoin(segs: seq<string>)
    requires forall k :: 0 <= k < |segs| ==> segs[k] != "" && '/' !in segs[k]
    ensures PathSegments("/" + Join(segs, "/")) == segs
  {
    if segs == [] {
      assert Split("/", '/') == [""] + Split("", '/');
    } else {
      var parts := [""] + segs;
      assert parts[1..] == segs;
      assert Join(parts, "/") == "/" + Join(segs, "/");
      SplitJoin(parts, '/');
      assert NonEmpty(parts) == NonEmpty(segs);
      NonEmptyOfNonEmpty(segs);
    }
  }

  /** Empty pieces from doubled or trailing slashes are dropped. */
  lemma NonCanonicalPath()
    ensures PathSegments("/a//b/") == ["a", "b"]
  {
    var pieces := ["", "a", "", "b", ""];
    assert Join(pieces[4..], "/") == "";
    assert Join(pieces[3..], "/") == "b/" by { assert pieces[3..][1..] == pieces[4..]; }
    assert Join(pieces[2..], "/") == "/b/" by { assert pieces[2..][1..] == pieces[3..]; }
    assert Join(pieces[1..], "/") == "a//b/" by { assert pieces[1..][1..] == pieces[2..]; }
    assert Join(pieces, "/") == "/a//b/";
    SplitJoin(pieces, '/');
    assert NonEmpty(pieces[4..]) == [] by { assert pieces[4..][1..] == []; }
    assert NonEmpty(pieces[3..]) == ["b"] by { assert pieces[3..][1..] == pieces[4..]; }
    assert NonEmpty(pieces[2..]) == ["b"] by { assert pieces[2..][1..] == pieces[3..]; }
    assert NonEmpty(pieces[1..]) == ["a", "b"] by { assert pieces[1..][1..] == pieces[2..]; }
  }

  /** A canonical path ("/" or "/"-separated non-empty segments after a leading
      "/") is recovered from its segments. */
  lemma CanonicalPathRecovered(pathname: string)
    requires pathname == "/" || (StartsWith(pathname, "/") && pathname[|pathname| - 1] != '/'
                                && forall i :: 0 <= i < |pathname| - 1 ==> !(pathname[i] == '/' && pathname[i + 1] == '/'))
    ensures "/" + Join(PathSegments(pathname), "/") == pathname
  {
    if pathname != "/" {
      var tail := pathname[1..];
      assert pathname == "/" + tail;
      var parts := Split(tail, '/');
      assert forall k :: 0 <= k < |parts| ==> parts[k] != "" by {
        SplitHasNoEmptyPiece(tail);
      }
      assert Split(pathname, '/') == [""] + parts;
      assert NonEmpty([""] + parts) == NonEmpty(parts) by {
        assert ([""] + parts)[1..] == parts;
      }
      NonEmptyOfNonEmpty(parts);
    }
  }

  /** A non-empty string that neither starts nor ends with "/" and holds no "//"
      splits into non-empty pieces. */
  lemma {:induction false} SplitHasNoEmptyPiece(s: string)
    requires |s| > 0 && s[0] != '/' && s[|s| - 1] != '/'
    requires forall i :: 0 <= i < |s| - 1 ==> !(s[i] == '/' && s[i + 1] == '/')
    ensures forall k :: 0 <= k < |Split(s, '/')| ==> Split(s, '/')[k] != ""
  {
    var rest := Split(s[1..], '/');
    if |s| > 1 {
      if s[1] == '/' {
        // s[1..] = "/" + u with u non-empty and not starting with "/"
        var u := s[2..];
        assert |u| > 0 && u[0] != '/' && u[|u| - 1] != '/';
        assert forall i :: 0 <= i < |u| - 1 ==> !(u[i] == '/' && u[i + 1] == '/') by {
          forall i | 0 <= i < |u| - 1 ensures !(u[i] == '/' && u[i + 1] == '/') {
            assert u[i] == s[i + 2] && u[i + 1] == s[i + 3];
          }
        }
        SplitHasNoEmptyPiece(u);
        assert s[1..][1..] == u;
        assert rest == [""] + Split(u, '/');
        assert rest[0] == "" && rest[1..] == Split(u, '/');
        assert [s[0]] + rest[0] == [s[0]];
        assert Split(s, '/') == [[s[0]]] + Split(u, '/');
      } else {
        var t := s[1..];
        assert forall i :: 0 <= i < |t| - 1 ==> !(t[i] == '/' && t[i + 1] == '/') by {
          forall i | 0 <= i < |t| - 1 ensures !(t[i] == '/' && t[i + 1] == '/') {
            assert t[i] == s[i + 1] && t[i + 1] == s[i + 2];
          }
        }
        SplitHasNoEmptyPiece(t);
      }
    }
  }

  /** The pieces of `s` between "/" are all empty exactly when `s` has no
      character other than "/". */
  lemma {:induction false} SplitAllEmpty(s: string)
    ensures (forall k :: 0 <= k < |Split(s, '/')| ==> Split(s, '/')[k] == "")
            <==> (forall i :: 0 <= i < |s| ==> s[i] == '/')
  {
    if s != [] {
      SplitAllEmpty(s[1..]);
      var rest := Split(s[1..], '/');
      if s[0] == '/' {
        assert Split(s, '/') == [""] + rest;
        assert forall k :: 1 <= k < |Split(s, '/')| ==> Split(s, '/')[k] == rest[k - 1];
        assert forall i :: 1 <= i < |s| ==> s[i] == s[1..][i - 1];
      } else {
        assert Split(s, '/')[0] != "";
      }
    }
  }

  /** The trail is shown exactly when the path has a non-empty segment, that is
      a character other than "/". */
  lemma ShowBreadcrumbIff(pathname: string)
    ensures ShowBreadcrumb(pathname) <==> |PathSegments(pathname)| > 0
    ensures ShowBreadcrumb(pathname) <==> exists i :: 0 <= i < |pathname| && pathname[i] != '/'
  {
    NonEmptyIsEmpty(Split(pathname, '/'));
    SplitAllEmpty(pathname);
    if exists i :: 0 <= i < |pathname| && pathname[i] != '/' {
      var i :| 0 <= i < |pathname| && pathname[i] != '/';
      assert !(forall j :: 0 <= j < |pathname| ==> pathname[j] == '/');
      var parts := Split(pathname, '/');
      assert !(forall k :: 0 <= k < |parts| ==> parts[k] == "");
    }
  }

  /** One crumb per segment after Home; only the last crumb lacks a link, and
      the link of each segment's crumb is "/" and the segments up to it. */
  lemma CrumbsShape(pathname: string)
    ensures var segs, cs := PathSegments(pathname), Crumbs(pathname);
      && |cs| == |segs| + 1
      && cs[0] == HomeCrumb
      && (forall k :: 0 <= k < |segs| ==> cs[k + 1].text == Label(segs[k]))
      && (forall k :: 0 <= k < |segs| - 1 ==> cs[k + 1].href == Some(CrumbHref(segs, k)))
      && (|segs| > 0 ==> cs[|segs|].href.None?)
      && (forall k :: 0 <= k < |cs| - 1 ==> cs[k].href.Some?)
  {
  }

  /** Each crumb's link extends the previous one by "/" and one segment, so every
      link is a prefix of the next. */
  lemma CrumbHrefsChain(segs: seq<string>, k: nat)
    requires k + 1 < |segs|
    ensures CrumbHref(segs, k + 1) == CrumbHref(segs, k) + "/" + segs[k + 1]
    ensures StartsWith(CrumbHref(segs, k + 1), CrumbHref(segs, k))
    ensures StartsWith(CrumbHref(segs, k), "/")
  {
    assert segs[..k + 2] == segs[..k + 1] + [segs[k + 1]];
    JoinAppend(segs[..k + 1], [segs[k + 1]], "/");
    var a, b := CrumbHref(segs, k), CrumbHref(segs, k + 1);
    assert b == a + ("/" + segs[k + 1]);
    assert b[..|a|] == a;
  }

  /** A label keeps the segment's length, turns every "-" into a space and
      upper-cases the first character when it is an ASCII letter. */
  lemma LabelShape(segment: string)
    ensures var l := Label(segment);
      && |l| == |segment|
      && '-' !in l
      && (forall i :: 0 <= i < |segment| && segment[i] == '-' ==> l[i] == ' ')
      && (forall i :: 0 < i < |segment| && segment[i] != '-' ==> l[i] == segment[i])
      && (|segment| > 0 && segment[0] != '-' ==> l[0] == UpperChar(segment[0]))
  {
    var t := ReplaceChar(segment, '-', ' ');
    var l := Label(segment);
    if |segment| > 0 {
      assert l[1..] == t[1..];
      assert forall i :: 0 < i < |segment| ==> l[i] == t[i];
    }
  }

  /** The Home link is highlighted on every path, since every path starts with "/". */
  lemma HomeAlwaysActive(pathname: string)
    requires StartsWith(pathname, "/")
    ensures IsActive(pathname, TopLevelLinks[0].href)
  {
  }

  /** The test is a plain string prefix, not a segment prefix. */
  lemma ActiveOnSharedPrefix()
    ensures IsActive("/projects-archive", "/projects")
  {
  }
}
