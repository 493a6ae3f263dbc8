/**
 * The breadcrumb trail above each page: a home crumb for the dashboard and a crumb for the
 * current page, built from the path's segments and the table of page titles.
 */
module Breadcrumbs {
  import opened Optional
  import opened Text

  /** A crumb; the title is missing when the path has no segment to fall back on. */
  datatype Crumb = Crumb(title: Option<string>, path: string, isHome: bool, isCurrent: bool)

  const HomeCrumb := Crumb(Some("Dashboard"), "/dashboard", true, false)

  /** `pathMap`: the title of each page of the application. */
  function PageTitle(path: string): Option<string> {
    if path == "/dashboard" then Some("Dashboard")
    else if path == "/team-scheduling" then Some("Team Scheduling")
    else if path == "/media-library" then Some("Media Library")
    else if path == "/communication-center" then Some("Communication Center")
    else if path == "/user-management" then Some("User Management")
    else if path == "/login" then Some("Login")
    else None
  }

  /** `'/' + pathSegments.join('/')`: the path without empty segments. */
  function CurrentPath(pathname: string): (r: string)
    ensures |r| >= 1 && r[0] == '/'
  {
    "/" + JoinSlash(Segments(pathname))
  }

  /** The title of the rebuilt path, else the last segment; with no segment there is none. */
  function CurrentLabel(pathname: string): (r: Option<string>)
    ensures PageTitle(CurrentPath(pathname)).Some? ==> r == PageTitle(CurrentPath(pathname))
    ensures PageTitle(CurrentPath(pathname)).None? && Segments(pathname) != [] ==>
      r == Some(Segments(pathname)[|Segments(pathname)| - 1])
    ensures r.None? <==> PageTitle(CurrentPath(pathname)).None? && Segments(pathname) == []
  {
    var segs := Segments(pathname);
    match PageTitle(CurrentPath(pathname))
    case Some(t) => Some(t)
    case None => if segs == [] then None else Some(segs[|segs| - 1])
  }

  /** Rebuilding a rebuilt path changes nothing: empty segments are gone after the first pass. */
  lemma CurrentPathIdempotent(pathname: string)
    ensures CurrentPath(CurrentPath(pathname)) == CurrentPath(pathname)
  {
    SegmentsOfJoin(Segments(pathname));
  }

  /** A trailing slash is dropped: '/seg/' rebuilds to '/seg'. */
  lemma TrailingSlashDropped(seg: string)
    requires seg != [] && '/' !in seg
    ensures CurrentPath("/" + seg + "/") == "/" + seg
  {
    SegmentsSkipSlash(seg + "/");
    SegmentsCons(seg, "/");
    SegmentsSkipSlash("");
    assert "/" + seg + "/" == "/" + (seg + "/");
    assert Segments("/" + seg + "/") == [seg];
  }

  /**
   * `generateBreadcrumbs`: the home crumb unless the path is exactly '/login', then the
   * current page unless the path is exactly '/dashboard' or '/login'.
   */
  method GenerateBreadcrumbs(pathname: string) returns (crumbs: seq<Crumb>)
    ensures pathname == "/login" ==> crumbs == []
    ensures pathname == "/dashboard" ==> crumbs == [HomeCrumb]
    ensures pathname != "/login" && pathname != "/dashboard" ==>
      crumbs == [HomeCrumb, Crumb(CurrentLabel(pathname), CurrentPath(pathname), false, true)]
  {
    crumbs := [];
    if pathname != "/login" {
      crumbs := crumbs + [HomeCrumb];
    }
    if pathname != "/dashboard" && pathname != "/login" {
      crumbs := crumbs + [Crumb(CurrentLabel(pathname), CurrentPath(pathname), false, true)];
    }
  }

  /** Nothing is drawn on '/login' or when there is at most one crumb. */
  function Rendered(pathname: string, crumbs: seq<Crumb>): bool {
    pathname != "/login" && |crumbs| > 1
  }

  /** The trail is drawn exactly on the pages other than the login page and the dashboard. */
  method RenderedOn(pathname: string) returns (shown: bool)
    ensures shown <==> pathname != "/login" && pathname != "/dashboard"
  {
    var crumbs := GenerateBreadcrumbs(pathname);
    shown := Rendered(pathname, crumbs);
  }

  /** Every page of the title table, other than the two without a trail, is labelled by its title. */
  lemma KnownPagesLabelled(pathname: string)
    requires pathname in {"/team-scheduling", "/media-library", "/communication-center", "/user-management"}
    ensures CurrentPath(pathname) == pathname
    ensures CurrentLabel(pathname) == PageTitle(pathname) && PageTitle(pathname).Some?
  {
    KnownPageSegment(pathname);
    SegmentNamesHaveNoSlash(pathname[1..]);
    OneSegmentPageLabelled(pathname);
  }

  /** The four paths are a '/' followed by one of four names. */
  lemma KnownPageSegment(pathname: string)
    requires pathname in {"/team-scheduling", "/media-library", "/communication-center", "/user-management"}
    ensures |pathname| > 1 && pathname[0] == '/' && PageTitle(pathname).Some?
    ensures pathname[1..] in {"team-scheduling", "media-library", "communication-center", "user-management"}
  {
  }

  lemma SegmentNamesHaveNoSlash(seg: string)
    requires seg in {"team-scheduling", "media-library", "communication-center", "user-management"}
    ensures seg != [] && '/' !in seg
  {
  }

  /** A page path of one segment is rebuilt as itself, and labelled with its title. */
  lemma OneSegmentPageLabelled(pathname: string)
    requires |pathname| > 1 && pathname[0] == '/' && '/' !in pathname[1..] && PageTitle(pathname).Some?
    ensures CurrentPath(pathname) == pathname
    ensures CurrentLabel(pathname) == PageTitle(pathname)
  {
    SingleSegmentPath(pathname[1..]);
    assert pathname == "/" + pathname[1..];
  }

  /** A path of one segment is its own rebuilt path. */
  lemma SingleSegmentPath(seg: string)
    requires seg != [] && '/' !in seg
    ensures CurrentPath("/" + seg) == "/" + seg
  {
    SegmentsOfJoin([seg]);
    assert JoinSlash([seg]) == seg;
  }
}
