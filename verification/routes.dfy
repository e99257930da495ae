/**
  The route table of the shell and the view state it derives from the
  current URL alone: which tab is highlighted, whether the page is an
  authentication or landing page, and whether the tab bar is shown.
  Every test is a substring or suffix test on the URL, kept as brittle as
  the shell writes it.
 */
module Routes {
  import opened Text

  // --- Route table ---

  const Base: string := "https://avukatagi.net"
  const Home: string := "https://avukatagi.net/#/home"
  const Dashboard: string := "https://avukatagi.net/#/dashboard"
  const Create: string := "https://avukatagi.net/#/create-job"
  const MyJobs: string := "https://avukatagi.net/#/my-jobs"
  const Profile: string := "https://avukatagi.net/#/profile/"
  const Login: string := "https://avukatagi.net/#/login"

  /** The hash route `seg` under the site root. */
  function RouteUrl(seg: string): string {
    Base + "/#/" + seg
  }

  /** The concrete profile URL for a known user identifier. */
  function ProfileUrl(id: string): string {
    Base + "/#/profile/" + id
  }

  /** Every entry of the table is a hash route of the site root. */
  lemma TableLayout()
    ensures Home == RouteUrl("home")
    ensures Dashboard == RouteUrl("dashboard")
    ensures Create == RouteUrl("create-job")
    ensures MyJobs == RouteUrl("my-jobs")
    ensures Login == RouteUrl("login")
    ensures Profile == ProfileUrl("")
    ensures forall id :: ProfileUrl(id) == RouteUrl("profile") + "/" + id
  {
  }

  // --- Tabs ---

  /** The four standard tabs and the floating create button. */
  datatype Tab = HomeTab | FindWorkTab | CreateTab | MyJobsTab | ProfileTab

  /** The destination a tab navigates to. */
  function Target(t: Tab): string {
    match t
    case HomeTab => Home
    case FindWorkTab => Dashboard
    case CreateTab => Create
    case MyJobsTab => MyJobs
    case ProfileTab => Profile
  }

  /** The substring whose presence in the URL highlights a tab. */
  function Pattern(t: Tab): string {
    match t
    case HomeTab => "/home"
    case FindWorkTab => "/dashboard"
    case CreateTab => "/create-job"
    case MyJobsTab => "/my-jobs"
    case ProfileTab => "/profile"
  }

  /** The route name inside a tab's pattern. */
  function Segment(t: Tab): string {
    match t
    case HomeTab => "home"
    case FindWorkTab => "dashboard"
    case CreateTab => "create-job"
    case MyJobsTab => "my-jobs"
    case ProfileTab => "profile"
  }

  /**
    The highlight test of each tab; the home tab also lights up on the bare
    site root. "Highlighted" below means this test holds: the floating
    create button is given the test but draws a fixed colour.
   */
  predicate IsActive(t: Tab, url: string) {
    Contains(url, Pattern(t)) || (t == HomeTab && url == Base)
  }

  // --- Tab-bar visibility ---

  predicate IsAuthPage(url: string) {
    Contains(url, "/login") || Contains(url, "/register") || Contains(url, "/forgot-password")
  }

  predicate IsLandingPage(url: string) {
    EndsWith(url, "/#/") || url == Base || url == Base + "/"
  }

  predicate ShouldShowTabBar(url: string) {
    !IsAuthPage(url) && !IsLandingPage(url)
  }

  // --- Deciding the substring tests on route URLs ---

  /** The patterns the shell looks for: a slash, then a route name that starts neither like the host nor like the hash. */
  predicate RoutePattern(sub: string) {
    SlashPattern(sub) && sub[1] != 'a' && sub[1] != '#'
  }

  lemma PatternShape(t: Tab)
    ensures RoutePattern(Pattern(t)) && Pattern(t)[1..] == Segment(t)
  {
  }

  /** The site root itself contains no route pattern. */
  lemma NotInRoot(sub: string)
    requires RoutePattern(sub)
    ensures !Contains(Base + "/#", sub)
  {
    assert Base == "https:" + "/" + "" + "/" + "avukatagi.net";
    assert '/' !in "avukatagi.net" && '/' !in "https:";
    MissingChar("https:", sub, '/');
    ContainsSplitAtSlash("https:", "", sub);
    ContainsSplitAtSlash("https:" + "/" + "", "avukatagi.net", sub);
    ContainsSplitAtSlash(Base, "#", sub);
  }

  /** A route pattern occurs in a route URL exactly when it names a prefix of the route. */
  lemma RouteContains(seg: string, sub: string)
    requires RoutePattern(sub) && '/' !in seg
    ensures Contains(RouteUrl(seg), sub) <==> StartsWith(seg, sub[1..])
  {
    assert RouteUrl(seg) == (Base + "/#") + "/" + seg;
    NotInRoot(sub);
    ContainsSplitAtSlash(Base + "/#", seg, sub);
  }

  /** A route pattern occurs in a profile URL when it names a prefix of "profile" or of the identifier. */
  lemma ProfileContains(id: string, sub: string)
    requires RoutePattern(sub) && '/' !in id
    ensures Contains(ProfileUrl(id), sub) <==> StartsWith("profile", sub[1..]) || StartsWith(id, sub[1..])
  {
    TableLayout();
    RouteContains("profile", sub);
    ContainsSplitAtSlash(RouteUrl("profile"), id, sub);
  }

  /** On a single-segment route URL (no slash after the hash), a tab is highlighted exactly when its route name is a prefix of the route. */
  lemma ActiveOnRoute(t: Tab, seg: string)
    requires '/' !in seg
    ensures IsActive(t, RouteUrl(seg)) <==> StartsWith(seg, Segment(t))
  {
    PatternShape(t);
    RouteContains(seg, Pattern(t));
    assert |RouteUrl(seg)| > |Base|;
  }

  /**
    Each tab's own destination highlights that tab and no other: the
    route names of the five tabs are pairwise not prefixes of each other.
   */
  lemma TargetActivatesOnlyItself(t: Tab, u: Tab)
    ensures IsActive(u, Target(t)) <==> t == u
  {
    TableLayout();
    PatternShape(u);
    if t == ProfileTab {
      assert Profile == ProfileUrl("");
      ProfileContains("", Pattern(u));
      assert |Profile| > |Base|;
    } else {
      ActiveOnRoute(u, Segment(t));
    }
  }

  /**
    On a profile URL whose identifier holds no slash, the profile tab is
    highlighted, and another tab exactly when the identifier begins with
    that tab's route name.
   */
  lemma ActiveOnProfile(t: Tab, id: string)
    requires '/' !in id
    ensures IsActive(t, ProfileUrl(id)) <==> t == ProfileTab || StartsWith(id, Segment(t))
  {
    PatternShape(t);
    ProfileContains(id, Pattern(t));
    assert |ProfileUrl(id)| > |Base|;
  }

  /** Substring matching is loose: the identifier "home" lights the home tab on a profile page. */
  lemma ProfileIdCanLightHomeTab()
    ensures IsActive(HomeTab, ProfileUrl("home")) && IsActive(ProfileTab, ProfileUrl("home"))
  {
    ActiveOnProfile(HomeTab, "home");
    ActiveOnProfile(ProfileTab, "home");
  }

  /** A character of the lowercase UUID alphabet: a hex digit or a dash. */
  predicate IsUuidChar(c: char) {
    '0' <= c <= '9' || 'a' <= c <= 'f' || c == '-'
  }

  /** Identifiers written in the lowercase UUID alphabet. */
  predicate IsUuidLike(id: string) {
    forall k | 0 <= k < |id| :: IsUuidChar(id[k])
  }

  /** A position, within its first three characters, where each route name other than "profile" leaves the UUID alphabet. */
  function NonUuidPosition(t: Tab): (k: nat)
    requires t != ProfileTab
    ensures k < |Segment(t)| && !IsUuidChar(Segment(t)[k])
  {
    match t
    case HomeTab => 0
    case FindWorkTab => 2
    case CreateTab => 1
    case MyJobsTab => 0
  }

  /** A UUID-like identifier cannot start with a string that leaves the UUID alphabet. */
  lemma UuidPrefix(id: string, p: string, k: nat)
    requires IsUuidLike(id) && k < |p| && !IsUuidChar(p[k])
    ensures !StartsWith(id, p)
  {
  }

  /** With a UUID-like identifier, only the profile tab is highlighted on the profile page. */
  lemma ActiveOnUuidProfile(t: Tab, id: string)
    requires IsUuidLike(id)
    ensures IsActive(t, ProfileUrl(id)) <==> t == ProfileTab
  {
    assert '/' !in id;
    ActiveOnProfile(t, id);
    if t != ProfileTab {
      UuidPrefix(id, Segment(t), NonUuidPosition(t));
    }
  }

  /** The bare site root highlights the home tab only. */
  lemma ActiveOnRoot(t: Tab)
    ensures IsActive(t, Base) <==> t == HomeTab
  {
    PatternShape(t);
    NotInRoot(Pattern(t));
    if Contains(Base, Pattern(t)) {
      ContainsAppend(Base, "/#", Pattern(t));
    }
  }

  /** Suffix "/#/" never ends a route URL whose route has no slash. */
  lemma RouteNotLanding(seg: string)
    requires '/' !in seg && seg != ""
    ensures !IsLandingPage(RouteUrl(seg))
  {
    if EndsWith(RouteUrl(seg), "/#/") {
      EndsWithLast(RouteUrl(seg), "/#/");
    }
    assert |RouteUrl(seg)| > |Base + "/"|;
  }

  /** On a single-segment route URL (a non-empty route with no slash after the hash), the tab bar is shown unless the route is an authentication route. */
  lemma TabBarOnRoute(seg: string)
    requires '/' !in seg && seg != ""
    ensures ShouldShowTabBar(RouteUrl(seg)) <==>
      !StartsWith(seg, "login") && !StartsWith(seg, "register") && !StartsWith(seg, "forgot-password")
  {
    RouteNotLanding(seg);
    RouteContains(seg, "/login");
    RouteContains(seg, "/register");
    RouteContains(seg, "/forgot-password");
  }

  /** The tab bar is shown on every tab destination and hidden on the login page. */
  lemma TabBarOnTable(t: Tab)
    ensures ShouldShowTabBar(Target(t))
    ensures !ShouldShowTabBar(Login)
  {
    TableLayout();
    TabBarOnRoute("login");
    if t == ProfileTab {
      ProfileTabBar("");
      assert Profile == ProfileUrl("");
    } else {
      assert Target(t) == RouteUrl(Segment(t));
      TabBarOnRoute(Segment(t));
      var seg := Segment(t);
      assert seg[0] in "hdcm";
      FirstCharDiffers(seg, "login");
      FirstCharDiffers(seg, "register");
      FirstCharDiffers(seg, "forgot-password");
    }
  }

  /** On a profile URL whose identifier has no slash, the tab bar is shown unless the identifier begins like an authentication route. */
  lemma ProfileTabBar(id: string)
    requires '/' !in id
    ensures ShouldShowTabBar(ProfileUrl(id)) <==>
      !StartsWith(id, "login") && !StartsWith(id, "register") && !StartsWith(id, "forgot-password")
  {
    ProfileContains(id, "/login");
    ProfileContains(id, "/register");
    ProfileContains(id, "/forgot-password");
    TableLayout();
    var url := ProfileUrl(id);
    if EndsWith(url, "/#/") {
      EndsWithLast(url, "/#/");
      if id == "" {
        EndsWithSlash(RouteUrl("profile"), "/#");
        EndsWithLast(RouteUrl("profile"), "/#");
      }
    }
    assert |url| > |Base + "/"|;
  }

  /** The landing pages and every URL ending in the bare hash route hide the tab bar. */
  lemma LandingHidesTabBar(url: string)
    ensures EndsWith(url, "/#/") ==> !ShouldShowTabBar(url)
    ensures !ShouldShowTabBar(Base) && !ShouldShowTabBar(Base + "/") && !ShouldShowTabBar(Base + "/#/")
  {
  }
}
