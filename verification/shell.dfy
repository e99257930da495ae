/**
  The host-side navigation state of the shell: the URL shown in the
  embedded browser, the user identifier reported by the page, and the
  back/loading/error flags. Each browser callback, tab press and message
  is one atomic update of an immutable state record. There is no load
  identity: a load-end or load-error callback acts on the flags whichever
  navigation it belongs to.
 */
module Shell {
  import opened Options
  import opened Text
  import opened Routes

  datatype State = State(
    currentUrl: string,
    profileId: Option<string>,
    canGoBack: bool,
    isLoading: bool,
    hasError: bool)

  /** The state at mount: the home page, loading, no identifier yet. */
  const Initial: State := State(Home, None, false, true, false)

  /**
    A message from the page, as JSON parsing leaves it. `Malformed` covers
    input that does not parse and a parsed `null` (reading a field of it
    throws); otherwise `kind` and `payload` are the `type` and `payload`
    fields when they are strings, and `None` when absent or of another type.
   */
  datatype Message = Malformed | Parsed(kind: Option<string>, payload: Option<string>)

  /** JavaScript truthiness of a nullable string: present and non-empty. */
  predicate Truthy(v: Option<string>) {
    v.Some? && v.value != ""
  }

  /** The message that records a user identifier. */
  predicate IsUserId(m: Message) {
    m.Parsed? && m.kind == Some("USER_ID") && Truthy(m.payload)
  }

  /** What the embedded browser is asked to do besides loading `currentUrl`. */
  datatype Command = NoCommand | ReloadPage | GoBack

  // --- Navigation ---

  /**
    The URL a tab press loads: the profile entry is resolved to the
    user's own profile once an identifier is known; any other target is
    loaded as given.
   */
  function ResolveTarget(profileId: Option<string>, url: string): (r: string)
    ensures url != Profile ==> r == url
    ensures url == Profile ==> StartsWith(r, Profile)
    ensures url == Profile && Truthy(profileId) ==> r[|Profile|..] == profileId.value
    ensures url == Profile && !Truthy(profileId) ==> r == Profile
  {
    if url == Profile then
      if Truthy(profileId) then Base + "/#/profile/" + profileId.value
      else Base + "/#/profile/"
    else url
  }

  function NavigateTo(s: State, url: string): (r: State)
    ensures r.currentUrl == ResolveTarget(s.profileId, url)
    ensures !r.hasError
    ensures r.profileId == s.profileId && r.canGoBack == s.canGoBack && r.isLoading == s.isLoading
  {
    s.(currentUrl := ResolveTarget(s.profileId, url), hasError := false)
  }

  // --- Browser callbacks ---

  function OnLoadStart(s: State): (r: State)
    ensures r.isLoading && !r.hasError
    ensures r.currentUrl == s.currentUrl && r.profileId == s.profileId && r.canGoBack == s.canGoBack
  {
    s.(isLoading := true, hasError := false)
  }

  function OnLoadEnd(s: State): (r: State)
    ensures !r.isLoading && r.hasError == s.hasError
    ensures r.currentUrl == s.currentUrl && r.profileId == s.profileId && r.canGoBack == s.canGoBack
  {
    s.(isLoading := false)
  }

  function OnError(s: State): (r: State)
    ensures !r.isLoading && r.hasError
    ensures r.currentUrl == s.currentUrl && r.profileId == s.profileId && r.canGoBack == s.canGoBack
  {
    s.(isLoading := false, hasError := true)
  }

  /**
    The browser reports its URL and back-history flag. The URL is adopted
    only when non-empty and different from the current one, so after the
    callback the current URL is the reported one unless that was empty.
   */
  function OnNavigationStateChange(s: State, url: string, canGoBack: bool): (r: State)
    ensures r.canGoBack == canGoBack
    ensures url != "" ==> r.currentUrl == url
    ensures url == "" ==> r.currentUrl == s.currentUrl
    ensures r.profileId == s.profileId && r.isLoading == s.isLoading && r.hasError == s.hasError
  {
    var s' := s.(canGoBack := canGoBack);
    if url != "" && url != s.currentUrl then s'.(currentUrl := url) else s'
  }

  // --- Host handlers ---

  /** Only a USER_ID message with a non-empty payload changes anything: it records the identifier. */
  function HandleMessage(s: State, m: Message): (r: State)
    ensures IsUserId(m) ==> r == s.(profileId := m.payload)
    ensures !IsUserId(m) ==> r == s
  {
    match m
    case Malformed => s
    case Parsed(kind, payload) =>
      if kind == Some("USER_ID") && Truthy(payload) then s.(profileId := payload) else s
  }

  /**
    The retry button: with the browser mounted it clears the error and
    reloads the current URL; before mount it does nothing.
   */
  function HandleReload(s: State, mounted: bool): (r: (State, Command))
    ensures mounted ==> r.0 == s.(hasError := false) && r.1 == ReloadPage
    ensures !mounted ==> r.0 == s && r.1 == NoCommand
  {
    if mounted then (s.(hasError := false), ReloadPage) else (s, NoCommand)
  }

  /**
    The hardware back button: handled, by going back in the browser,
    exactly when the browser is mounted and has back history.
   */
  function OnBackPress(s: State, mounted: bool): (r: (bool, Command))
    ensures r.0 <==> s.canGoBack && mounted
    ensures r.1 == (if r.0 then GoBack else NoCommand)
  {
    if s.canGoBack && mounted then (true, GoBack) else (false, NoCommand)
  }

  // --- Event sequences ---

  /** Everything that reaches the shell; tab presses carry the tab, as the tab bar is the only caller of navigation. */
  datatype Event =
    | TabPress(tab: Tab)
    | LoadStart
    | LoadEnd
    | LoadError
    | NavigationStateChange(url: string, canGoBack: bool)
    | PageMessage(message: Message)
    | RetryPress(mounted: bool)
    | BackPress(mounted: bool)

  function Step(s: State, e: Event): State {
    match e
    case TabPress(t) => NavigateTo(s, Target(t))
    case LoadStart => OnLoadStart(s)
    case LoadEnd => OnLoadEnd(s)
    case LoadError => OnError(s)
    case NavigationStateChange(url, b) => OnNavigationStateChange(s, url, b)
    case PageMessage(m) => HandleMessage(s, m)
    case RetryPress(mounted) => HandleReload(s, mounted).0
    case BackPress(mounted) => s
  }

  function Run(s: State, events: seq<Event>): State
    decreases |events|
  {
    if events == [] then s else Run(Step(s, events[0]), events[1..])
  }

  /**
    Reference definition of the identifier after a sequence of events:
    the payload of the last USER_ID message, or the starting one if none.
   */
  function LastUserId(start: Option<string>, events: seq<Event>): Option<string>
    decreases |events|
  {
    if events == [] then start
    else
      var e := events[|events| - 1];
      if e.PageMessage? && IsUserId(e.message) then e.message.payload
      else LastUserId(start, events[..|events| - 1])
  }

  // --- Properties ---

  /** The fallback profile URL is the profile table entry; with an identifier it is that entry followed by the identifier. */
  lemma ProfileResolution(s: State)
    ensures !Truthy(s.profileId) ==> NavigateTo(s, Profile).currentUrl == Profile
    ensures Truthy(s.profileId) ==> NavigateTo(s, Profile).currentUrl == Profile + s.profileId.value
    ensures Truthy(s.profileId) ==> NavigateTo(s, Profile).currentUrl == ProfileUrl(s.profileId.value)
  {
  }

  /**
    After pressing a tab, that tab and no other is highlighted. For the
    profile tab this needs the identifier to be unknown or UUID-like.
   */
  lemma TabPressHighlightsTab(s: State, t: Tab, u: Tab)
    requires t == ProfileTab && Truthy(s.profileId) ==> IsUuidLike(s.profileId.value)
    ensures IsActive(u, Step(s, TabPress(t)).currentUrl) <==> u == t
  {
    if t == ProfileTab && Truthy(s.profileId) {
      ActiveOnUuidProfile(u, s.profileId.value);
    } else {
      TargetActivatesOnlyItself(t, u);
    }
  }

  /**
    A tab press always leaves the tab bar visible. For the profile tab this
    needs the identifier to be unknown or UUID-like, so that it cannot
    begin like an authentication route.
   */
  lemma TabPressShowsTabBar(s: State, t: Tab)
    requires t == ProfileTab && Truthy(s.profileId) ==> IsUuidLike(s.profileId.value)
    ensures ShouldShowTabBar(Step(s, TabPress(t)).currentUrl)
  {
    if t == ProfileTab && Truthy(s.profileId) {
      var id := s.profileId.value;
      assert Step(s, TabPress(t)).currentUrl == ProfileUrl(id);
      assert '/' !in id;
      ProfileTabBar(id);
      UuidPrefix(id, "login", 0);
      UuidPrefix(id, "register", 0);
      UuidPrefix(id, "forgot-password", 1);
    } else {
      TabBarOnTable(t);
    }
  }

  /** A load that starts and ends leaves neither spinner nor error; one that fails shows the error. */
  lemma LoadCycle(s: State)
    ensures var r := Run(s, [LoadStart, LoadEnd]); !r.isLoading && !r.hasError
    ensures var r := Run(s, [LoadStart, LoadError]); !r.isLoading && r.hasError
    ensures var r := Run(s, [LoadStart, LoadError, RetryPress(true)]);
      !r.isLoading && !r.hasError && r.currentUrl == s.currentUrl
  {
  }

  /**
    Without load identity, the end of an earlier load clears the spinner
    of a later one: after a second tab press and its load start, a single
    load-end leaves the shell not loading while showing the second page.
   */
  lemma StaleLoadEndClearsNewerLoad(s: State, first: Tab, second: Tab)
    ensures var r := Run(s, [TabPress(first), LoadStart, TabPress(second), LoadStart, LoadEnd]);
      !r.isLoading && !r.hasError && r.currentUrl == ResolveTarget(s.profileId, Target(second))
  {
    var s1 := Step(s, TabPress(first));
    var s2 := Step(s1, LoadStart);
    var s3 := Step(s2, TabPress(second));
    var s4 := Step(s3, LoadStart);
    RunCons(s, TabPress(first), [LoadStart, TabPress(second), LoadStart, LoadEnd]);
    RunCons(s1, LoadStart, [TabPress(second), LoadStart, LoadEnd]);
    RunCons(s2, TabPress(second), [LoadStart, LoadEnd]);
    RunCons(s3, LoadStart, [LoadEnd]);
    RunCons(s4, LoadEnd, []);
  }

  /** Reporting the URL already shown changes only the back flag, so repeating a report is idempotent. */
  lemma NavigationStateIdempotent(s: State, url: string, b: bool)
    ensures url == s.currentUrl ==> OnNavigationStateChange(s, url, b) == s.(canGoBack := b)
    ensures var r := OnNavigationStateChange(s, url, b); OnNavigationStateChange(r, url, b) == r
  {
  }

  /**
    The back button follows the browser's last report: after a navigation
    report, a press is handled exactly when that report said the browser
    can go back and the browser is mounted; a press itself changes no state.
   */
  lemma BackPressFollowsReport(s: State, url: string, b: bool, mounted: bool)
    ensures var r := Step(s, NavigationStateChange(url, b));
      OnBackPress(r, mounted) == (if b && mounted then (true, GoBack) else (false, NoCommand))
    ensures Step(s, BackPress(mounted)) == s
  {
  }

  /** A USER_ID message followed by the profile tab opens that user's profile. */
  lemma MessageThenProfile(s: State, id: string)
    requires id != ""
    ensures Run(s, [PageMessage(Parsed(Some("USER_ID"), Some(id))), TabPress(ProfileTab)]).currentUrl == ProfileUrl(id)
  {
    var m := PageMessage(Parsed(Some("USER_ID"), Some(id)));
    RunCons(s, m, [TabPress(ProfileTab)]);
    RunCons(Step(s, m), TabPress(ProfileTab), []);
  }

  lemma RunCons(s: State, e: Event, rest: seq<Event>)
    ensures Run(s, [e] + rest) == Run(Step(s, e), rest)
  {
    assert ([e] + rest)[1..] == rest;
  }

  lemma {:induction false} RunAppend(s: State, events: seq<Event>, e: Event)
    ensures Run(s, events + [e]) == Step(Run(s, events), e)
    decreases |events|
  {
    if events == [] {
      assert [] + [e] == [e];
    } else {
      assert (events + [e])[1..] == events[1..] + [e];
      RunAppend(Step(s, events[0]), events[1..], e);
    }
  }

  /** The identifier after any sequence of events is the payload of the last USER_ID message, or the starting one. */
  lemma {:induction false} ProfileIdIsLastUserId(s: State, events: seq<Event>)
    ensures Run(s, events).profileId == LastUserId(s.profileId, events)
    decreases |events|
  {
    if events != [] {
      var init := events[..|events| - 1];
      var e := events[|events| - 1];
      assert events == init + [e];
      RunAppend(s, init, e);
      StepProfileId(Run(s, init), e);
      ProfileIdIsLastUserId(s, init);
    }
  }

  /** Only a USER_ID message moves the identifier, and it moves it to the payload. */
  lemma StepProfileId(s: State, e: Event)
    ensures Step(s, e).profileId == if e.PageMessage? && IsUserId(e.message) then e.message.payload else s.profileId
  {
  }

  /** Once known, the identifier is never cleared, and it is never the empty string. */
  lemma {:induction false} ProfileIdNeverCleared(s: State, events: seq<Event>)
    requires s.profileId.Some? ==> Truthy(s.profileId)
    ensures s.profileId.Some? ==> Truthy(Run(s, events).profileId)
    ensures Run(s, events).profileId.Some? ==> Truthy(Run(s, events).profileId)
    decreases |events|
  {
    if events != [] {
      ProfileIdNeverCleared(Step(s, events[0]), events[1..]);
    }
  }

  /**
    The shell always shows some URL, a recorded identifier is non-empty,
    and the spinner and the error screen are never both up.
   */
  ghost predicate Invariant(s: State) {
    && s.currentUrl != ""
    && (s.profileId.Some? ==> Truthy(s.profileId))
    && !(s.isLoading && s.hasError)
  }

  /** Every state reached from mount satisfies the invariant. */
  lemma {:induction false} ReachableInvariant(s: State, events: seq<Event>)
    requires Invariant(s)
    ensures Invariant(Run(s, events))
    decreases |events|
  {
    if events != [] {
      var e := events[0];
      if e.TabPress? {
        assert |Target(e.tab)| > 0;
      }
      ReachableInvariant(Step(s, e), events[1..]);
    }
  }

  /** The shell mounts on the home page, loading, with no back history, error or identifier. */
  lemma InitialState()
    ensures Invariant(Initial)
    ensures Initial.isLoading && !Initial.hasError && !Initial.canGoBack && Initial.profileId == None
    ensures IsActive(HomeTab, Initial.currentUrl) && ShouldShowTabBar(Initial.currentUrl)
  {
    TargetActivatesOnlyItself(HomeTab, HomeTab);
    TabBarOnTable(HomeTab);
  }
}
