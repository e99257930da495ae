# AvukatAgi mobile shell — verified model

This project models the logic in the shell's `App.tsx`. The shell is a native app that shows the AvukatAgi web application in an embedded browser (a WebView). On top of the browser it draws a five-control tab bar. It also injects a small script into every page it loads. The model has five modules:

- `Text` (`text.dfy`) defines JavaScript's `startsWith`, `endsWith` and `includes` on strings. Its central lemma, `Text.ContainsSplitAtSlash`, lets the verifier prove substring tests on slash-separated URLs: an occurrence of a pattern like `"/home"` in `p + "/" + seg` either lies inside `p` or starts at the joining slash.
- `Routes` (`routes.dfy`) holds the route table (`URLs`) and the tabs. It also holds the view predicates the shell derives from the current URL alone: `Routes.IsActive` for each tab (the `isActive` expressions at App.tsx:314-343), and `Routes.IsAuthPage`, `Routes.IsLandingPage` and `Routes.ShouldShowTabBar` (App.tsx:238-242).
- `Shell` (`shell.dfy`) is the host-side state record `{currentUrl, profileId, canGoBack, isLoading, hasError}` and its initial state. Each event handler is one pure transition: `navigateTo`, the WebView callbacks `onLoadStart`, `onLoadEnd`, `onError` and `onNavigationStateChange`, `handleMessage`, `handleReload` and the hardware back handler. `Shell.Step` dispatches one event to its handler, following the wiring at App.tsx:154 (back button), 208 and 221 (tab presses), 257 (messages), 263-279 (WebView callbacks) and 298 (retry button); `Shell.Run` applies event sequences. `Run` accepts any sequence of events, so it ranges over a superset of what the interface can produce. The source offers a tab press only while the tab bar is shown (App.tsx:308) and the retry button only while the error overlay is shown (App.tsx:293). The lemmas about all event sequences therefore also hold for every sequence the interface can produce. As in the source, there is no per-navigation load token. A stale `onLoadEnd` clears the spinner of a newer load.
- `Options` (`options.dfy`) holds the optional-value type.
- `Adapter` (`adapter.dfy`) holds the two helpers of the injected page script. The first is the timer tick that scans local-storage entries for a `sb-…-auth-token` session (`Adapter.IsSessionKey`, the key test at App.tsx:114) and posts its `user.id` as a `USER_ID` message. The second is the patch that the mutation watcher applies to an added node to dock a right-hand sidebar on the left. `Adapter.IsSidebar` is the element and sidebar test at App.tsx:76-83, and `Adapter.SlidesRight` the transform test at App.tsx:89-91.

Each handler is modelled as one atomic update of the current state. React batches the setters of one handler, and every handler reads the state of the latest render. Where the source checks that the WebView reference is set (`webViewRef.current`), the model takes a `mounted` flag.

## Model

| member | source | states |
|---|---|---|
| `Routes.TableLayout` | App.tsx:18-26 | Every table entry is the site root followed by `/#/` and a route name; the profile entry is that route followed by a slash |
| `Routes.TargetActivatesOnlyItself` | App.tsx:310-344 | On each tab's own destination URL, that tab's highlight test holds and every other tab's fails |
| `Routes.ActiveOnProfile` | App.tsx:314-343 | On `profile/` + id with no slash in id, a tab's highlight test holds iff it is the profile tab or id begins with that tab's route name |
| `Routes.ProfileIdCanLightHomeTab` | App.tsx:314-343 | The id `home` highlights both the home and the profile tab, because the test is a substring test |
| `Routes.ActiveOnUuidProfile` | App.tsx:314-343 | With an id in the lowercase UUID alphabet, only the profile tab's highlight test holds on the profile page |
| `Routes.ActiveOnRoot` | App.tsx:314-315 | On the bare site root only the home tab's highlight test holds |
| `Routes.ActiveOnRoute` | App.tsx:314-343 | On a single-segment route URL (a route with no slash after `#/`), a tab's highlight test holds iff its route name is a prefix of the route |
| `Routes.TabBarOnRoute` | App.tsx:238-242 | On a single-segment route URL (a non-empty route with no slash after `#/`), the tab bar shows iff the route starts with none of `login`, `register`, `forgot-password` |
| `Routes.TabBarOnTable` | App.tsx:238-242 | The tab bar shows on all five tab destinations and is hidden on the login page |
| `Routes.ProfileTabBar` | App.tsx:238-242 | On a profile URL whose id has no slash, the tab bar shows iff the id starts like no authentication route, including the empty id |
| `Routes.LandingHidesTabBar` | App.tsx:239-242 | The site root, the root with a slash, the root hash route and every URL ending in `/#/` hide the tab bar |
| `Shell.ResolveTarget` | App.tsx:159-170 | A non-profile target is loaded verbatim; the profile target resolves to the profile entry, followed by the id when a non-empty id is known |
| `Shell.NavigateTo` | App.tsx:159-172 | The URL becomes the resolved target and the error is cleared; back flag, spinner and id are unchanged |
| `Shell.OnLoadStart` | App.tsx:263-266 | The spinner is set and the error cleared; nothing else changes |
| `Shell.OnLoadEnd` | App.tsx:267 | The spinner is cleared and the error flag is left as it was |
| `Shell.OnError` | App.tsx:268-271 | The spinner is cleared and the error is set |
| `Shell.OnNavigationStateChange` | App.tsx:272-279 | The back flag becomes the reported one; afterwards the URL is the reported URL unless that was empty, in which case it is unchanged |
| `Shell.HandleMessage` | App.tsx:174-183 | A USER_ID message with a non-empty payload records the payload as the id; any other message, malformed input included, changes nothing |
| `Shell.HandleReload` | App.tsx:185-190 | When mounted, the error is cleared and the browser reloads the unchanged URL; otherwise nothing happens |
| `Shell.OnBackPress` | App.tsx:146-152 | The press is handled, by going back, iff the browser is mounted and can go back |
| `Shell.ProfileResolution` | App.tsx:161-167 | Without an id the profile target is exactly the table's profile URL; with id I it is that URL followed by I |
| `Shell.TabPressHighlightsTab` | App.tsx:159-172 | After pressing a tab exactly that tab's highlight test holds, when the known id, if any, is UUID-like |
| `Shell.TabPressShowsTabBar` | App.tsx:238-242 | After any tab press the tab bar is visible; for the profile tab this needs the known id, if any, to be UUID-like |
| `Shell.LoadCycle` | App.tsx:263-271 | Start then end leaves (not loading, no error); start then error leaves (not loading, error); a retry afterwards clears the error on the same URL |
| `Shell.StaleLoadEndClearsNewerLoad` | App.tsx:263-267 | After two tab presses, each followed by a load start, a single load end clears the spinner while the second page is shown |
| `Shell.NavigationStateIdempotent` | App.tsx:272-279 | Reporting the current URL changes only the back flag, and repeating any report is idempotent |
| `Shell.BackPressFollowsReport` | App.tsx:146-152 | After a navigation report, a back press is handled, by going back, iff that report allowed going back and the browser is mounted; the press changes no state |
| `Shell.MessageThenProfile` | App.tsx:161-163 | A USER_ID message with id I followed by the profile tab opens the profile URL of I |
| `Shell.StepProfileId` | App.tsx:174-183 | An event changes the id only when it is a USER_ID message with a non-empty payload, and then the id becomes that payload |
| `Shell.ProfileIdIsLastUserId` | App.tsx:174-183 | After any event sequence the id is the payload of the last USER_ID message in it, or the starting id |
| `Shell.ProfileIdNeverCleared` | App.tsx:136 | Once an id is known, no event sequence clears it, and a recorded id is never empty |
| `Shell.ReachableInvariant` | App.tsx:134-190 | Every event sequence keeps the URL non-empty, a recorded id non-empty, and never has both spinner and error showing |
| `Shell.InitialState` | App.tsx:134-140 | The shell mounts on the home page, loading, with no back history, error or id; the home tab's highlight test holds and the tab bar is shown |
| `Adapter.Scan` | App.tsx:112-121 | A found id is non-empty and is the user id of some stored session |
| `Adapter.ScanStorage` | App.tsx:109-126 | The storage loop, with its early break and its abort on a parse failure, returns the outcome of `Scan` |
| `Adapter.ScanSkipsPrefix` | App.tsx:112-121 | Slots that are not session keys, or hold sessions without an id, can be dropped from the front without changing the outcome |
| `Adapter.ScanFoundIff` | App.tsx:112-121 | The tick finds id iff id is non-empty and the first slot that is not skipped is a session key whose session has that user id |
| `Adapter.ScanAbortedIff` | App.tsx:112-125 | The tick is abandoned iff the first slot that is not skipped is a session key whose value fails to parse |
| `Adapter.ScanNotFoundIff` | App.tsx:112-122 | The tick finds nothing iff every slot is skipped |
| `Adapter.SessionKeyShape` | App.tsx:114 | `sb-auth-token` qualifies; every session key has at least 13 characters, and the only one with exactly 13 is `sb-auth-token` |
| `Adapter.Tick` | App.tsx:122-124 | A tick posts a message iff the scan found an id, and then the message is a USER_ID message carrying that id |
| `Adapter.TickUpdatesHost` | App.tsx:122-124 | Delivering a finding tick's message records exactly the found id and changes nothing else; a tick posts nothing iff its scan found nothing or was abandoned |
| `Adapter.RepeatedMessageIdempotent` | App.tsx:174-183 | Handling the same message twice equals handling it once, so repeated ticks are harmless |
| `Adapter.PatchNode` | App.tsx:76-99 | A non-sidebar node is unchanged. A sidebar is docked with right `auto`, left `0px` and the marker attribute. Its transform flips to `translateX(-100%)` iff it slides right, and class list and markup are kept |
| `Adapter.PatchIdempotent` | App.tsx:76-99 | Patching keeps a node's sidebar status, and patching twice equals patching once |
| `Adapter.PatchKeepsSliding` | App.tsx:88-92 | A patched node slides exactly when the original did, because the left-hidden transform itself contains `100%` |
| `Adapter.PatchMarksSidebars` | App.tsx:98 | After the patch a node carries `data-hacked-sidebar="true"` iff it is a sidebar or already carried it |
| `Adapter.PatchWithoutTransform` | App.tsx:88-95 | A sidebar without a sliding class or `100%` transform is only repositioned and marked |

## Notes on the source

- The tab highlight is a substring test, so it is looser than "the URL is this tab's route". `Routes.ActiveOnProfile` states the exact condition on profile pages whose id has no slash: such a profile id that begins with another tab's route name highlights that tab too. `Routes.ProfileIdCanLightHomeTab` shows this for the id `home`. The model keeps the substring test, as the source does. On a profile page whose id has no slash, the profile tab's test is the only one that holds exactly when the id starts with none of the other route names (`Routes.ActiveOnProfile`); every id in the UUID alphabet qualifies (`Routes.ActiveOnUuidProfile`).
- The create button computes its highlight test (App.tsx:328) but never shows it. The floating control returns early with a fixed icon colour (App.tsx:204-216), and only the standard tab branch (App.tsx:225-232) reads `isActive`. So the model's `Routes.IsActive` is the highlight test each control is given, and for the create button nothing on screen reflects it.
- The page script posts the identifier on every timer tick while the session is stored, not once per discovery. The host tolerates this because handling the same message twice is the same as handling it once (`Adapter.RepeatedMessageIdempotent`).
- `handleMessage` and `navigateTo` test JavaScript truthiness, so an empty-string payload or id counts as absent. The model does the same (`Shell.Truthy`).
- Nothing in the shell ties a load callback to the navigation that started it. The model keeps that: `Shell.StaleLoadEndClearsNewerLoad`.

## Left out

- Rendering: the JSX markup, icons, colours, the status bar and the loading and error overlays (App.tsx:192-236, 243-258, 280-309, and the JSX around the highlight tests in 310-349). These are presentation, not state logic. The expressions inside that markup that decide state (the WebView callbacks, the view predicates and the highlight tests) are modelled.
- The `useEffect` subscription and removal of the back listener (App.tsx:154-155) is lifecycle. The handler it registers is modelled as `Shell.OnBackPress`.
- The injected stylesheet, including the `zoom: 0.85` scale, and the body marker class (App.tsx:33-69). They have no computable behaviour.
- `JSON.parse` and `JSON.stringify` are abstracted to their results. `Shell.Message` is the parsed message and `Adapter.Stored` is the parsed session. The tick's stringify followed by the host's parse is taken to give back the same type and payload.
- Shell.HandleMessage: models only string payloads. A truthy non-string payload (a number or an object) would be stored by the source as the id and then stringified into the profile URL; the page script only ever sends the stored `user.id`.
- Adapter.Scan: models only string user ids. A truthy non-string `user.id` would be posted by the source as is.
- `localStorage` access failures, a `null` key returned by `localStorage.key`, the `setInterval` timing and the `postMessage` transport are foreign runtime calls, so they are not modelled.
- The `MutationObserver` dispatch (App.tsx:73-75, 106) is a runtime callback. The model patches one added node, `Adapter.PatchNode`. As in the source, the descendants of an added node are not examined.
- The loading the WebView performs when `currentUrl` changes is not modelled. The model keeps only the state that the load callbacks report.
- The platform user-agent strings (App.tsx:259-262) are configuration.
- `scripts/test-connection.ts` is a one-shot network probe with console I/O. It is not part of this model.
