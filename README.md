# wct-local in Dafny

A model of the local-browser side of wct-local, the web-component-tester
plugin that runs tests against the browsers installed on the current machine
through a local Selenium server. It covers:

- the browser registry of `lib/browsers.ts`: the table from launchpad browser
  names to capability builders, the four builders, `normalize`, `supported`,
  `detect` and `expand`;
- the plugin of `lib/plugin.ts`: name preparation in `configure`, appending the
  expanded capabilities to the run's active browsers, the start variant
  `prepare` chooses, and `updatePort`;
- the Selenium side of `lib/selenium.ts`: the Java environment check and its
  remediation text, and the start sequence (server arguments, the output log
  buffer, install before start, replaying the log at info level on failure,
  reporting the port);
- `requireSelenium` and the NOSELENIUM gate of `scripts/postinstall.js`.

Collaborators are parameters: the launchpad enumeration is a
`Result<seq<LaunchpadBrowser>, string>`, the platform's browser keys a
`seq<string>`, `which` answers are `HostFacts`, `freeport` a `Result<nat,
string>`, selenium-standalone's install and start each a `StepOutcome` (the
output chunks they produce and the error they call back with), and
`require('selenium-standalone')` a function `loads: nat -> bool` from attempt
number to success. lodash's `_.difference` and `_.intersection` and
JavaScript's `join`, `split` and `toString` are written out in `lists.dfy`.

Files: `wrappers.dfy` (Option, Result), `lists.dfy` (module `Lists`),
`browsers.dfy` (module `Browsers`), `selenium.dfy` (module `Selenium`),
`plugin.dfy` (module `Plugin`), `postinstall.dfy` (module `Postinstall`).

Notes on what the code does:

- `supported()` is not sorted: it lists the platform's keys that have a
  builder, in the platform's key order, each once (lodash intersection).
- Safari and Internet Explorer capabilities carry the raw version string,
  which may be empty; only Chrome and Firefox refuse a version without digits.
- `configure` calls the callback-style `expand` without a callback and awaits
  its `undefined` return (lib/plugin.ts:55). As written it never appends an
  expanded browser; see "## Findings". `Plugin.Plugin.Configure` models the
  evidently intended behaviour, and `Plugin.ConfigureAsWritten` the code.
- There is no "already running" guard, no timeout and no port-uniqueness
  check in the code, so none is modelled.
- With an empty request (or `"all"`), `expand` returns every installed browser
  that has a builder, whether or not the platform's keys list it; the
  "supported and installed" guarantee holds for explicit requests
  (`ExpandSuccess`).

## Model

| member | source | states |
|---|---|---|
| `Lists.Difference` | lib/browsers.ts:51 | lodash difference: exactly the elements of `a` not in `b`, each with its multiplicity in `a`, in the order of `a`; empty iff every element of `a` is in `b` |
| `Lists.Intersection` | lib/browsers.ts:107-109 | lodash intersection: exactly the elements that are in both lists |
| `Lists.IntersectionOrdered` | lib/browsers.ts:107-109 | the intersection holds each element once, ordered by first occurrence in the first list |
| `Lists.AppendLater` | lib/browsers.ts:107-109 | appending an element first seen after every listed one keeps the first-occurrence order |
| `Lists.OrderedInPrefix` | lib/browsers.ts:107-109 | order by first occurrence in a prefix is order by first occurrence in the whole list |
| `Lists.LastIndex` | lib/browsers.ts:94 | the position of the last occurrence: it holds the element and no later position does |
| `Lists.FirstIndexOfPrefix` | lib/browsers.ts:107-109 | the first occurrence of an element in a list is the one in any prefix containing it |
| `Lists.Split` | lib/plugin.ts:41 | `split(',')` yields at least one piece and no piece holds the separator |
| `Lists.JoinSplit` | lib/plugin.ts:41 | joining the pieces with the separator gives back the split string |
| `Lists.SplitAround` | lib/plugin.ts:41 | splitting `a + ',' + b` gives the pieces of `a` followed by those of `b` |
| `Lists.SplitJoin` | lib/plugin.ts:41 | `join(',')` then `split(',')` of a non-empty list gives every comma-separated piece of every element, in order |
| `Lists.SplitWithoutSeparator` | lib/plugin.ts:41 | a string without commas splits into itself alone |
| `Lists.SplitEachWithoutSeparator` | lib/plugin.ts:41 | splitting each comma-free element gives the list back |
| `Lists.SplitJoinRoundTrip` | lib/plugin.ts:41 | comma-free names survive the join and split unchanged |
| `Lists.NatToString` | lib/selenium.ts:73 | `port.toString()` is a non-empty string of digits without leading zero whose decimal value is the port |
| `Browsers.ConverterFor` | lib/browsers.ts:14-22 | a name has a builder exactly when it is one of chrome, canary, firefox, aurora, ie, safari |
| `Browsers.DigitPrefix` | lib/browsers.ts:121 | the longest prefix of digits: a prefix, all digits, followed by a non-digit or the end |
| `Browsers.FirstDigitIndex` | lib/browsers.ts:121 | the position of the first digit, every character before it not a digit |
| `Browsers.FirstDigitRun` | lib/browsers.ts:121 | `match(/\d+/)` finds nothing exactly when there is no digit, and otherwise a non-empty maximal digit run with no digit before it |
| `Browsers.FirstDigitRunUnique` | lib/browsers.ts:121 | that description admits one run only, so it determines the match |
| `Browsers.ChromeCapability` | lib/browsers.ts:118-127 | chrome/canary: fails exactly when the version has no digit; otherwise browserName "chrome", the first digit run as version, the binary path and `start-maximized` |
| `Browsers.FirefoxCapability` | lib/browsers.ts:133-140 | firefox/aurora: fails exactly when the version has no digit; otherwise browserName "firefox", the first digit run, the binary path and marionette |
| `Browsers.SafariCapability` | lib/browsers.ts:146-156 | browserName "safari", the raw version, skip extension installation |
| `Browsers.InternetExplorerCapability` | lib/browsers.ts:162-167 | browserName "internet explorer", the raw version, no vendor options |
| `Browsers.Build` | lib/browsers.ts:93-94 | a builder fails exactly for Chrome or Firefox on a version without digits |
| `Browsers.ChromeMajorVersion` | lib/browsers.ts:121 | Chrome "51.0.2704.103" gets version "51" |
| `Browsers.Normalize` | lib/browsers.ts:28-35 | same length and order; a plain name passes through, an object gives its `browserName`; a missing list gives no names |
| `Browsers.Supported` | lib/browsers.ts:106-110 | exactly the platform keys that have a builder, each once, in platform order |
| `Browsers.ValidationMessagesDiffer` | lib/browsers.ts:53-72 | the unsupported-browser and not-found messages `expand` hands to `done` never coincide, whatever the names |
| `Browsers.Detected` | lib/browsers.ts:90-95 | the detected dictionary's key list has no duplicates, matches its entries, and holds only names with a builder |
| `Browsers.DetectedStep` | lib/browsers.ts:91-94 | one loop step: a browser without a builder changes nothing, one with a builder sets its name's entry to the built capability |
| `Browsers.NamesOfPrefix` | lib/browsers.ts:91-94 | dropping the last browser drops the last name, and other names keep their last position |
| `Browsers.DetectedFailsIff` | lib/browsers.ts:91-95 | detection fails exactly when an enumerated browser with a builder has a version its builder cannot read |
| `Browsers.DetectedKeys` | lib/browsers.ts:90-95 | the installed keys are the enumerated names that have a builder, once each, in first-enumeration order |
| `Browsers.DetectedEntries` | lib/browsers.ts:91-94 | each installed entry is built from the last enumerated browser of that name |
| `Browsers.DetectedStopsAtError` | lib/browsers.ts:94 | a failure on a prefix of the enumeration is the failure of the whole detection |
| `Browsers.DetectResult` | lib/browsers.ts:85-88 | an enumeration error is passed on as the detection error; a result is a well-formed dictionary |
| `Browsers.Detect` | lib/browsers.ts:84-100 | the filling loop computes exactly the reference detection result |
| `Browsers.Expand` | lib/browsers.ts:46-77 | on success detection succeeded and every returned capability is an installed one |
| `Browsers.ExpandAllIsEmpty` | lib/browsers.ts:47-49 | `"all"` anywhere in the request behaves exactly like the empty request |
| `Browsers.ExpandUnsupported` | lib/browsers.ts:51-57 | unsupported names fail with exactly those names (request order, repeats kept) and the supported list, whatever detection would report |
| `Browsers.ExpandDefault` | lib/browsers.ts:61-65 | the empty request yields every installed capability in detection-key order |
| `Browsers.ExpandNotFound` | lib/browsers.ts:67-73 | supported but uninstalled names fail with exactly the missing names and the installed list |
| `Browsers.ExpandSuccess` | lib/browsers.ts:75 | an explicit request of supported, installed names succeeds and yields, position by position, the installed capability of each name, repeats kept |
| `Browsers.ExpandSucceedsIff` | lib/browsers.ts:46-77 | expansion succeeds exactly when nothing requested is unsupported, detection succeeds and nothing requested is missing |
| `Browsers.Requested` | lib/browsers.ts:47-49 | `"all"` anywhere empties the request; a request without it is kept as it is |
| `Selenium.CheckSeleniumEnvironment` | lib/selenium.ts:26-44 | no error exactly when java is found; otherwise the base message, plus the java.com hint exactly on win32, the apt-get hint exactly on linux with apt-get, nothing more otherwise |
| `Selenium.ServerArgs` | lib/selenium.ts:73 | `-port`, then the port's decimal string (digits only, no leading zero, value the port), then the caller's arguments unchanged |
| `Selenium.StartRun` | lib/selenium.ts:58-113 | no collaborator is called exactly when the environment check failed; a success reports the port `freeport` allocated |
| `Selenium.RunOnPort` | lib/selenium.ts:61-113 | succeeds exactly when the install (if run) and the start succeed, then with the allocated port; install, when requested, is the first call |
| `Selenium.AtLevel` | lib/selenium.ts:90 | replaying lines at a level gives one entry per line |
| `Selenium.AtLevelAppend` | lib/selenium.ts:90 | replaying two runs of lines is replaying their concatenation |
| `Selenium.AtLevelAt` | lib/selenium.ts:90 | replaying lines gives one entry per line at the given level, in order |
| `Selenium.EnvErrorStopsStart` | lib/selenium.ts:60 | an environment error is reported unchanged, no port is requested, nothing is logged |
| `Selenium.StartOrdering` | lib/selenium.ts:87-112 | a port is requested first; install runs iff requested, before start; start runs iff install was not requested or succeeded, last, with the composed arguments |
| `Selenium.FailureFlushesLog` | lib/selenium.ts:88-101 | a failed install or start reports that step's error after each chunk was logged at debug on arrival and then replayed at info, in arrival order |
| `Selenium.SuccessReportsPort` | lib/selenium.ts:103-104 | success reports the allocated port, replays nothing, and ends with the running-on-port line |
| `Selenium.OutputCapture.OnOutput` | lib/selenium.ts:66-70 | each chunk adds exactly one log entry and one debug line |
| `Selenium.OutputCapture.Receive` | lib/selenium.ts:82-83 | a step's chunks are appended to the log and logged at debug in arrival order |
| `Selenium.OutputCapture.Flush` | lib/selenium.ts:90 | every buffered line is emitted at info level in order; the buffer is kept |
| `Selenium.SeleniumStart` | lib/selenium.ts:58-115 | result, collaborator calls and emitted lines are those of the reference start sequence |
| `Selenium.RunOnFreePort` | lib/selenium.ts:61-113 | the freeport callback's result, calls and lines are those of the reference sequence after the port |
| `Selenium.InstallStep` | lib/selenium.ts:87-95 | `install()` appends the installer's chunks and logs them at debug; it fails exactly when the installer does, and then replays the log at info |
| `Selenium.StartStep` | lib/selenium.ts:97-106 | `start()` appends the server's chunks; on failure replays the log at info, on success announces the port |
| `Selenium.LaunchServer` | lib/selenium.ts:46-56 | announces the variant, checks the environment and runs the reference start sequence with install as chosen |
| `Selenium.Announcement` | lib/selenium.ts:47-53 | each start variant announces itself at info level |
| `Plugin.ConfigureNames` | lib/plugin.ts:38-47 | the names to expand are comma-free: each comma-separated token of the option is a name of its own, and `all` is the default |
| `Plugin.ConfigureNamesTokens` | lib/plugin.ts:38-42 | given names are split at commas, every token becoming a name, in order |
| `Plugin.ConfigureNamesKept` | lib/plugin.ts:38-42 | names without commas are kept as given |
| `Plugin.ConfigureNamesDefault` | lib/plugin.ts:44-51 | `["all"]` when neither option nor active browsers name anything; nothing to expand exactly when there are no names but other active browsers |
| `Plugin.PrepareChoice` | lib/plugin.ts:69-78 | skip exactly without local capabilities; otherwise start only exactly when skipSeleniumInstall is true, install-and-start by default |
| `Plugin.UpdatePort` | lib/plugin.ts:109-116 | every capability's url becomes 127.0.0.1 with the port; nothing else of it changes |
| `Plugin.NewBrowserDefs` | lib/plugin.ts:58 | one new capability object per expanded capability, in order, without url |
| `Plugin.Plugin.Configure` | lib/plugin.ts:34-63 | options default to `[]` and `false` and keep supplied values; with no names or a failed expansion both lists are unchanged; otherwise the expansion becomes eachCapabilities and is appended to activeBrowsers |
| `Plugin.ConfigureAsWritten` | lib/plugin.ts:49-62 | as written: nothing is ever appended, and the only failure is a `TypeError` |
| `Plugin.PrepareGuard` | lib/plugin.ts:69 | `prepare` returns at once without local capabilities and throws a `TypeError` when `eachCapabilities` is undefined |
| `Plugin.ConfigureAsWrittenDropsExpansion` | lib/plugin.ts:55-62 | as written: where the expansion succeeds, `configure` appends nothing, reports no error and leaves `eachCapabilities` undefined, so `prepare` throws |
| `Plugin.ConfigureAsWrittenUnsupported` | lib/plugin.ts:55 | as written: an unsupported request fails with the missing callback's `TypeError` rather than with `expand`'s unsupported message |
| `Plugin.ConfigureAsWrittenAppendsNothing` | lib/plugin.ts:55-62 | requesting chrome, supported and installed, expands to one capability, yet as written none is appended |
| `Plugin.Plugin.Prepare` | lib/plugin.ts:68-87 | skip, hook error or environment error start nothing; otherwise the chosen variant runs; on success every local capability gets the port, on failure the error is passed on and no url changes |
| `Postinstall.RequireTrace` | scripts/postinstall.js:13-27 | as written: a run is never empty, and hands over the module first exactly when its first attempt loads |
| `Postinstall.RequireSelenium` | scripts/postinstall.js:13-27 | the attempt loop, started at `attempt` or 0, produces exactly the as-written trace |
| `Postinstall.RequireTraceBackoff` | scripts/postinstall.js:19-23 | each retry is for a later attempt, no later than attempt 4, after `2^(k-1)` for attempt `k` |
| `Postinstall.RequireTraceEnds` | scripts/postinstall.js:16-26 | a run ends by handing over the module or by rethrowing |
| `Postinstall.RequireTraceRethrows` | scripts/postinstall.js:16-26 | a run rethrows exactly when every attempt up to attempt 4 failed |
| `Postinstall.RequireTraceAttempts` | scripts/postinstall.js:19 | a run from attempt `k` makes at most `5 - k` require attempts, so at most five from 0 |
| `Postinstall.FailedAttemptFallsThrough` | scripts/postinstall.js:18-26 | a failed attempt that schedules a retry calls `done(undefined)` right after |
| `Postinstall.FallThroughCallsDoneWithUndefined` | scripts/postinstall.js:18-26 | failing once then loading calls `done` twice, first with undefined; the corrected run calls it once |
| `Postinstall.IntendedTrace` | scripts/postinstall.js:13-27 | corrected: a run is never empty, and hands over the module first exactly when its first attempt loads |
| `Postinstall.RequireSeleniumIntended` | scripts/postinstall.js:13-27 | the corrected loop produces exactly the corrected trace |
| `Postinstall.IntendedTraceCorrect` | scripts/postinstall.js:13-27 | corrected: every step but the last is a retry, and the last is `done(module)` or the rethrow, so `done` runs at most once and never with `undefined` |
| `Postinstall.PrependRetry` | scripts/postinstall.js:19-23 | a retry in front of a run of retries keeps that run's last step |
| `Postinstall.IntendedTraceBackoff` | scripts/postinstall.js:19-23 | corrected: the same backoff rule as the original |
| `Postinstall.IntendedTraceRethrows` | scripts/postinstall.js:13-27 | corrected: rethrows exactly when every attempt up to attempt 4 failed |
| `Postinstall.FirstOutcome` | scripts/postinstall.js:61-63 | the script installs exactly when the first `done` after the retries gets the module |
| `Postinstall.PostinstallAsWritten` | scripts/postinstall.js:60-73 | as written: the script skips the install exactly when NOSELENIUM is set to a non-empty value |
| `Postinstall.PostinstallCorrected` | scripts/postinstall.js:60-73 | corrected: the script skips the install exactly when NOSELENIUM is set to a non-empty value |
| `Postinstall.AsWrittenNeedsFirstLoad` | scripts/postinstall.js:60-73 | as written: skipped iff NOSELENIUM is set non-empty; otherwise the install starts iff the very first require works |
| `Postinstall.IntendedOutcome` | scripts/postinstall.js:13-27 | corrected: the install starts iff some attempt within the retry budget loads the module |
| `Postinstall.PostinstallGate` | scripts/postinstall.js:60-73 | with NOSELENIUM set nothing is installed; otherwise the corrected script installs iff one of attempts 0-4 loads the module |

## Findings

| source | as written | input that shows it | evidently intended | confidence | as-written member | corrected member |
|---|---|---|---|---|---|---|
| scripts/postinstall.js:18-26 | after a failed `require` schedules a retry, control falls through to `done(selenium)` with `selenium` undefined; the script's `done` then calls `undefined.install` and the process dies before the retry runs | `require` fails at attempt 0 and succeeds at attempt 1 | return after scheduling the retry, so `done` runs once, with the module | high; not executed | `Postinstall.FallThroughCallsDoneWithUndefined` | `Postinstall.IntendedTraceCorrect` |
| lib/plugin.ts:55 | `await browsers.expand(names)` calls the callback-style `expand` (lib/browsers.ts:46) without `done`; it returns `undefined`, so `eachCapabilities` becomes undefined and nothing is appended to the active browsers, and an unsupported request makes `expand` call the missing callback and throw a `TypeError` | `browsers: ["chrome"]` with chrome supported and installed | await the expansion's result (pass `done`, or promisify `expand`), so the capabilities are appended and `expand`'s error message is reported | high; not executed | `Plugin.ConfigureAsWrittenDropsExpansion` | `Plugin.Plugin.Configure` |

## Left out

- src/playing.ts, the demo script driving real browsers, is not part of this model.
- WCT hook registration (`hookLate`, `hook`, `emitHook`), the `browser-start` listener and `browser.maximize`: event plumbing; the `prepare:selenium` hook's outcome is a parameter of `Prepare`.
- `cleankill.onInterrupt` and killing the server process on interrupt: asynchronous process lifetime, not sequential logic.
- Server output that arrives after selenium-standalone's start callback: the model feeds each step's chunks before its callback.
- `chalk` colouring and the extra arguments of `wct.emit`; log lines are (level, message) pairs, and the `log:debug` line of `configure` listing the expanded browsers is not modelled.
- The `config` object, `console.log`, the driver install's own failure path and `process.exit(1)` in scripts/postinstall.js; timers run no code, only their delays are recorded.
- package.json, the source of SELENIUM_VERSION, is not part of this model; `Install` carries no version.
- Object identity among duplicates: the source gives a repeated name the same capability object, the model a separate object with equal contents; `updatePort` stamps the same url on both, so the states agree.
- JavaScript property lookup through the prototype chain in the converter table (a browser called `constructor`): launchpad never reports such names.
- `Plugin.Plugin.Prepare` requires `seleniumArgs` to be set: WCT runs `configure` before `prepare`, and `configure` always sets it.
- `Browsers.Expand` states only that its result comes from the installed capabilities; its full behaviour is stated by the Expand lemmas beside it.
- A builder that fails inside `detect` throws inside launchpad's callback rather than calling `done` with an error; the model reports it as the failed result of detection (`NoVersionDigits`).
- Plugin.Plugin.Configure: models `configure` as if `expand` were awaited for its capabilities; as written (lib/plugin.ts:55) the call passes no callback, so the code appends nothing and leaves `eachCapabilities` undefined. `Plugin.ConfigureAsWritten` models that behaviour, and "## Findings" records it. The `TypeError` that detection's later call of the missing `done` raises happens outside `configure` and is not modelled.
