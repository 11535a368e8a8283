# Testdroid device sessions for Jenkins — a verified model

The Testdroid Marionette plugin leases a phone from a Testdroid device farm for
one Jenkins build. Its build wrapper, `DeviceSessionWrapper`, works in stages:

- It looks for a device that already carries the requested build.
- When there is none, it starts the farm's "flash-fxos" project to flash one and
  looks again.
- It requests a device session, waits until the session runs, writes the
  device's labels to `device.json`, and looks up the adb and Marionette proxies.
- At the end of the build it releases the session.

Two generations of the wrapper exist:

- The current one, `jenkins.plugins.testdroid`.
- The older one, `com.testdroid.jenkins.plugins.devicesessions`. It has no
  exact label match, no shuffle, no session wait and no release retry.

`UrlHandler.removeBewit` removes the `bewit` access token from build URLs.

## How the model is built

- **Remote calls are inputs.** The farm, the HTTP client, the clock and the
  file system are not modelled as code. Every answer they give reaches the
  model as an input: a function from the call's index to its answer (the
  k-th search, the k-th poll). Each contract therefore holds for every
  possible behaviour of the farm.
- **Time** is the sum of the sleeps, each extended by an arbitrary
  non-negative lag. A bound stated on it holds for any clock at least as slow
  as the sleeps.
- **Session bookkeeping.** Each stage returns its result together with a log
  of the session events it caused (requested, created, released, release
  failed, abandoned). `SessionLog.Open` computes the sessions a log leaves
  open. The contracts use it to state when a session is released and when the
  source leaves one open.
- **Imperative code stays imperative.** The loops of the source are `while`
  loops with invariants, and they are proved against specification functions:
  - the label lookup and the device choice;
  - the retry loops;
  - the flash run's poll loop;
  - the proxy poll loop;
  - the label fold.

  A run configuration whose parameters are deleted and created in place is a
  class (`FlashRun.RunConfig`).
- **Pure code is functional.** The filters, the validators, `getMemTotal`, the
  build identifier and `removeBewit` are datatypes and functions. The four
  `replaceAll` calls of `removeBewit` are scanners with Java's
  non-overlapping, left-to-right regex semantics.

Modules, in dependency order:

| module | models |
|---|---|
| Remote | farm entities, exceptions, `new IOException(e)` |
| UrlHandler | `UrlHandler.removeBewit` and its unit tests |
| JavaText | `String.trim`, `toLowerCase`, `replace`, `Integer.parseInt` |
| FilterText, TestdroidFilter, DeviceSessionsFilter | both `DeviceFilter` classes |
| WrapperCommon | shared constants, `getMemTotal`, the build identifier |
| DeviceSearch | label lookup and device choice of both `searchDevice` methods |
| DeviceData | the label fold of `writeDeviceDataJSON` (both versions) |
| ProxyLookup | `getProxy` (identical in both versions) |
| FlashRun | parameter reset and run polling of `flashDevice` / `runProject` |
| SessionLog | session events and open sessions |
| DeviceCalls | the search/flash alternation of both `getDevice` methods |
| SessionSetup | data file, proxies and release after a session is leased |
| TestdroidWrapper | the current wrapper |
| DeviceSessionsWrapper | the older wrapper |
| TestdroidDescriptor | the current wrapper's form validators |

In the table below:

- `src/main/java/jenkins/plugins/testdroid/DeviceSessionWrapper.java` is the
  current wrapper.
- `src/main/java/com/testdroid/jenkins/plugins/devicesessions/DeviceSessionWrapper.java`
  is the older one.

## Model

| member | source | states |
|---|---|---|
| Remote.WrapApi | src/main/java/jenkins/plugins/testdroid/DeviceSessionWrapper.java:117-120 | an APIException becomes an IOException carrying its status; every other exception passes through unchanged |
| UrlHandler.RemoveBewitNeverLonger | src/main/java/jenkins/plugins/testdroid/UrlHandler.java:4-18 | the result is never longer than the URL |
| UrlHandler.SkipsBewitValue | src/main/java/jenkins/plugins/testdroid/UrlHandler.java:13 | a bewit match consumes the whole non-empty value up to the next space or `&`; the text after it is scanned on and kept |
| UrlHandler.NoQueryUnchanged | src/main/java/jenkins/plugins/testdroid/UrlHandler.java:4-18 | a URL with no `?` and no `&bewit=` comes back unchanged |
| UrlHandler.ArgumentsWithoutBewitUnchanged | src/main/java/jenkins/plugins/testdroid/UrlHandler.java:4-18 | a plain base URL with one or more ordinary arguments, none of them a bewit, comes back unchanged |
| UrlHandler.FirstBewitRemoved | src/main/java/jenkins/plugins/testdroid/UrlHandler.java:4-18 | a bewit as the first argument is removed and the other arguments keep their order; the `?` goes when no argument is left |
| UrlHandler.LaterBewitRemoved | src/main/java/jenkins/plugins/testdroid/UrlHandler.java:4-18 | a bewit after one or more arguments is removed with its `&`; the other arguments keep their order |
| UrlHandler.RemoveBewitFromQuery | src/main/java/jenkins/plugins/testdroid/UrlHandler.java:4-18 | wherever the bewit stands among ordinary arguments, the result is the base URL with the other arguments in their order: no `?&`, no trailing `&`, no lone `?` |
| UrlHandler.TestFixturesArePlain | src/test/java/jenkins/plugins/testdroid/UrlHandlerTest.java:9-11 | the unit tests' URL, bewit value and parameter meet the lemmas' preconditions |
| UrlHandler.NoArgumentReturnedAsIs | src/test/java/jenkins/plugins/testdroid/UrlHandlerTest.java:14-16 | a URL without arguments comes back as is |
| UrlHandler.ArgumentButNoBewitReturnedAsIs | src/test/java/jenkins/plugins/testdroid/UrlHandlerTest.java:19-22 | a URL with one argument and no bewit comes back as is |
| UrlHandler.OnlyArgumentDropsQuestionMark | src/test/java/jenkins/plugins/testdroid/UrlHandlerTest.java:25-28 | when the bewit is the only argument, the `?` is removed too |
| UrlHandler.MiddleBewitRemoved | src/test/java/jenkins/plugins/testdroid/UrlHandlerTest.java:31-34 | a bewit between two arguments is removed and the two arguments stay joined by one `&` |
| UrlHandler.FirstBewitKeepsQuestionMark | src/test/java/jenkins/plugins/testdroid/UrlHandlerTest.java:37-40 | a bewit at the beginning leaves `?` followed by the next argument |
| UrlHandler.TrailingBewitLeavesNoAmpersand | src/test/java/jenkins/plugins/testdroid/UrlHandlerTest.java:43-46 | a bewit at the end leaves no trailing `&` |
| JavaText.BlankIffAllTrimmed | src/main/java/jenkins/plugins/testdroid/DeviceSessionWrapper.java:648 | `value.trim().isEmpty()` holds exactly when every character is at most U+0020 |
| JavaText.TrimIsInfix | src/main/java/jenkins/plugins/testdroid/DeviceSessionWrapper.java:648 | the trimmed text is one contiguous piece of the input, starting right after the leading white space |
| JavaText.TrimmedEndsKept | src/main/java/jenkins/plugins/testdroid/DeviceSessionWrapper.java:648 | a non-empty trimmed text neither starts nor ends with a character `trim` removes |
| JavaText.ToLowerCase | src/main/java/jenkins/plugins/testdroid/DeviceSessionWrapper.java:290 | same length; each ASCII capital becomes its lower-case letter and every other character is kept |
| JavaText.ReplaceChar | src/main/java/jenkins/plugins/testdroid/DeviceSessionWrapper.java:290 | same length; every occurrence of the character is replaced and nothing else changes |
| JavaText.ParseInt | src/main/java/jenkins/plugins/testdroid/DeviceSessionWrapper.java:680 | a parsed value is a 32-bit integer, and the text starts with a digit or a sign |
| JavaText.ParseShow | src/main/java/jenkins/plugins/testdroid/DeviceSessionWrapper.java:680 | parsing undoes `Integer.toString` for every 32-bit value |
| JavaText.ParsePlusSign | src/main/java/jenkins/plugins/testdroid/DeviceSessionWrapper.java:680 | a leading `+` is accepted and does not change the value |
| JavaText.ParseRejectsNoDigits | src/main/java/jenkins/plugins/testdroid/DeviceSessionWrapper.java:680 | the empty string and a lone sign are not numbers |
| TestdroidFilter.ToStringRoundTrip | src/main/java/jenkins/plugins/testdroid/DeviceFilter.java:11-19 | the stored group and label can be read back from `toString` when the group has no comma |
| TestdroidFilter.ToStringAmbiguous | src/main/java/jenkins/plugins/testdroid/DeviceFilter.java:17-19 | with a comma in the group, two different filters print alike |
| DeviceSessionsFilter.ToStringRoundTrip | src/main/java/com/testdroid/jenkins/plugins/devicesessions/DeviceFilter.java:11-19 | the stored label and value can be read back from `toString` when the label has no comma |
| DeviceSessionsFilter.ToStringAmbiguous | src/main/java/com/testdroid/jenkins/plugins/devicesessions/DeviceFilter.java:17-19 | with a comma in the label, two different filters print alike |
| WrapperCommon.DefaultMemTotalParses | src/main/java/jenkins/plugins/testdroid/DeviceSessionWrapper.java:564-566 | without a configured memory, `getMemTotal` gives "0", which `parseInt` in the flash step accepts |
| WrapperCommon.BuildIdentifierInjective | src/main/java/jenkins/plugins/testdroid/DeviceSessionWrapper.java:127 | `memTotal_buildURL` determines both parts when the memory setting has no underscore |
| WrapperCommon.NumbersHaveNoUnderscore | src/main/java/jenkins/plugins/testdroid/DeviceSessionWrapper.java:127 | a printed number never contains an underscore, so numeric memory settings meet that condition |
| WrapperCommon.BuildIdentifierAmbiguous | src/main/java/jenkins/plugins/testdroid/DeviceSessionWrapper.java:127 | with an underscore in the memory setting, two configurations share a build label |
| DeviceSearch.FirstExact | src/main/java/jenkins/plugins/testdroid/DeviceSessionWrapper.java:508-519 | the index of the first hit whose name equals the label exactly, and none when no hit does |
| DeviceSearch.FindExactLabel | src/main/java/jenkins/plugins/testdroid/DeviceSessionWrapper.java:508-519 | the index loop stops at the first exact hit, and runs past the end exactly when there is none |
| DeviceSearch.ResolveLabelIds | src/main/java/jenkins/plugins/testdroid/DeviceSessionWrapper.java:487-522 | the filter loop's result equals the label-id specification: a failure, "no device", or one id per filter |
| DeviceSearch.LabelIdsOrder | src/main/java/jenkins/plugins/testdroid/DeviceSessionWrapper.java:487-522 | when every filter resolves, the ids are the filters' ids in filter order; the first filter that does not resolve decides the outcome |
| DeviceSearch.UnresolvedAt | src/main/java/jenkins/plugins/testdroid/DeviceSessionWrapper.java:494-519 | an empty group search, an empty label search or a missing exact match at the first unresolved filter gives "no device"; a failing query there gives its failure |
| DeviceSearch.FirstFree | src/main/java/com/testdroid/jenkins/plugins/devicesessions/DeviceSessionWrapper.java:465-472 | a listed online unlocked device with none before it; none exactly when no listed device is free |
| DeviceSearch.LastTaken | src/main/java/jenkins/plugins/testdroid/DeviceSessionWrapper.java:549-551 | a listed online locked device with none after it; none exactly when no listed device is taken |
| DeviceSearch.SelectDevice | src/main/java/jenkins/plugins/testdroid/DeviceSessionWrapper.java:543-557 | the selection loop returns the first free device, else the last taken one when locked devices are allowed, else none |
| DeviceSearch.ChoiceIsOnline | src/main/java/jenkins/plugins/testdroid/DeviceSessionWrapper.java:543-557 | the chosen device is listed and online, and it is unlocked unless locked devices are allowed |
| DeviceSearch.FreeDeviceIsPreferred | src/main/java/jenkins/plugins/testdroid/DeviceSessionWrapper.java:545-548 | whenever a free device is listed, a free device is chosen |
| DeviceSearch.LockedFallbackOnlyWhenNoneFree | src/main/java/jenkins/plugins/testdroid/DeviceSessionWrapper.java:553-555 | allowing locked devices changes the choice only when no device is free, and then gives a locked online one |
| DeviceSearch.ChoiceAfterShuffle | src/main/java/jenkins/plugins/testdroid/DeviceSessionWrapper.java:539-557 | whatever order the shuffle gives, the choice is a listed online device, is free when any is free, and exists when locked devices are allowed and any device is online |
| DeviceData.LabelsOfNonEmpty | src/main/java/jenkins/plugins/testdroid/DeviceSessionWrapper.java:289-304 | a key has labels exactly when some property's group maps to it |
| DeviceData.EveryLabelRecorded | src/main/java/jenkins/plugins/testdroid/DeviceSessionWrapper.java:289-304 | every property's label is recorded under its group's key |
| DeviceData.OnlyGroupLabels | src/main/java/jenkins/plugins/testdroid/DeviceSessionWrapper.java:289-304 | every label recorded under a key comes from a property of a group with that key |
| DeviceData.DocumentEntries | src/main/java/jenkins/plugins/testdroid/DeviceSessionWrapper.java:289-304 | the document has exactly the keys of the properties' groups, and each entry holds that group's labels in encounter order |
| DeviceData.DocumentStep | src/main/java/jenkins/plugins/testdroid/DeviceSessionWrapper.java:292-303 | one more property adds a string under a new key, and turns the entry of a present key into the array of its labels with the new one appended |
| DeviceData.FoldLabels | src/main/java/jenkins/plugins/testdroid/DeviceSessionWrapper.java:288-304 | the in-place fold over the properties builds exactly the specified document |
| DeviceData.WriteDeviceDataJSON | src/main/java/jenkins/plugins/testdroid/DeviceSessionWrapper.java:280-313 | nothing is written when the properties query fails or is empty; otherwise the folded document is written, and a failing write fails the call; the older wrapper (com/testdroid/jenkins/plugins/devicesessions/DeviceSessionWrapper.java, lines 248-281) runs the same fold with the raw group name as key |
| DeviceData.NormalizedGroupName | src/main/java/jenkins/plugins/testdroid/DeviceSessionWrapper.java:290 | the key has the group name's length, each space becomes `_` and each ASCII capital its lower-case letter |
| DeviceData.NormalizedGroupNameIdempotent | src/main/java/jenkins/plugins/testdroid/DeviceSessionWrapper.java:290 | normalizing a key again changes nothing |
| DeviceData.NormalizedGroupNameMerges | src/main/java/jenkins/plugins/testdroid/DeviceSessionWrapper.java:290 | group names that differ only in case or in space versus `_` share one key |
| ProxyLookup.GetProxy | src/main/java/jenkins/plugins/testdroid/DeviceSessionWrapper.java:572-599 | ends as the pass-by-pass specification `ProxyResult` says: the first entry of the first non-empty answer; empty answers lead to at most 30 sleeps and then "Failed to get proxy resource"; an API failure is wrapped and an interrupt propagates; the older wrapper's copy (lines 503-530 of its DeviceSessionWrapper.java) is identical |
| FlashRun.RunConfig.constructor | src/main/java/jenkins/plugins/testdroid/DeviceSessionWrapper.java:437 | the run's configuration holds the listed parameters |
| FlashRun.RunConfig.DeleteParameter | src/main/java/jenkins/plugins/testdroid/DeviceSessionWrapper.java:441 | removes the parameter with that id and keeps the others in order |
| FlashRun.RunConfig.CreateParameter | src/main/java/jenkins/plugins/testdroid/DeviceSessionWrapper.java:443-444 | appends one parameter with a fresh id |
| FlashRun.ResetParameters | src/main/java/jenkins/plugins/testdroid/DeviceSessionWrapper.java:437-444 | afterwards the configuration holds exactly FLAME_ZIP_URL=buildURL and MEM_TOTAL=memTotal, whatever it held before; the older wrapper (lines 383-390 of its DeviceSessionWrapper.java) resets them the same way |
| FlashRun.ResetParametersRelisting | src/main/java/jenkins/plugins/testdroid/DeviceSessionWrapper.java:439-442 | if the list is fetched again on every access, the loop leaves every second old parameter in place before the two new ones |
| FlashRun.SurvivorsLength | src/main/java/jenkins/plugins/testdroid/DeviceSessionWrapper.java:439-442 | under that reading, half of the old parameters, rounded down, survive |
| FlashRun.RelistingKeepsStaleParameter | src/main/java/jenkins/plugins/testdroid/DeviceSessionWrapper.java:439-442 | with two old parameters, the second survives |
| FlashRun.RelistingLeaksWheneverTwo | src/main/java/jenkins/plugins/testdroid/DeviceSessionWrapper.java:439-442 | with two or more old parameters, a stale one always survives |
| FlashRun.ElapsedAtLeast | src/main/java/jenkins/plugins/testdroid/DeviceSessionWrapper.java:458-465 | after k sleeps, at least k poll intervals of 10 seconds have passed, whatever the lag |
| FlashRun.PollRun | src/main/java/jenkins/plugins/testdroid/DeviceSessionWrapper.java:458-481 | the loop's end meets `PollOutcome`: no pass when the run is already FINISHED, and otherwise every pass but the last continued; true as soon as the run reads FINISHED before the deadline; past the deadline false, aborting exactly when the abort rule holds for the refreshed state and throwing the abort's failure; an interrupt aborts and rethrows; a failing refresh propagates |
| FlashRun.PollOutcomeExactly | src/main/java/jenkins/plugins/testdroid/DeviceSessionWrapper.java:458-481 | the loop's contract holds of exactly one outcome, the one `PollResult` computes pass by pass |
| FlashRun.PollResultMeetsOutcome | src/main/java/jenkins/plugins/testdroid/DeviceSessionWrapper.java:458-481 | the pass-by-pass specification meets the loop's contract |
| FlashRun.PollOutcomeIsResult | src/main/java/jenkins/plugins/testdroid/DeviceSessionWrapper.java:458-481 | any outcome that meets the loop's contract is the one `PollResult` gives |
| FlashRun.ContinuedPassesBound | src/main/java/jenkins/plugins/testdroid/DeviceSessionWrapper.java:458-465 | passes that all slept within the deadline number fewer than the loop's bound, so the loop ends |
| FlashRun.PollFinishedInTime | src/main/java/jenkins/plugins/testdroid/DeviceSessionWrapper.java:459-481 | a run read FINISHED within the deadline, after passes that continued, makes the step return true without an abort |
| FlashRun.PollTimedOut | src/main/java/jenkins/plugins/testdroid/DeviceSessionWrapper.java:465-472 | the first pass that sleeps past the deadline ends the loop: the run is aborted exactly when the abort rule holds for the refreshed state, and the step returns false unless the abort raised |
| FlashRun.PollFailsAt | src/main/java/jenkins/plugins/testdroid/DeviceSessionWrapper.java:461-479 | an interrupted sleep aborts the run and rethrows the interrupt, or the abort's own failure when the abort raises; a failing refresh propagates without an abort |
| FlashRun.AbortRulesDisagree | src/main/java/com/testdroid/jenkins/plugins/devicesessions/DeviceSessionWrapper.java:411-416 | the older rule is the complement of the current one: it leaves a queued run alone and aborts a running one |
| FlashRun.MissingProjectIsNoError | src/main/java/jenkins/plugins/testdroid/DeviceSessionWrapper.java:421-427 | a missing flash project ends the flash step with false, not with an error |
| DeviceCalls.FoundByLastSearch | src/main/java/jenkins/plugins/testdroid/DeviceSessionWrapper.java:373-381 | a device is returned only by the last search, after an odd number of calls, with every earlier search finding nothing |
| DeviceCalls.LookupFindsOrGivesUp | src/main/java/jenkins/plugins/testdroid/DeviceSessionWrapper.java:373-380 | after n searches that found nothing, each followed by a flash that did not raise, the n-th search's device is returned or its failure thrown; a fifth empty search gives "Device flashing failed"; a failing n-th flash throws its failure |
| SessionLog.CreateThenRelease | src/main/java/jenkins/plugins/testdroid/DeviceSessionWrapper.java:383-391 | a created and then released session leaves the set of open sessions as before |
| SessionSetup.Provision | src/main/java/jenkins/plugins/testdroid/DeviceSessionWrapper.java:172-195 | ends as `ProvisionResult`: a failing data write throws, leaving the session abandoned; then a failing adb or marionette lookup releases the session and rethrows the lookup's failure, or throws the release's own failure, wrapped, leaving the session open; success keeps the leased session as the only open one, with both lookups' entries and the folded device data |
| SessionSetup.ReleaseAfterProxyFailure | src/main/java/jenkins/plugins/testdroid/DeviceSessionWrapper.java:187-195 | the proxy failure is rethrown after a successful release, which leaves no session open; a failed release throws its own error, wrapped, and the session stays open |
| TestdroidWrapper.SearchDevice | src/main/java/jenkins/plugins/testdroid/DeviceSessionWrapper.java:484-558 | the label loop and the selection give exactly the search specification |
| TestdroidWrapper.SearchFindsDevice | src/main/java/jenkins/plugins/testdroid/DeviceSessionWrapper.java:484-558 | a found device is listed for the filters' labels, online, and free unless locked devices are allowed; when every label resolves, a free listed device is always found |
| TestdroidWrapper.SearchMatchesLabelNamesExactly | src/main/java/jenkins/plugins/testdroid/DeviceSessionWrapper.java:508-521 | each filter's id comes from a hit whose name equals the filter's label exactly, in the first group found |
| TestdroidWrapper.FlashDevice | src/main/java/jenkins/plugins/testdroid/DeviceSessionWrapper.java:417-482 | ends as `FlashResult`: a memory setting that is not a number throws, and a missing flash project gives false; once the run is created its parameters are exactly the two flash parameters; a failing device search throws its failure, an empty one "Unable find device!", a failing start its failure; otherwise the run is polled with the current abort rule (abort a run still WAITING) |
| TestdroidWrapper.GetDevice | src/main/java/jenkins/plugins/testdroid/DeviceSessionWrapper.java:360-382 | returns what `Lookup` gives for the k-th search (the filters plus the build label) and the k-th flash (the filters alone, ending as `FlashDevice` does on that run's answers): the first search that finds a device or fails decides; a failing flash throws its failure; after 5 empty searches and 4 flashes, "Device flashing failed"; the calls made alternate, each with those outcomes |
| TestdroidWrapper.GetDeviceFindsBuild | src/main/java/jenkins/plugins/testdroid/DeviceSessionWrapper.java:372-373 | a device found by the build search is free and carries the build identifier label |
| TestdroidWrapper.WaitUntilDeviceSessionIsRunning | src/main/java/jenkins/plugins/testdroid/DeviceSessionWrapper.java:240-258 | ends as `WaitResult` says, pass by pass: true exactly when the final state is RUNNING; it refreshes only while WAITING and before the deadline, ignores refresh errors, and propagates an interrupt |
| TestdroidWrapper.RequestSession | src/main/java/jenkins/plugins/testdroid/DeviceSessionWrapper.java:136-163 | one pass ends as `PassResult`: a failing device lookup throws, wrapped; a 400 refusal gives no session after one request; another refusal throws, wrapped; a created session that runs is returned; an interrupted wait rethrows and abandons it; one not running is released, giving no session with the log ending Released, or the release's failure is thrown, wrapped, and the session abandoned |
| TestdroidWrapper.SettleSession | src/main/java/jenkins/plugins/testdroid/DeviceSessionWrapper.java:157-162 | once the session is created the pass ends as `SettleResult`: a session that runs is returned and stays open; one that does not is released, giving no session and leaving none open, or, when the release fails, its failure is thrown, wrapped, and the session abandoned; an interrupted wait rethrows and abandons it |
| TestdroidWrapper.SetUp | src/main/java/jenkins/plugins/testdroid/DeviceSessionWrapper.java:108-196 | a failing user lookup throws, wrapped; otherwise the result is the session loop's (`SessionFrom`: the first pass that fails or yields a session decides, and "Device session is null" after the fourth pass without one) followed by `ProvisionResult`; success holds one running session, the only open one, with the proxies' entries and the folded data; a failure leaves no session open unless a release failed, the wait was interrupted or the data write failed |
| TestdroidWrapper.LeaseSession | src/main/java/jenkins/plugins/testdroid/DeviceSessionWrapper.java:132-170 | the session loop ends as `SessionFrom`: at most four passes, each of at most one request; a session it returns is RUNNING and the only one open; a failure leaves none open unless the last event abandons one |
| TestdroidWrapper.SessionNullAfterFourPasses | src/main/java/jenkins/plugins/testdroid/DeviceSessionWrapper.java:133-170 | four passes that each yield no session, refused with 400 or released after not running, make the set-up throw "Device session is null" |
| TestdroidWrapper.TearDown | src/main/java/jenkins/plugins/testdroid/DeviceSessionWrapper.java:212-228 | no session: nothing to do; otherwise one release, retried once with a new client when it fails; true when either release succeeds, and the retry's failure is thrown when both fail |
| TestdroidWrapper.TearDownClosesSession | src/main/java/jenkins/plugins/testdroid/DeviceSessionWrapper.java:212-228 | a successful tear-down leaves no session open; a failed one leaves the session open |
| DeviceSessionsWrapper.SearchDevice | src/main/java/com/testdroid/jenkins/plugins/devicesessions/DeviceSessionWrapper.java:430-473 | the label loop and the selection give exactly the older search specification: first hit, no shuffle, no locked fallback |
| DeviceSessionsWrapper.SearchFindsFirstFree | src/main/java/com/testdroid/jenkins/plugins/devicesessions/DeviceSessionWrapper.java:430-473 | a found device is the first free one in the farm's order; when every label resolves, a free listed device is always found |
| DeviceSessionsWrapper.RunProject | src/main/java/com/testdroid/jenkins/plugins/devicesessions/DeviceSessionWrapper.java:363-428 | ends as `RunResult`: as the current flash step, but with the older search (first label hit, free devices only) and the older abort rule (abort a run that is not WAITING) |
| DeviceSessionsWrapper.RunAfterRefusal | src/main/java/com/testdroid/jenkins/plugins/devicesessions/DeviceSessionWrapper.java:158-166 | the flash run after a refusal ends as `runProject` does on its answers (`RunResult`); it reports false without a flash project, and true only when a run was created and a free device found for it |
| DeviceSessionsWrapper.GetDevice | src/main/java/com/testdroid/jenkins/plugins/devicesessions/DeviceSessionWrapper.java:313-328 | null filters throw at once; otherwise it returns what `Lookup` gives for the k-th search (the filters plus the build label) and the k-th flash run (ending as `RunProject` does on its answers): the first search that finds a device or fails decides, a failing run throws its failure, and after 5 empty searches and 4 runs, "Device flashing failed" |
| DeviceSessionsWrapper.GetDeviceFindsBuild | src/main/java/com/testdroid/jenkins/plugins/devicesessions/DeviceSessionWrapper.java:318-319 | a device found by the build search is free and carries a label found for the build identifier |
| DeviceSessionsWrapper.RequestSession | src/main/java/com/testdroid/jenkins/plugins/devicesessions/DeviceSessionWrapper.java:144-172 | ends as `LeaseResult`: a granted request returns its session; a refusal with another status than 400 throws, wrapped; after a 400 refusal the flash run's failure is thrown (an API failure wrapped), otherwise the next request follows, and after the fourth refusal "Device session is null"; 1 to 4 requests, all for the same device, each refusal but a last non-400 one followed by a run; a last request refused with 400 whose run did not raise is the fourth, after four runs |
| DeviceSessionsWrapper.LeaseLoop | src/main/java/com/testdroid/jenkins/plugins/devicesessions/DeviceSessionWrapper.java:144-167 | the loop's result is `LeaseResult`, reached at request k after k refusals with status 400; a granted k-th request is the result, a refused one gives a failure |
| DeviceSessionsWrapper.RequestOnce | src/main/java/com/testdroid/jenkins/plugins/devicesessions/DeviceSessionWrapper.java:145-166 | one pass: a granted request ends the loop with its session, another status than 400 with its failure, wrapped, and a failing run after a 400 refusal with that failure; otherwise the next pass decides, as `LeaseFrom` says |
| DeviceSessionsWrapper.SessionNullAfterFourRefusals | src/main/java/com/testdroid/jenkins/plugins/devicesessions/DeviceSessionWrapper.java:144-172 | four requests refused with 400, each followed by a run that does not raise, make the set-up throw "Device session is null" |
| DeviceSessionsWrapper.SetUp | src/main/java/com/testdroid/jenkins/plugins/devicesessions/DeviceSessionWrapper.java:99-199 | a failing user lookup throws, wrapped; null filters throw; a failing device lookup throws, wrapped, and requests nothing; otherwise the result is the session loop's (`LeaseResult`) followed by `ProvisionResult`; success holds exactly one open session, with the proxies' entries and the data keyed by the raw group names |
| DeviceSessionsWrapper.TearDown | src/main/java/com/testdroid/jenkins/plugins/devicesessions/DeviceSessionWrapper.java:215-224 | no session: nothing to do; otherwise exactly one release, with no retry, whose failure is thrown, wrapped |
| DeviceSessionsWrapper.TearDownClosesSession | src/main/java/com/testdroid/jenkins/plugins/devicesessions/DeviceSessionWrapper.java:215-224 | a successful release leaves no session open; a failed one leaves the session open |
| TestdroidDescriptor.CheckMemTotal | src/main/java/jenkins/plugins/testdroid/DeviceSessionWrapper.java:674-689 | a null value throws; a value with `$` is accepted; otherwise it is accepted exactly when it parses to 0 or more, a value that does not parse is rejected with "Memory allocation must be a number" and a negative one with "Memory allocation must be 0 or greater" |
| TestdroidDescriptor.AcceptedMemTotalParses | src/main/java/jenkins/plugins/testdroid/DeviceSessionWrapper.java:679-682 | an accepted value without `$` parses to a number from 0 to 2^31-1 |
| TestdroidDescriptor.MemTotalAcceptsNaturals | src/main/java/jenkins/plugins/testdroid/DeviceSessionWrapper.java:679-682 | every printed 32-bit natural number is accepted |
| TestdroidDescriptor.MemTotalRejectsNegatives | src/main/java/jenkins/plugins/testdroid/DeviceSessionWrapper.java:683-685 | every printed negative 32-bit number is rejected with "Memory allocation must be 0 or greater" |
| TestdroidDescriptor.DefaultMemTotalAccepted | src/main/java/jenkins/plugins/testdroid/DeviceSessionWrapper.java:564-566 | the default memory setting passes the validator |
| TestdroidDescriptor.NoDollarInNumber | src/main/java/jenkins/plugins/testdroid/DeviceSessionWrapper.java:675 | no printed number contains `$`, so numbers reach the parsing branch |
| TestdroidDescriptor.CheckUsername | src/main/java/jenkins/plugins/testdroid/DeviceSessionWrapper.java:699-705 | rejected with "Username is mandatory" exactly when null or blank |
| TestdroidDescriptor.CheckPassword | src/main/java/jenkins/plugins/testdroid/DeviceSessionWrapper.java:691-697 | rejected with "Password is mandatory" exactly when null or blank |
| TestdroidDescriptor.CheckBuildURL | src/main/java/jenkins/plugins/testdroid/DeviceSessionWrapper.java:647-660 | null or blank is rejected as mandatory; a value with `$` is accepted; otherwise the URI parser's verdict decides |

## Left out

- Transport and authentication: building the API client, `client.me()` and the query builders. Their outcomes are inputs.
- `applyMacro`: Jenkins' macro expansion is not part of this model. The build URL (and, in the current version, the memory setting) passes through an arbitrary function `expand`.
- `URL.getHost` and `MalformedURLException` on the endpoint, and the `java.net.URI` check of `doCheckBuildURL`. The URI parser's verdict is an input (`uriError`). `doCheckEndPointURL` is left out with it.
- The form validators of the older wrapper: they are outside the modelled core.
- The encoding of the proxy query with `URLEncoder`, the JSON parsing of proxy answers, and class-cast or missing-field errors from `getString`. An answer reaches the model as a list of entries.
- The `return null` at the end of `getProxy`: `IOUtils.toString` never returns null, so the model's loop has no such exit.
- `JSONObject.toString(2)`, key order in the written document, and the `FilePath` write. The document is a map, and the write's failure is an input (`writeError`).
- Paging of device lists: the older search does not ask for `limit(0)`. The model treats the farm's answer as the complete list in both versions.
- Failures of `deleteParameter`, `createParameter` and of fetching the run configuration are not modelled; those calls always succeed in the model.
- `Collections.shuffle` is an arbitrary permutation (`DeviceSearch.IsShuffle`), not a random one.
- `Integer.parseInt` accepts only ASCII digits here; the JDK also accepts other Unicode decimal digits.
- `String.toLowerCase` lowers only ASCII capitals here; the JDK's locale-dependent mapping of other letters is not modelled.
- Logging, `buildEnvVars` and the Jenkins `Environment` object: the model's `Environment` keeps the session, both proxy entries and the written device data.
- TestdroidWrapper.FlashDevice: the parameter reset reads `getEntity` as one snapshot of the parameter list for the whole delete loop, so every old parameter is deleted. If each call fetches the list again, the loop skips parameters; that reading is `FlashRun.ResetParametersRelisting` (see Findings), and the flash step does not use it.
- DeviceSessionsWrapper.RunProject: the same reading of `getEntity` for its delete loop (lines 385-388 of the older DeviceSessionWrapper.java).

## Findings

| source | as written | input that shows it | evidently intended | confidence | as-written member | corrected member |
|---|---|---|---|---|---|---|
| src/main/java/com/testdroid/jenkins/plugins/devicesessions/DeviceSessionWrapper.java:411-416 | on timeout, `runProject` aborts the run when its state is NOT WAITING | a run still RUNNING at the deadline is aborted, and one still WAITING is left queued | abort only a run still WAITING, as the comment says and the current version does | not executed | FlashRun.AbortUnlessWaiting (lemma FlashRun.AbortRulesDisagree) | FlashRun.AbortIfWaiting, used by TestdroidWrapper.FlashDevice |
| src/main/java/jenkins/plugins/testdroid/DeviceSessionWrapper.java:439-442 | the delete loop indexes into `params.getEntity()`, which fetches the list again on every call while the deletions shrink it | two old parameters p, q: `i = 0` deletes p, the list becomes [q], and the loop stops at `i = 1` with q still present | delete every old parameter, as the comment says | not executed; rests on `getEntity` fetching again on each call (the API client is not part of this model) | FlashRun.ResetParametersRelisting (lemmas FlashRun.RelistingKeepsStaleParameter, FlashRun.RelistingLeaksWheneverTwo) | FlashRun.ResetParameters, used by TestdroidWrapper.FlashDevice and DeviceSessionsWrapper.RunProject |
