# Ad-campaign dashboard: request governor, retries, filter and formatters

This project is a Dafny model of the data logic of an ad-campaign analytics dashboard (a React single-page app). It covers four parts:

- **The request governor of the API service** (`services/api.ts`). A request interceptor admits at most `MAX_REQUESTS = 10` requests at once. Every later request waits in a FIFO queue. Each admission schedules its own release after `TIME_WINDOW / MAX_REQUESTS = 6000` ms. When a release fires, `processQueue` dispatches the head of the queue.
  - The model is a discrete-event state machine (`RequestGovernor`).
  - Its events are a request's arrival, the earliest release timer firing, and time passing with nothing due.
  - Every dispatch is recorded with its time, so FIFO order and the rate bound can be stated over whole runs.
- **The 429 handling of the response interceptor** (`ThrottleRetry`). A throttling answer is resubmitted through the governor after `retry_after` seconds, or 60 seconds when that field is absent or 0. Every other failure is rejected unchanged.
- **The dashboard page's load and filter** (`Dashboard`). `fetchData` retries a 504 up to twice with a 1000 ms pause. The campaign filter is a case-insensitive substring search combined with an exact status filter.
- **The formatting helpers** (`Formatters`). `formatRelativeTime` buckets a day count into phrases, and the platform and status colour lookups are case-insensitive.

`Text` holds what these parts share:
- an option type;
- ASCII lower-casing (`toLowerCase`);
- substring search (`includes`);
- decimal rendering of integers (`${n}` in template literals).

`GovernorScenarios` runs concrete bursts of requests through the governor.

Where the constants' names suggest one behaviour and the statements do another, the model follows the statements:

- **Release timing.** `TIME_WINDOW = 60000` next to `MAX_REQUESTS = 10` reads as "ten requests per minute". The code, however, schedules each admission's own release `TIME_WINDOW / MAX_REQUESTS` = 6000 ms after that admission, so a slot is free again 6000 ms after it was taken.
  - Twelve requests at time 0 dispatch requests 10 and 11 both at 6000 ms (`GovernorScenarios.TwelveRequests`).
  - Twenty requests at time 0 are all dispatched by 6000 ms (`GovernorScenarios.TwentyWithinOneWindow`).
  - So the ceiling of ten bounds the dispatches within any half-open span (now − 6000, now], not within 60000 ms (`RequestGovernor.RecentDispatchesBounded`).
- **Dispatches per release.** `processQueue` dispatches at most one queued request per release, never several.

## Model

| member | source | states |
|---|---|---|
| RequestGovernor.ProcessQueue | src/services/api.ts:25-37 | with a queued request and the counter below the ceiling, the head leaves the queue, is dispatched now and gets its own release 6000 ms later; otherwise nothing changes; no request is lost or reordered |
| RequestGovernor.OnArrive | src/services/api.ts:39-56 | the clock does not move; below the ceiling the request is dispatched at once, the counter is incremented, the queue is untouched and a release is scheduled for now + 6000 ms; at the ceiling the request is appended to the queue and the counter and pending releases are unchanged; a dispatch happens exactly when the counter was below the ceiling |
| RequestGovernor.OnRelease | src/services/api.ts:31-34 | a firing release moves the clock to its deadline and frees one slot; if requests wait, it dispatches exactly the head of the queue at that instant and schedules that dispatch's own release 6000 ms later; with no timer pending nothing happens |
| RequestGovernor.OnWait | src/services/api.ts:49-52 | when `until` is not in the past and not beyond the next release deadline, the clock moves to `until`; otherwise nothing changes |
| RequestGovernor.Step | src/services/api.ts:25-59 | each event adds at most one dispatch, keeps earlier dispatches, and (when the queue exists only at the ceiling) conserves the submitted ids in order |
| RequestGovernor.InitialInv | src/services/api.ts:20-21 | the empty queue and zero counter at load time satisfy the invariant |
| RequestGovernor.ArrivePreservesInv | src/services/api.ts:46-55 | an arrival keeps the counter within 0..10, one pending release per unreleased admission, and a queue only at the ceiling |
| RequestGovernor.ReleasePreservesInv | src/services/api.ts:31-34 | a release followed by `processQueue` keeps the same invariant |
| RequestGovernor.StepPreservesInv | src/services/api.ts:25-59 | every event preserves the invariant |
| RequestGovernor.RunInv | src/services/api.ts:20-59 | every reachable state satisfies the invariant |
| RequestGovernor.CountBounds | src/services/api.ts:21-22 | `requestCount` stays within 0..10 and equals the number of scheduled, unfired release timers |
| RequestGovernor.QueuedOnlyWhenFull | src/services/api.ts:46-55 | in every reachable state with a waiting request the counter is at the ceiling, so any arriving request is appended to the queue and nothing is dispatched ahead of the waiting ones |
| RequestGovernor.Fifo | src/services/api.ts:26-27 | the dispatched ids followed by the queued ids are exactly the submitted ids in submission order |
| RequestGovernor.DispatchOrderIsSubmissionOrder | src/services/api.ts:26-27 | the dispatched ids are a prefix of the submission order, and the queue is exactly the submissions not yet dispatched, in order |
| RequestGovernor.RecentDispatchesAreUnreleased | src/services/api.ts:49-52 | in an invariant state, dispatches within the last 6000 ms are among the `count` unreleased ones |
| RequestGovernor.RecentDispatchesBounded | src/services/api.ts:22-23 | in every reachable state at most 10 dispatches happened within the half-open span (now − 6000, now], 6000 being `TIME_WINDOW / MAX_REQUESTS` |
| GovernorScenarios.BurstAdmission | src/services/api.ts:46-55 | a burst of n requests at time 0 dispatches ids 0..min(n,10)-1 at once, each with a release due at 6000 ms, and queues the rest in order |
| GovernorScenarios.SmallBurstNeverQueues | src/services/api.ts:46-52 | up to ten simultaneous requests are all dispatched, in order, and none waits |
| GovernorScenarios.DrainAfterBurst | src/services/api.ts:25-37 | after a burst of n > 10 and k releases, the first k queued requests go out at 6000 ms with their releases due at 12000 ms |
| GovernorScenarios.TwelveRequests | src/services/api.ts:20-37 | twelve requests at time 0: requests 10 and 11 both dispatch at 6000 ms and the queue empties |
| GovernorScenarios.TwentyWithinOneWindow | src/services/api.ts:22-23 | twenty requests at time 0 are all dispatched by 6000 ms, more than ten within one `TIME_WINDOW` |
| ThrottleRetry.OnResponseError | src/services/api.ts:61-71 | resubmission happens exactly for status 429; its delay is 60000 ms when `retry_after` is absent or 0 and `retry_after * 1000` otherwise; every other error is rejected unchanged |
| ThrottleRetry.AfterError | src/services/api.ts:64-69 | the retried request re-enters the request interceptor: dispatched at once below the ceiling, queued at the tail at it; a rejected error leaves the governor untouched |
| ThrottleRetry.AfterErrorKeepsInv | src/services/api.ts:67 | the resubmission keeps the governor invariant and adds exactly that id at the end of the submission order |
| ThrottleRetry.Settle | src/services/api.ts:63-69 | over successive answers, every answer before the last one seen is a 429; the chain ends with the first non-429 answer, which the caller receives unchanged; the delays are those each 429 asked for |
| ThrottleRetry.RetryAfterFiveSeconds | src/services/api.ts:65-67 | a 429 with `retry_after = 5` followed by success is resubmitted once after 5000 ms |
| Dashboard.FetchData | src/pages/Dashboard.tsx:30-52 | corrected load: attempts follow each other exactly while an attempt fails with 504 and `retryCount < 2`; at most `3 - retryCount` attempts, separated by 1000 ms pauses; the spinner is on and the error cleared while each is in flight; the final view holds both lists on success or the error text on failure, spinner off |
| Dashboard.AtMostThreeAttempts | src/pages/Dashboard.tsx:43-46 | a load makes one to three attempts with 1000 ms between consecutive ones |
| Dashboard.ThreeTimeoutsSurface | src/pages/Dashboard.tsx:43-48 | three 504s in a row end the load with the third error's text shown |
| Dashboard.OtherFailureSurfaces | src/pages/Dashboard.tsx:43-48 | any failure other than a 504 is shown at once, with no retry |
| Dashboard.SuccessStoresBoth | src/pages/Dashboard.tsx:35-41 | a successful attempt is the last one and stores both the campaigns and the insights with no error |
| Dashboard.FetchDataAsWritten | src/pages/Dashboard.tsx:30-52 | the first attempt starts with the spinner on and the error cleared; every retried attempt is in flight with the spinner off |
| Dashboard.AsWrittenSameOutcome | src/pages/Dashboard.tsx:42-51 | the code as written makes the same number of attempts, pauses and final view as the corrected load |
| Dashboard.AsWrittenDiffersOnlyInSpinner | src/pages/Dashboard.tsx:49-51 | each retried attempt's in-flight view is the corrected one with the spinner off |
| Dashboard.SpinnerOffDuringRetry | src/pages/Dashboard.tsx:43-51 | after a first 504, the second attempt runs with `loading` false as written, but true in the corrected load |
| Dashboard.FilterCampaigns | src/pages/Dashboard.tsx:64-68 | keeps exactly the campaigns the predicate accepts, each with its multiplicity, in their original order |
| Dashboard.KeepsIff | src/pages/Dashboard.tsx:65-67 | a campaign is kept iff its lower-cased name contains the lower-cased term at some position and the status filter is "all" or equals its status |
| Dashboard.SearchIgnoresCase | src/pages/Dashboard.tsx:65 | search terms with the same lower-case form give the same list |
| Dashboard.FilterSameKeeps | src/pages/Dashboard.tsx:64-68 | with the same status filter, two search terms that keep the same campaigns give the same list |
| Dashboard.NoCriteriaKeepsAll | src/pages/Dashboard.tsx:65-66 | an empty search with the filter at "all" shows the list unchanged |
| Dashboard.FilterIdempotent | src/pages/Dashboard.tsx:64-68 | filtering the filtered list changes nothing |
| Text.Lower | src/pages/Dashboard.tsx:65 | same length, no upper-case letter left, other characters unchanged, A-Z shifted to a-z |
| Text.LowerOfLowerCase | src/utils/formatters.ts:48 | a string without upper-case letters is its own lower-case form |
| Text.LowerIdempotent | src/utils/formatters.ts:48 | lower-casing twice is lower-casing once |
| Text.ContainsIffOccurs | src/pages/Dashboard.tsx:65 | `includes` is true iff the needle occurs at some index |
| Text.ContainsEmpty | src/pages/Dashboard.tsx:65 | every string includes the empty string |
| Text.NatToString | src/utils/formatters.ts:35-38 | a non-empty string of decimal digits without a leading zero, except for 0 itself |
| Text.NatToStringValue | src/utils/formatters.ts:35-38 | the digits read back as the number rendered |
| Text.IntToString | src/utils/formatters.ts:35 | the rendering starts with a minus sign exactly for a negative number; every other character is a decimal digit; the digits read back as the magnitude |
| Text.NatToStringInjective | src/utils/formatters.ts:35-38 | different naturals render differently |
| Text.IntToStringInjective | src/utils/formatters.ts:35-38 | different integers render differently |
| Formatters.DiffInDays | src/utils/formatters.ts:31 | the day count is the floor of the millisecond difference over 86 400 000 |
| Formatters.Bucket | src/utils/formatters.ts:33-38 | "Today" iff 0 days, "Yesterday" iff 1, days-ago iff negative or 2..6, weeks-ago iff 7..29, months-ago iff 30..364, years-ago iff 365 or more, each count the floor quotient |
| Formatters.Render | src/utils/formatters.ts:33-38 | every phrase other than "Today" and "Yesterday" ends in "s ago", with its unit (day, week, month, year) told apart by the character before; a days, weeks, months or years phrase begins with its count as `String(n)` renders it; "Today" and "Yesterday" end in 'y' instead |
| Formatters.Classify | src/utils/formatters.ts:28-34 | an unparsable date falls in the NaN branch exactly; a parsed date is in the "Today" branch exactly when it lies 0 to 86 399 999 ms in the past, and in the "Yesterday" branch exactly for the following day |
| Formatters.FormatRelativeTime | src/utils/formatters.ts:27-39 | "NaN years ago" exactly for an unparsable date; "Today" exactly when the millisecond difference is in [0, 86 400 000); "Yesterday" exactly when it is in [86 400 000, 172 800 000) |
| Formatters.FormatIsRenderedBucket | src/utils/formatters.ts:30-38 | a parsed date prints the phrase of the bucket of its whole-day difference |
| Formatters.TodayPhrase | src/utils/formatters.ts:33 | only the 0-day bucket prints "Today" |
| Formatters.YesterdayPhrase | src/utils/formatters.ts:34 | only the 1-day bucket prints "Yesterday" |
| Formatters.NaNPhrase | src/utils/formatters.ts:38 | only an unparsable date prints "NaN years ago" |
| Formatters.RenderInjective | src/utils/formatters.ts:33-38 | different buckets or counts never print the same phrase |
| Formatters.FutureDateGoesNegative | src/utils/formatters.ts:30-35 | a future date prints "-N days ago" |
| Formatters.DaysPhrase | src/utils/formatters.ts:35 | a day count below 0 or from 2 to 6 prints that count followed by " days ago" |
| Formatters.WeeksPhrase | src/utils/formatters.ts:36 | a day count from 7 to 29 prints its floor quotient by 7, between 1 and 4, followed by " weeks ago" |
| Formatters.MonthsPhrase | src/utils/formatters.ts:37 | a day count from 30 to 364 prints its floor quotient by 30, between 1 and 12, followed by " months ago" |
| Formatters.YearsPhrase | src/utils/formatters.ts:38 | a day count of 365 or more prints its floor quotient by 365, at least 1, followed by " years ago" |
| Formatters.OneWeek | src/utils/formatters.ts:36 | seven to thirteen days print "1 weeks ago" |
| Formatters.PlatformKeys | src/utils/formatters.ts:42-47 | the platform table has exactly the keys meta, google, linkedin, other |
| Formatters.StatusKeys | src/utils/formatters.ts:52-56 | the status table has exactly the keys active, paused, completed |
| Formatters.LookupColour | src/utils/formatters.ts:48 | a key the table holds with a non-empty value gives that value; any other key gives the fallback key's value |
| Formatters.GetPlatformColor | src/utils/formatters.ts:41-49 | corrected lookup: the colour is always one of the table's colours, the lower-cased name's if listed, grey otherwise |
| Formatters.PlatformColourIdentifies | src/utils/formatters.ts:41-49 | blue-500, red-500 and blue-700 are given exactly to meta, google and linkedin in any case; every other name is grey |
| Formatters.GetStatusColor | src/utils/formatters.ts:51-58 | corrected lookup: the colour is always one of the table's colours, the lower-cased status's if listed, active green otherwise |
| Formatters.StatusColourIdentifies | src/utils/formatters.ts:51-58 | yellow and grey are given exactly to paused and completed in any case; every other status is green |
| Formatters.ColoursIgnoreCase | src/utils/formatters.ts:48 | a name and its lower-case form get the same colours |
| Formatters.LookupAsWritten | src/utils/formatters.ts:48 | on a plain object, the result is inherited exactly when the key is missing from the table and names an `Object.prototype` member, and it is then the member the key names; any other result is the own-key lookup's colour |
| Formatters.CamelCaseMembers | src/utils/formatters.ts:42 | every inherited member other than `constructor` and `__proto__` has an upper-case letter in its name |
| Formatters.LowerConstructor | src/utils/formatters.ts:48 | `constructor` is unchanged by lower-casing |
| Formatters.LowerProto | src/utils/formatters.ts:57 | `__proto__` is unchanged by lower-casing |
| Formatters.GetPlatformColorAsWritten | src/utils/formatters.ts:41-49 | as written, the result is inherited exactly when the lower-cased name is `constructor` or `__proto__`, and it is then the member that name reaches; otherwise it is the corrected colour |
| Formatters.GetStatusColorAsWritten | src/utils/formatters.ts:51-58 | as written, the result is inherited exactly when the lower-cased status is `constructor` or `__proto__`, and it is then the member that name reaches; otherwise it is the corrected colour |
| Formatters.ConstructorEscapesFallback | src/utils/formatters.ts:41-49 | as written, platform "constructor" yields the inherited constructor; the corrected lookup yields grey |
| Formatters.ConstructorLookups | src/utils/formatters.ts:41-49 | the platform key `constructor` reaches the inherited member as written and the grey fallback in the own-key lookup |
| Formatters.ProtoLookups | src/utils/formatters.ts:51-58 | the status key `__proto__` reaches the inherited member as written and the active green in the own-key lookup |
| Formatters.ProtoEscapesFallback | src/utils/formatters.ts:51-58 | as written, status "__proto__" yields `Object.prototype`; the corrected lookup yields the active green |
| Formatters.AsWrittenAgreesOffPrototype | src/utils/formatters.ts:41-58 | for every name whose lower-case form is not an inherited member, as written and corrected agree |

## Left out

- Transport: the axios instance, its 10 s timeout and base URL, the service getters (`getCampaigns`, `getInsights`, ...) and the SSE connection. Each request is an opaque id in the governor and an `Attempt` outcome in the dashboard.
- Timers: `setTimeout` is modelled as scheduled deadlines fired by explicit events, and the clock never passes a pending deadline, so every release fires exactly 6000 ms after its admission. A JavaScript timer fires at or after its deadline, so in the program a release, and the dispatch it triggers, can come later than the times the model states (for example the 6000 ms of `GovernorScenarios.TwelveRequests` and `GovernorScenarios.DrainAfterBurst` are the earliest possible times). Timer clamping of negative or huge delays is not modelled.
- RequestGovernor.Run: the environment chooses the interleaving of arrivals, releases and waits; any sequence of events is allowed.
- ThrottleRetry.Settle: the source's retry chain is unbounded; the model follows it over a finite sequence of server answers and reports `StillThrottled` when they run out.
- Promise rejection: when both requests of an attempt fail, which rejection `Promise.all` reports is left to the `Attempt` value supplied.
- `window.refreshDashboard` and re-running `fetchData` concurrently are not modelled. React's batching of state updates is not modelled; each load is a sequence of views.
- Formatters.FormatRelativeTime: dates are whole milliseconds supplied by the caller, with `None` for an unparsable string. Floating-point `Date` arithmetic and the reading of the clock are not modelled.
- Text.Lower: only ASCII letters are case-mapped; `toLowerCase` also maps other scripts.
- `formatCurrency`, `formatNumber`, `formatPercentage` and `formatDate` wrap `Intl` formatters and are not modelled. The ratios on the campaign detail page are not modelled either.
- Rendering (JSX, spinners, cards) is not modelled beyond the `loading` and `error` fields of the view.

## Findings

| source | as written | input that shows it | evidently intended | confidence | as-written member | corrected member |
|---|---|---|---|---|---|---|
| src/utils/formatters.ts:41-58 | `colors[name.toLowerCase()] \|\| colors.other` indexes a plain object literal, so a key naming an `Object.prototype` member returns that member (a function or object, truthy) instead of a colour class | status "__proto__" (also platform "constructor", any case) | unknown names fall back to the default colour | not executed; follows from JavaScript property lookup | Formatters.ProtoEscapesFallback, Formatters.ConstructorEscapesFallback | Formatters.GetStatusColor, Formatters.GetPlatformColor |
| src/pages/Dashboard.tsx:42-51 | the outer attempt's `finally` runs `setLoading(false)` after the retry has already called `setLoading(true)` and is awaiting the network, so retried attempts are in flight with the spinner off | a first attempt that fails with 504 | the spinner stays on until the last attempt settles | not executed; follows from the order of `await` and `finally` | Dashboard.SpinnerOffDuringRetry | Dashboard.FetchData |
