# slowdown: a verified model of the delay middleware

`slowdown` wraps an HTTP handler so that each request is held up for a while
before the handler runs and for a while after it, to make timing-dependent
client bugs reproducible. `Delay(h, opts...)` starts from a default
configuration (1s before, nothing after, each wait capped at 20s), runs the
options `Fixed`, `Header`, `Max` and `Condition` on it in order, and returns
a handler which:

1. waits for the before-duration,
2. stops if the request's context is done,
3. runs the wrapped handler,
4. stops if the request's context is done,
5. waits for the after-duration.

The duration of a phase is decided each time anew. If any condition
rejects the request, nothing is waited. Otherwise, when a header prefix is
set, the duration is read from the request header `<prefix>-before` or
`<prefix>-after`; a missing, empty or unparsable header counts as zero.
When no prefix is set, the fixed duration for the phase is used. In both
cases the result is then capped by the maximum.

The project has four modules:

- `Http` (`http.dfy`) stands in for the part of `net/http` that is used: a
  request with headers, and `Header.Get`.
- `Slowdown` (`delay.dfy`) models `delay.go`. The `config` struct is the
  class `Config`; its value at one moment is the datatype `Settings`, which
  `Config.Value()` returns. The option closures are the datatype `Option`,
  and running one closure on the config is `Config.Apply`. `Delay` is a
  method that builds a fresh `Config` with the same loop as the source. The
  handler `Delay` returns is `Config.Serve`, which records what it does as a
  trace of `Event`s: `Waited(phase, d)` for each wait asked of the timer, and
  `Invoked` for the call of the wrapped handler. Each imperative method is
  proved against a pure function: `Applied`/`AppliedAll` for the options,
  `Resolve` for `sleep` and `Run` for the handler.
- `SlowdownProperties` (`delay_properties.dfy`) proves what the package
  promises about these functions.
- `SlowdownScenarios` (`delay_scenarios.dfy`) restates the scenarios of
  `delay_test.go` as facts about traces.

Durations are `time.Duration` values: signed 64-bit numbers of
nanoseconds. The source does no arithmetic on durations (it only compares
them), so the model has no overflow to represent. Only the proofs add
durations, in unbounded integers, to bound the total latency.

Three points of the code are worth stating on their own:

- The code only caps a duration from above (`delay.go:84-86`); it does not
  raise a negative result to zero. With a negative cap, a request at or
  above the cap resolves to the negative cap (`NegativeMaxIsNotFloored`),
  and a request below it (a parsed negative header, say) stays as it is.
  The timer returns at once for a non-positive duration, and `Latency`
  counts such a wait as zero.
- Conditions are evaluated again in each `sleep` call (`delay.go:68`), not
  once per request. Conditions are pure functions of the request here, so
  the two phases are gated alike (`ConditionGatesBothPhases`). A
  side-effecting predicate in Go could answer differently in the two
  phases.
- `Header("")` behaves exactly like having no `Header` at all. The package
  comment (`delay.go:109-114`) says that once `Header` is used, missing
  headers mean no delay and `Fixed` is ignored. But the option stores the
  empty prefix (`delay.go:117`), and `sleep` then takes the fixed branch
  (`delay.go:74`). So `Delay(h, Header(""))` still waits the default 1s
  before the handler (`EmptyHeaderWaitsDefault`), and a `Fixed` option still
  applies (`EmptyHeaderKeepsFixed`). In general, adding `Header("")` to a
  list without another `Header` builds the same configuration
  (`EmptyPrefixIsNoHeader`).

## Model

| member | source | states |
|---|---|---|
| `Slowdown.Config.constructor` | delay.go:20-23 | a new config holds 1s before, 0 after, no header prefix, a 20s cap and no conditions |
| `Slowdown.Config.SetFixed` | delay.go:95-100 | `Fixed` sets both fixed durations and leaves prefix, cap and conditions unchanged |
| `Slowdown.Config.SetHeader` | delay.go:115-119 | `Header` sets only the header prefix |
| `Slowdown.Config.SetMax` | delay.go:136-140 | `Max` sets only the cap |
| `Slowdown.Config.AddCondition` | delay.go:148-152 | `Condition` appends exactly one predicate after the existing ones and changes nothing else |
| `Slowdown.Applied` | delay.go:95-152 | one option writes its own fields and leaves every other field of the config as it was |
| `Slowdown.Config.Apply` | delay.go:26 | `opt(&cfg)` turns the config into `Applied(old value, opt)` |
| `Slowdown.AppliedAll` | delay.go:25-27 | reference definition of the option loop: the options applied left to right; conditions already present stay, in order, as a prefix of the result, and each option adds at most one; every other field keeps its starting value or was set by one of the options |
| `Slowdown.Built` | delay.go:20-27 | the config Delay builds: the defaults, then every option left to right; each field holds its default or was set by one of the options, and there are no more conditions than options |
| `Slowdown.Delay` | delay.go:18-27 | Delay returns a fresh config equal to the defaults with every option applied left to right |
| `Slowdown.Config.CheckConditions` | delay.go:154-161 | true iff every predicate accepts the request; predicates are called in order up to and including the first false one, and all of them when all pass |
| `Slowdown.ConditionsHold` | delay.go:154-161 | reference definition of checkConditions: the AND of the predicates taken in order, true on an empty list; it holds iff every predicate accepts the request |
| `Slowdown.PhaseName` | delay.go:59-65 | the phase string passed to sleep: "before" for the before-wait, "after" for the after-wait |
| `Slowdown.HeaderName` | delay.go:75 | the header name `cfg.headerPrefix+"-"+beforeOrAfter`: the prefix, a dash, the phase's name, and nothing else |
| `Slowdown.ReadHeaderDuration` | delay.go:121-131 | succeeds iff the header value is non-empty and parses, and then gives the parsed duration; otherwise gives (0, false) |
| `Slowdown.Requested` | delay.go:73-83 | reference definition of the duration before the cap: with a prefix set, a non-zero duration is exactly what header `<prefix>-<phase>` parses to; with none, it is one of the fixed durations |
| `Slowdown.Cap` | delay.go:84-86 | the capped duration is at most the cap and at most the request, and equals one of them |
| `Slowdown.Resolve` | delay.go:67-86 | a phase waits iff all conditions hold, and never for longer than the cap |
| `Slowdown.Config.Sleep` | delay.go:67-86 | sleep decides `Resolve` of the current config: no wait when a condition fails, otherwise a duration no larger than `max` |
| `Slowdown.Config.Before` | delay.go:59-61 | the before-wait is sleep for the "before" phase |
| `Slowdown.Config.After` | delay.go:63-65 | the after-wait is sleep for the "after" phase |
| `Slowdown.PhaseTrace` | delay.go:67-91 | one sleep as events: nothing when it returns before the select, otherwise exactly one wait for the resolved duration |
| `Slowdown.Run` | delay.go:29-43 | reference definition of the returned handler's trace: events in the order before-wait, handler, after-wait, the handler present iff the request was live after the before-wait |
| `Slowdown.Config.Serve` | delay.go:29-43 | the returned handler produces `Run` of its config: events in the order before-wait, handler, after-wait, with the handler called iff the request was live after the before-wait |
| `SlowdownProperties.AppliedAllAppend` | delay.go:25-27 | applying options in two batches equals applying them all in one pass |
| `SlowdownProperties.LastFixedWins` | delay.go:95-100 | after any list of options, the fixed durations are those of the last `Fixed` |
| `SlowdownProperties.NoFixedKeeps` | delay.go:95-100 | options other than `Fixed` never change the fixed durations |
| `SlowdownProperties.LastHeaderWins` | delay.go:115-119 | the header prefix is that of the last `Header` |
| `SlowdownProperties.NoHeaderKeeps` | delay.go:115-119 | options other than `Header` never change the prefix |
| `SlowdownProperties.LastMaxWins` | delay.go:136-140 | the cap is that of the last `Max` |
| `SlowdownProperties.NoMaxKeeps` | delay.go:136-140 | options other than `Max` never change the cap |
| `SlowdownProperties.ConditionsOfAppend` | delay.go:148-151 | the Condition predicates collected from two option lists come out as the first list's followed by the second's |
| `SlowdownProperties.ConditionsAccumulate` | delay.go:148-151 | the conditions are the initial ones followed by the predicate of every `Condition` option, in the order given |
| `SlowdownProperties.DefaultsWithoutOptions` | delay.go:20-23 | with no options the config is 1s before, 0 after, no prefix, a 20s cap, no conditions |
| `SlowdownProperties.ResolvedIsCapped` | delay.go:84-86 | when the conditions hold, a phase waits, for a duration at most the requested one and at most the cap and equal to one of them: `min(requested, max)` |
| `SlowdownProperties.NegativeMaxIsNotFloored` | delay.go:84-86 | a negative cap is not raised to zero: a request at or above it resolves to the negative cap |
| `SlowdownProperties.ConditionGatesBothPhases` | delay.go:67-71 | some condition rejects the request iff neither phase waits |
| `SlowdownProperties.HeaderOverridesFixed` | delay.go:73-75 | with a prefix set, a phase asks for the value of header `<prefix>-<phase>`, and changing the fixed durations changes nothing |
| `SlowdownProperties.FixedWithoutHeader` | delay.go:76-83 | with no prefix, "before" asks for the fixed before-duration and "after" for the fixed after-duration, whatever the headers hold |
| `SlowdownProperties.UnreadableHeaderIsZero` | delay.go:121-131 | a missing, empty or unparsable header asks for zero, so the phase waits 0, or the cap when the cap is negative |
| `SlowdownProperties.AbsentHeaderReadsZero` | delay.go:122-125 | reading an absent header gives (0, false) for any parser |
| `SlowdownProperties.OrderedTail` | delay.go:29-43 | the tail of an ordered trace is ordered, and every later event is at a later stage than the first |
| `SlowdownProperties.NoInvocationAbove` | delay.go:29-43 | a trace with no event at the handler's stage calls the handler zero times |
| `SlowdownProperties.OrderedInvokesAtMostOnce` | delay.go:29-43 | a trace in the fixed before-handler-after order calls the handler at most once |
| `SlowdownProperties.HandlerAtMostOnce` | delay.go:32-36 | the wrapped handler runs at most once, and runs iff the request was not done after the before-wait |
| `SlowdownProperties.AfterWaitOnlyAfterHandler` | delay.go:36-42 | the after-wait happens iff the handler ran, the request was still live afterwards and the conditions hold |
| `SlowdownProperties.BeforeWaitFirst` | delay.go:30 | the before-wait happens iff the conditions hold, and is then the first event |
| `SlowdownProperties.LatencyAppend` | delay.go:29-43 | the latency of two traces run one after the other is the sum of their latencies |
| `SlowdownProperties.PhaseLatency` | delay.go:84-91 | one phase blocks for at most the cap, or for nothing when the cap is negative |
| `SlowdownProperties.TotalLatencyBounded` | delay.go:133-135 | the whole request is held at most 2 × max (0 when max is negative) |
| `SlowdownProperties.ServeKeepsPromises` | delay.go:29-43 | a call of the returned handler calls the handler at most once, waits after only once the handler has run on a live request, and adds at most 2 × max |
| `SlowdownProperties.HeaderBeatsAnyFixed` | delay.go:112-117 | in any option list whose last `Header` has a non-empty prefix, each phase reads its header, whatever `Fixed` options come before or after |
| `SlowdownProperties.EmptyPrefixIsNoHeader` | delay.go:115-119 | in a list without another `Header`, adding `Header("")` anywhere builds the same configuration, left in fixed mode, contrary to the comment at delay.go:109-114 |
| `SlowdownProperties.PhaseHeadersDiffer` | delay.go:75 | for any prefix, the before and after phases read different headers |
| `SlowdownProperties.RejectingConditionCollected` | delay.go:148-151 | a Condition option whose predicate rejects the request leaves a rejecting predicate among the collected conditions |
| `SlowdownProperties.AcceptingConditionChangesNothing` | delay.go:142-151 | a Condition only takes delays away: if its predicate accepts the request, every phase resolves as without it; if not, the phase does not wait |
| `SlowdownProperties.RejectingConditionMeansNoDelay` | delay.go:142-151 | in any option list, a Condition that rejects the request removes both waits, but the handler still runs |
| `SlowdownScenarios.BuiltOne` | delay.go:25-27 | building from one option is applying that option to the defaults |
| `SlowdownScenarios.BuiltTwo` | delay.go:25-27 | building from two options applies the first, then the second |
| `SlowdownScenarios.LatencyOfThree` | delay.go:29-43 | a full run with two non-negative waits adds their sum |
| `SlowdownScenarios.NoArguments` | delay_test.go:23-31 | with no options: 1s before, the handler, a zero wait after; 1s in all |
| `SlowdownScenarios.FixedBeforeAfter` | delay_test.go:56-65 | `Fixed(b, a)` within the default cap waits b, runs the handler, waits a; b + a in all |
| `SlowdownScenarios.HeaderBeforeAfter` | delay_test.go:102-119 | `Header("delay")` with headers of 300ms and 700ms waits 300ms and 700ms |
| `SlowdownScenarios.HeaderAbsent` | delay.go:109-110 | `Header("delay")` on a request without the headers waits zero in both phases |
| `SlowdownScenarios.EmptyHeaderWaitsDefault` | delay.go:73-83 | `Header("")` leaves the default 1s before-wait and the zero after-wait in place |
| `SlowdownScenarios.EmptyHeaderKeepsFixed` | delay.go:73-83 | `Header("")` followed by `Fixed(300ms, 700ms)` waits 300ms and 700ms: `Fixed` is not ignored |
| `SlowdownScenarios.MaxExceeded` | delay_test.go:122-139 | `Max(100ms)` cuts 300ms and 700ms to 100ms each, 200ms in all |
| `SlowdownScenarios.MaxNotExceeded` | delay_test.go:142-162 | `Max(600ms)` leaves 100ms and 150ms as they are |
| `SlowdownScenarios.ConditionUnmet` | delay_test.go:191-213 | an unknown API key means no wait, and the handler still runs |
| `SlowdownScenarios.ConditionMet` | delay_test.go:165-188 | a known API key lets the header's 100ms before-wait through |
| `SlowdownScenarios.ContextCanceled` | delay_test.go:275-306 | a request cancelled during the before-wait gets that wait only: the handler is never called |

## Left out

- Waiting itself. The `select` between the request context and
  `time.After(d)` (delay.go:87-91) is a race between a timer and
  cancellation. It is recorded as the event `Waited(phase, d)`, which reads
  "waited up to d". `Latency` is therefore an upper bound.
- `isDone` (delay.go:164-171) is an oracle. The datatype `Cancellation`
  supplies its answer at each of its two call sites.
- `time.ParseDuration` is a standard-library function. It is the parameter
  `parse` of type `Parser`, and its grammar is not modelled.
- `Header.Get` canonicalises header names in Go. The model compares names
  exactly as given, and keeps only the first value of each header.
- The wrapped handler and the `ResponseWriter` are opaque. A trace records
  only that the handler was called. The model says nothing about the
  response's status or body.
- `sleep` has a `switch` on the phase string (delay.go:77-82), and a string
  that is neither "before" nor "after" would give a zero duration. But only
  `before` and `after` call `sleep`, so the phase is the two-valued
  datatype `Phase` and that branch is not represented.
- Condition predicates are pure functions of the request. Go predicates
  could have side effects or be non-deterministic.
- Wrapping a handler twice is not modelled; handlers are not composed.
- The same request is given to both phases. In Go the wrapped handler
  receives the same `*http.Request` (delay.go:36) that the after phase then
  reads (delay.go:42, 68, 75), so a handler that wrote `r.Header` would
  change the after-phase header and what the conditions see. The model
  relies on the net/http Handler contract that handlers do not modify the
  request they are given.
- Nil functions are not modelled: `Option` and `Predicate` values always
  exist. In Go, `Delay(h, nil)` panics at `opt(&cfg)` (delay.go:26),
  `Condition(nil)` panics at `predicate(r)` on the first request
  (delay.go:156), and a nil `h` panics at delay.go:36.
- Concurrency between requests is not modelled. The config is only read
  after `Delay` returns.
- doc.go contains only package documentation and no code.
- The timing tolerances and the HTTP test server of delay_test.go are left
  out. Their scenarios are stated as facts about traces in
  `SlowdownScenarios`.
