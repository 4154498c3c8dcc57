/** What the delay middleware promises, proved about the model in Slowdown:
    how the options combine, how a phase's duration is chosen and capped, how
    conditions gate the waits, and how the returned handler sequences them. */
module SlowdownProperties {

  import Http
  import opened Slowdown

  // ---------------------------------------------------------------------------
  // Reference definitions
  // ---------------------------------------------------------------------------

  /** The predicates of the Condition options, in the order given. */
  function ConditionsOf(opts: seq<Option>): seq<Predicate>
  {
    if opts == [] then [] else Collected(opts[0]) + ConditionsOf(opts[1..])
  }

  /** The predicate an option contributes to the conditions, if any. */
  function Collected(o: Option): seq<Predicate>
  {
    if o.Condition? then [o.check] else []
  }

  /** How long a wait of d really blocks: time.After fires at once when d <= 0. */
  function Blocking(d: int): nat
  {
    if d < 0 then 0 else d
  }

  /** The latency a trace adds at most (each wait may be cut short by cancellation). */
  function Latency(t: seq<Event>): nat
  {
    if t == [] then 0
    else (if t[0].Waited? then Blocking(t[0].d) else 0) + Latency(t[1..])
  }

  /** How many times a trace calls the wrapped handler. */
  function Invocations(t: seq<Event>): nat
  {
    if t == [] then 0
    else (if t[0] == Invoked then 1 else 0) + Invocations(t[1..])
  }

  /** The trace holds a wait for the given phase. */
  predicate WaitsIn(t: seq<Event>, p: Phase)
  {
    exists k :: 0 <= k < |t| && t[k].Waited? && t[k].phase == p
  }

  /** Nobody cancelled the request. */
  const NotCancelled: Cancellation := Cancellation(false, false)

  // ---------------------------------------------------------------------------
  // Building the configuration
  // ---------------------------------------------------------------------------

  /** Applying a list of options in two halves is applying it in one go. */
  lemma {:induction false} AppliedAllAppend(s: Settings, a: seq<Option>, b: seq<Option>)
    ensures AppliedAll(s, a + b) == AppliedAll(AppliedAll(s, a), b)
    decreases |b|
  {
    if b == [] {
      assert a + b == a;
    } else {
      assert (a + b)[..|a + b| - 1] == a + b[..|b| - 1];
      AppliedAllAppend(s, a, b[..|b| - 1]);
    }
  }

  /** The last Fixed option sets both fixed durations; earlier ones are lost. */
  lemma {:induction false} LastFixedWins(s: Settings, opts: seq<Option>, i: nat)
    requires i < |opts| && opts[i].Fixed?
    requires forall j :: i < j < |opts| ==> !opts[j].Fixed?
    ensures AppliedAll(s, opts).fixedDurationBefore == opts[i].before
    ensures AppliedAll(s, opts).fixedDurationAfter == opts[i].after
    decreases |opts|
  {
    if i < |opts| - 1 {
      LastFixedWins(s, opts[..|opts| - 1], i);
    }
  }

  /** Without a Fixed option the fixed durations are those started from. */
  lemma {:induction false} NoFixedKeeps(s: Settings, opts: seq<Option>)
    requires forall j :: 0 <= j < |opts| ==> !opts[j].Fixed?
    ensures AppliedAll(s, opts).fixedDurationBefore == s.fixedDurationBefore
    ensures AppliedAll(s, opts).fixedDurationAfter == s.fixedDurationAfter
    decreases |opts|
  {
    if opts != [] {
      NoFixedKeeps(s, opts[..|opts| - 1]);
    }
  }

  /** The last Header option sets the prefix. */
  lemma {:induction false} LastHeaderWins(s: Settings, opts: seq<Option>, i: nat)
    requires i < |opts| && opts[i].Header?
    requires forall j :: i < j < |opts| ==> !opts[j].Header?
    ensures AppliedAll(s, opts).headerPrefix == opts[i].prefix
    decreases |opts|
  {
    if i < |opts| - 1 {
      LastHeaderWins(s, opts[..|opts| - 1], i);
    }
  }

  /** Without a Header option the prefix is the one started from. */
  lemma {:induction false} NoHeaderKeeps(s: Settings, opts: seq<Option>)
    requires forall j :: 0 <= j < |opts| ==> !opts[j].Header?
    ensures AppliedAll(s, opts).headerPrefix == s.headerPrefix
    decreases |opts|
  {
    if opts != [] {
      NoHeaderKeeps(s, opts[..|opts| - 1]);
    }
  }

  /** The last Max option sets the cap. */
  lemma {:induction false} LastMaxWins(s: Settings, opts: seq<Option>, i: nat)
    requires i < |opts| && opts[i].Max?
    requires forall j :: i < j < |opts| ==> !opts[j].Max?
    ensures AppliedAll(s, opts).max == opts[i].maxDuration
    decreases |opts|
  {
    if i < |opts| - 1 {
      LastMaxWins(s, opts[..|opts| - 1], i);
    }
  }

  /** Without a Max option the cap is the one started from. */
  lemma {:induction false} NoMaxKeeps(s: Settings, opts: seq<Option>)
    requires forall j :: 0 <= j < |opts| ==> !opts[j].Max?
    ensures AppliedAll(s, opts).max == s.max
    decreases |opts|
  {
    if opts != [] {
      NoMaxKeeps(s, opts[..|opts| - 1]);
    }
  }

  /** Collecting the conditions of two lists one after the other is collecting
      those of their concatenation. */
  lemma {:induction false} ConditionsOfAppend(a: seq<Option>, b: seq<Option>)
    ensures ConditionsOf(a + b) == ConditionsOf(a) + ConditionsOf(b)
    decreases |a|
  {
    if a == [] {
      assert a + b == b;
    } else {
      assert (a + b)[0] == a[0];
      assert (a + b)[1..] == a[1..] + b;
      ConditionsOfAppend(a[1..], b);
      calc {
        ConditionsOf(a + b);
        Collected(a[0]) + ConditionsOf(a[1..] + b);
        Collected(a[0]) + (ConditionsOf(a[1..]) + ConditionsOf(b));
        (Collected(a[0]) + ConditionsOf(a[1..])) + ConditionsOf(b);
      }
    }
  }

  /** Conditions accumulate: each Condition option appends its predicate,
      in the order given, after those already there. */
  lemma {:induction false} ConditionsAccumulate(s: Settings, opts: seq<Option>)
    ensures AppliedAll(s, opts).conditions == s.conditions + ConditionsOf(opts)
    decreases |opts|
  {
    if opts != [] {
      var init, last := opts[..|opts| - 1], opts[|opts| - 1];
      ConditionsAccumulate(s, init);
      assert opts == init + [last];
      ConditionsOfAppend(init, [last]);
      assert ConditionsOf([last]) == Collected(last) by {
        assert [last][1..] == [];
      }
    }
  }

  /** With no options, Delay uses 1s before, nothing after, a 20s cap, no
      header prefix and no conditions. */
  lemma DefaultsWithoutOptions()
    ensures Built([]) == Settings(1 * Second, 0, "", 20 * Second, [])
  {
  }

  // ---------------------------------------------------------------------------
  // Resolving a phase
  // ---------------------------------------------------------------------------

  /** The duration of a phase is the smaller of the one asked for and the cap,
      with no floor at zero. */
  lemma ResolvedIsCapped(s: Settings, r: Http.Request, p: Phase, parse: Parser)
    requires ConditionsHold(s.conditions, r)
    ensures Resolve(s, r, p, parse).WaitFor?
    ensures var d, asked := Resolve(s, r, p, parse).d, Requested(s, r, p, parse);
            d <= asked && d <= s.max && (d == asked || d == s.max)
  {
  }

  /** A negative cap is not raised to zero: any request at or above it waits for
      the (negative) cap itself. */
  lemma NegativeMaxIsNotFloored(s: Settings, r: Http.Request, p: Phase, parse: Parser)
    requires ConditionsHold(s.conditions, r) && s.max < 0
    requires Requested(s, r, p, parse) >= s.max
    ensures Resolve(s, r, p, parse) == WaitFor(s.max)
  {
  }

  /** One failing condition means no wait in either phase, whatever the header
      or fixed settings say; with all conditions holding, both phases wait. */
  lemma ConditionGatesBothPhases(s: Settings, r: Http.Request, parse: Parser)
    ensures (exists i :: 0 <= i < |s.conditions| && !s.conditions[i](r)) <==>
            (Resolve(s, r, BeforeHandler, parse) == NoWait && Resolve(s, r, AfterHandler, parse) == NoWait)
  {
  }

  /** With a header prefix the fixed durations play no part: a phase asks for
      what header "<prefix>-<phase>" says. */
  lemma HeaderOverridesFixed(s: Settings, before: Duration, after: Duration, r: Http.Request, p: Phase, parse: Parser)
    requires s.headerPrefix != ""
    ensures Requested(s, r, p, parse) == ReadHeaderDuration(r, HeaderName(s.headerPrefix, p), parse).0
    ensures Resolve(s.(fixedDurationBefore := before, fixedDurationAfter := after), r, p, parse)
         == Resolve(s, r, p, parse)
  {
  }

  /** Without a header prefix each phase asks for its own fixed duration, and
      the request's headers play no part. */
  lemma FixedWithoutHeader(s: Settings, r: Http.Request, h: Http.Headers, parse: Parser)
    requires s.headerPrefix == ""
    ensures Requested(s, r, BeforeHandler, parse) == s.fixedDurationBefore
    ensures Requested(s, r, AfterHandler, parse) == s.fixedDurationAfter
    ensures forall p :: Requested(s, r.(header := h), p, parse) == Requested(s, r, p, parse)
  {
  }

  /** A header that is missing, empty or unparsable means no delay: header mode
      then asks for zero. */
  lemma UnreadableHeaderIsZero(s: Settings, r: Http.Request, p: Phase, parse: Parser)
    requires s.headerPrefix != ""
    requires var v := Http.Get(r.header, HeaderName(s.headerPrefix, p)); v == "" || parse(v) == ParseErr
    ensures Requested(s, r, p, parse) == 0
    ensures ConditionsHold(s.conditions, r) ==> Resolve(s, r, p, parse) == WaitFor(if s.max < 0 then s.max else 0)
  {
  }

  /** A header that is absent reads as (0, false), for any parser. */
  lemma AbsentHeaderReadsZero(r: Http.Request, name: string, parse: Parser)
    requires name !in r.header
    ensures ReadHeaderDuration(r, name, parse) == (0, false)
  {
  }

  // ---------------------------------------------------------------------------
  // The returned handler
  // ---------------------------------------------------------------------------

  /** Dropping the first event of an ordered trace leaves an ordered trace,
      all of whose events come at a later stage than the dropped one. */
  lemma OrderedTail(t: seq<Event>)
    requires Ordered(t) && t != []
    ensures Ordered(t[1..])
    ensures forall k :: 0 <= k < |t| - 1 ==> Stage(t[0]) < Stage(t[1..][k])
  {
  }

  /** A trace with no event at the handler's stage never calls the handler. */
  lemma {:induction false} NoInvocationAbove(t: seq<Event>)
    requires forall k :: 0 <= k < |t| ==> Stage(t[k]) != 1
    ensures Invocations(t) == 0
    decreases |t|
  {
    if t != [] {
      assert Stage(t[0]) != 1;
      forall k | 0 <= k < |t| - 1 ensures Stage(t[1..][k]) != 1 {
        assert t[1..][k] == t[k + 1];
      }
      NoInvocationAbove(t[1..]);
    }
  }

  /** A trace in the fixed order calls the wrapped handler at most once. */
  lemma {:induction false} OrderedInvokesAtMostOnce(t: seq<Event>)
    requires Ordered(t)
    ensures Invocations(t) <= 1
    decreases |t|
  {
    if t != [] {
      OrderedTail(t);
      if t[0] == Invoked {
        NoInvocationAbove(t[1..]);
      } else {
        OrderedInvokesAtMostOnce(t[1..]);
      }
    }
  }

  /** The wrapped handler runs at most once, and exactly when the request was
      not cancelled by the end of the before-wait. */
  lemma HandlerAtMostOnce(s: Settings, r: Http.Request, parse: Parser, done: Cancellation)
    ensures Invocations(Run(s, r, parse, done)) <= 1
    ensures Invoked in Run(s, r, parse, done) <==> !done.afterBefore
  {
    OrderedInvokesAtMostOnce(Run(s, r, parse, done));
  }

  /** The after-wait happens exactly when the handler ran, the request was
      still live afterwards, and the conditions hold. */
  lemma AfterWaitOnlyAfterHandler(s: Settings, r: Http.Request, parse: Parser, done: Cancellation)
    ensures WaitsIn(Run(s, r, parse, done), AfterHandler) <==>
            Invoked in Run(s, r, parse, done) && !done.afterHandler && ConditionsHold(s.conditions, r)
  {
    var t := Run(s, r, parse, done);
    if WaitsIn(t, AfterHandler) {
      var k :| 0 <= k < |t| && t[k].Waited? && t[k].phase == AfterHandler;
      assert !done.afterBefore && !done.afterHandler;
    }
    if Invoked in t && !done.afterHandler && ConditionsHold(s.conditions, r) {
      assert t[|t| - 1].Waited? && t[|t| - 1].phase == AfterHandler;
    }
  }

  /** The before-wait happens exactly when the conditions hold, and comes first. */
  lemma BeforeWaitFirst(s: Settings, r: Http.Request, parse: Parser, done: Cancellation)
    ensures WaitsIn(Run(s, r, parse, done), BeforeHandler) <==> ConditionsHold(s.conditions, r)
    ensures WaitsIn(Run(s, r, parse, done), BeforeHandler) ==> Run(s, r, parse, done)[0].Waited?
  {
    var t := Run(s, r, parse, done);
    if WaitsIn(t, BeforeHandler) {
      var k :| 0 <= k < |t| && t[k].Waited? && t[k].phase == BeforeHandler;
      assert ConditionsHold(s.conditions, r);
    }
    if ConditionsHold(s.conditions, r) {
      assert t[0].Waited? && t[0].phase == BeforeHandler;
    }
  }

  /** Latency adds up over traces run one after the other. */
  lemma {:induction false} LatencyAppend(a: seq<Event>, b: seq<Event>)
    ensures Latency(a + b) == Latency(a) + Latency(b)
    decreases |a|
  {
    if a == [] {
      assert a + b == b;
    } else {
      assert (a + b)[1..] == a[1..] + b;
      LatencyAppend(a[1..], b);
    }
  }

  /** One phase blocks for at most the cap, or not at all when the cap is
      negative. */
  lemma PhaseLatency(s: Settings, r: Http.Request, p: Phase, parse: Parser)
    ensures Latency(PhaseTrace(Resolve(s, r, p, parse), p)) <= Blocking(s.max)
  {
  }

  /** The added latency never exceeds twice the cap (taken as zero when
      negative, since a non-positive wait returns at once). */
  lemma {:induction false} TotalLatencyBounded(s: Settings, r: Http.Request, parse: Parser, done: Cancellation)
    ensures Latency(Run(s, r, parse, done)) <= 2 * Blocking(s.max)
  {
    var before := PhaseTrace(Resolve(s, r, BeforeHandler, parse), BeforeHandler);
    var after := if done.afterHandler then [] else PhaseTrace(Resolve(s, r, AfterHandler, parse), AfterHandler);
    var mid := if done.afterBefore then [] else [Invoked] + after;
    assert Run(s, r, parse, done) == before + mid;
    LatencyAppend(before, mid);
    PhaseLatency(s, r, BeforeHandler, parse);
    if !done.afterBefore {
      LatencyAppend([Invoked], after);
      assert [Invoked][1..] == [];
      if !done.afterHandler {
        PhaseLatency(s, r, AfterHandler, parse);
      }
    }
  }

  /** Serve, the handler Delay returns, satisfies all of the above. */
  method ServeKeepsPromises(cfg: Config, r: Http.Request, parse: Parser, done: Cancellation)
    returns (trace: seq<Event>)
    ensures Invocations(trace) <= 1 && (Invoked in trace <==> !done.afterBefore)
    ensures WaitsIn(trace, AfterHandler) ==> Invoked in trace && !done.afterHandler
    ensures Latency(trace) <= 2 * Blocking(cfg.max)
  {
    trace := cfg.Serve(r, parse, done);
    HandlerAtMostOnce(cfg.Value(), r, parse, done);
    AfterWaitOnlyAfterHandler(cfg.Value(), r, parse, done);
    TotalLatencyBounded(cfg.Value(), r, parse, done);
  }

  // ---------------------------------------------------------------------------
  // Options and resolution together
  // ---------------------------------------------------------------------------

  /** A Header option with a non-empty prefix, not overridden later, makes both
      phases read their headers, whatever Fixed options come before or after. */
  lemma HeaderBeatsAnyFixed(opts: seq<Option>, i: nat, r: Http.Request, p: Phase, parse: Parser)
    requires i < |opts| && opts[i].Header? && opts[i].prefix != ""
    requires forall j :: i < j < |opts| ==> !opts[j].Header?
    ensures Requested(Built(opts), r, p, parse)
         == ReadHeaderDuration(r, HeaderName(opts[i].prefix, p), parse).0
  {
    LastHeaderWins(Default, opts, i);
  }

  /** Header("") is no Header at all: delay.go:117 stores the empty prefix,
      and delay.go:74 then takes the fixed branch. In a list without another
      Header, adding Header("") anywhere builds the very same configuration,
      so the fixed defaults and any Fixed option still apply, and a missing
      header does not mean "no delay". */
  lemma EmptyPrefixIsNoHeader(a: seq<Option>, b: seq<Option>)
    requires forall j :: 0 <= j < |a| ==> !a[j].Header?
    ensures Built(a + [Header("")]).headerPrefix == ""
    ensures Built(a + [Header("")] + b) == Built(a + b)
  {
    NoHeaderKeeps(Default, a);
    AppliedAllAppend(Default, a, [Header("")]);
    assert [Header("")][..0] == [];
    assert Built(a + [Header("")]) == Built(a);
    AppliedAllAppend(Default, a + [Header("")], b);
    AppliedAllAppend(Default, a, b);
  }

  /** The two phases are controlled by different headers, whatever the prefix. */
  lemma PhaseHeadersDiffer(prefix: string)
    ensures HeaderName(prefix, BeforeHandler) != HeaderName(prefix, AfterHandler)
  {
    assert |HeaderName(prefix, BeforeHandler)| == |prefix| + 7;
    assert |HeaderName(prefix, AfterHandler)| == |prefix| + 6;
  }

  /** A rejecting Condition option leaves a rejecting predicate among the
      collected ones. */
  lemma {:induction false} RejectingConditionCollected(opts: seq<Option>, i: nat, r: Http.Request)
    requires i < |opts| && opts[i].Condition? && !opts[i].check(r)
    ensures !ConditionsHold(ConditionsOf(opts), r)
    decreases |opts|
  {
    var head := Collected(opts[0]);
    assert ConditionsOf(opts) == head + ConditionsOf(opts[1..]);
    if i == 0 {
      assert ConditionsOf(opts)[0] == opts[0].check;
    } else {
      RejectingConditionCollected(opts[1..], i - 1, r);
      var k :| 0 <= k < |ConditionsOf(opts[1..])| && !ConditionsOf(opts[1..])[k](r);
      assert ConditionsOf(opts)[|head| + k] == ConditionsOf(opts[1..])[k];
    }
  }

  /** A Condition option can only take delays away: an accepting predicate
      leaves every phase as it was, a rejecting one removes the wait. */
  lemma AcceptingConditionChangesNothing(s: Settings, c: Predicate, r: Http.Request, p: Phase, parse: Parser)
    ensures Resolve(Applied(s, Condition(c)), r, p, parse) == if c(r) then Resolve(s, r, p, parse) else NoWait
  {
    var all := s.conditions + [c];
    assert all[|s.conditions|] == c;
    if c(r) && ConditionsHold(s.conditions, r) {
      forall i | 0 <= i < |all| ensures all[i](r) {
        if i < |s.conditions| { assert all[i] == s.conditions[i]; }
      }
    }
    if ConditionsHold(all, r) {
      forall i | 0 <= i < |s.conditions| ensures s.conditions[i](r) {
        assert all[i] == s.conditions[i];
      }
    }
  }

  /** A Condition option that rejects the request switches off every wait,
      whichever options surround it; the handler still runs. */
  lemma RejectingConditionMeansNoDelay(opts: seq<Option>, i: nat, r: Http.Request, parse: Parser)
    requires i < |opts| && opts[i].Condition? && !opts[i].check(r)
    ensures Run(Built(opts), r, parse, NotCancelled) == [Invoked]
  {
    ConditionsAccumulate(Default, opts);
    RejectingConditionCollected(opts, i, r);
    assert Built(opts).conditions == ConditionsOf(opts);
  }
}
