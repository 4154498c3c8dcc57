/** A model of the slowdown middleware (delay.go): an HTTP handler wrapper that
    waits before and after the wrapped handler, for a duration taken either
    from fixed settings or from request headers, capped by a maximum and gated
    by request predicates.

    Time is not modelled: a wait is recorded as an event carrying the duration
    the middleware asked the timer for. Cancellation of the request context is
    an oracle, and so is time.ParseDuration. */
module Slowdown {

  import Http

  // ---------------------------------------------------------------------------
  // Durations
  // ---------------------------------------------------------------------------

  /** time.Duration: a signed 64-bit count of nanoseconds. */
  type Duration = d: int | -0x8000_0000_0000_0000 <= d <= 0x7fff_ffff_ffff_ffff

  const Millisecond: Duration := 1_000_000
  const Second: Duration := 1_000_000_000

  /** The defaults Delay starts from (delay.go:20-23). */
  const DefaultBefore: Duration := 1 * Second
  const DefaultAfter: Duration := 0
  const DefaultMax: Duration := 20 * Second

  /** The outcome of time.ParseDuration: a duration, or an error. */
  datatype ParseResult = ParseOk(d: Duration) | ParseErr

  /** time.ParseDuration, a standard-library call whose grammar is not modelled. */
  type Parser = string -> ParseResult

  /** A condition: a predicate over the incoming request. */
  type Predicate = Http.Request -> bool

  // ---------------------------------------------------------------------------
  // The configuration and its options
  // ---------------------------------------------------------------------------

  /** The value held by a config struct at one moment. */
  datatype Settings = Settings(
    fixedDurationBefore: Duration,
    fixedDurationAfter: Duration,
    headerPrefix: string,
    max: Duration,
    conditions: seq<Predicate>)

  /** The config literal Delay starts from: 1s before, nothing after, a 20s cap,
      no header prefix and no conditions. */
  const Default: Settings := Settings(DefaultBefore, DefaultAfter, "", DefaultMax, [])

  /** The four Option constructors of the package; each stands for the closure
      the Go function of the same name returns. */
  datatype Option =
    | Fixed(before: Duration, after: Duration)
    | Header(prefix: string)
    | Max(maxDuration: Duration)
    | Condition(check: Predicate)

  /** What running one option closure does to a config value. */
  function Applied(s: Settings, o: Option): (t: Settings)
    // each option writes its own fields and leaves every other field alone
    ensures o.Fixed? ==> t.fixedDurationBefore == o.before && t.fixedDurationAfter == o.after
    ensures !o.Fixed? ==> t.fixedDurationBefore == s.fixedDurationBefore && t.fixedDurationAfter == s.fixedDurationAfter
    ensures t.headerPrefix == if o.Header? then o.prefix else s.headerPrefix
    ensures t.max == if o.Max? then o.maxDuration else s.max
    ensures t.conditions == if o.Condition? then s.conditions + [o.check] else s.conditions
  {
    match o
    case Fixed(before, after) => s.(fixedDurationBefore := before, fixedDurationAfter := after)
    case Header(prefix) => s.(headerPrefix := prefix)
    case Max(maxDuration) => s.(max := maxDuration)
    case Condition(check) => s.(conditions := s.conditions + [check])
  }

  /** Running the options left to right, as the loop in Delay does. */
  function AppliedAll(s: Settings, opts: seq<Option>): (t: Settings)
    // conditions are only ever appended: those started from stay, in order,
    // and each option adds at most one
    ensures |s.conditions| <= |t.conditions| <= |s.conditions| + |opts|
    ensures t.conditions[..|s.conditions|] == s.conditions
    // every other field keeps its starting value or comes from one of the options
    ensures (t.fixedDurationBefore == s.fixedDurationBefore && t.fixedDurationAfter == s.fixedDurationAfter)
         || exists i :: 0 <= i < |opts| && opts[i].Fixed?
              && opts[i].before == t.fixedDurationBefore && opts[i].after == t.fixedDurationAfter
    ensures t.headerPrefix == s.headerPrefix
         || exists i :: 0 <= i < |opts| && opts[i].Header? && opts[i].prefix == t.headerPrefix
    ensures t.max == s.max
         || exists i :: 0 <= i < |opts| && opts[i].Max? && opts[i].maxDuration == t.max
    decreases |opts|
  {
    if opts == [] then s else Applied(AppliedAll(s, opts[..|opts| - 1]), opts[|opts| - 1])
  }

  /** The configuration a call Delay(h, opts...) builds: each field holds
      its default or was set by one of the options. */
  function Built(opts: seq<Option>): (b: Settings)
    ensures |b.conditions| <= |opts|
    ensures (b.fixedDurationBefore == DefaultBefore && b.fixedDurationAfter == DefaultAfter)
         || exists i :: 0 <= i < |opts| && opts[i].Fixed?
              && opts[i].before == b.fixedDurationBefore && opts[i].after == b.fixedDurationAfter
    ensures b.headerPrefix == "" || exists i :: 0 <= i < |opts| && opts[i].Header? && opts[i].prefix == b.headerPrefix
    ensures b.max == DefaultMax || exists i :: 0 <= i < |opts| && opts[i].Max? && opts[i].maxDuration == b.max
  {
    AppliedAll(Default, opts)
  }

  /** The config struct, whose fields the option closures write in place. */
  class Config {
    var fixedDurationBefore: Duration
    var fixedDurationAfter: Duration
    var headerPrefix: string
    var max: Duration
    var conditions: seq<Predicate>

    function Value(): Settings
      reads this
    {
      Settings(fixedDurationBefore, fixedDurationAfter, headerPrefix, max, conditions)
    }

    /** The literal config{fixedDurationBefore: 1s, max: 20s}. */
    constructor ()
      ensures Value() == Default
    {
      fixedDurationBefore := DefaultBefore;
      fixedDurationAfter := DefaultAfter;
      headerPrefix := "";
      max := DefaultMax;
      conditions := [];
    }

    /** The closure returned by Fixed(before, after). */
    method SetFixed(before: Duration, after: Duration)
      modifies this
      ensures fixedDurationBefore == before && fixedDurationAfter == after
      ensures headerPrefix == old(headerPrefix) && max == old(max) && conditions == old(conditions)
    {
      fixedDurationBefore := before;
      fixedDurationAfter := after;
    }

    /** The closure returned by Header(prefix). */
    method SetHeader(prefix: string)
      modifies this
      ensures headerPrefix == prefix
      ensures fixedDurationBefore == old(fixedDurationBefore) && fixedDurationAfter == old(fixedDurationAfter)
      ensures max == old(max) && conditions == old(conditions)
    {
      headerPrefix := prefix;
    }

    /** The closure returned by Max(maxDuration). */
    method SetMax(maxDuration: Duration)
      modifies this
      ensures max == maxDuration
      ensures fixedDurationBefore == old(fixedDurationBefore) && fixedDurationAfter == old(fixedDurationAfter)
      ensures headerPrefix == old(headerPrefix) && conditions == old(conditions)
    {
      max := maxDuration;
    }

    /** The closure returned by Condition(check): appends to the slice. */
    method AddCondition(check: Predicate)
      modifies this
      ensures conditions == old(conditions) + [check]
      ensures fixedDurationBefore == old(fixedDurationBefore) && fixedDurationAfter == old(fixedDurationAfter)
      ensures headerPrefix == old(headerPrefix) && max == old(max)
    {
      conditions := conditions + [check];
    }

    /** opt(&cfg): runs one option closure on this config. */
    method Apply(o: Option)
      modifies this
      ensures Value() == Applied(old(Value()), o)
    {
      match o
      case Fixed(before, after) => SetFixed(before, after);
      case Header(prefix) => SetHeader(prefix);
      case Max(maxDuration) => SetMax(maxDuration);
      case Condition(check) => AddCondition(check);
    }

    /** checkConditions: true iff every predicate accepts the request. The
        predicates are called in order and the first false one ends the loop;
        `calls` is how many were called. */
    method CheckConditions(r: Http.Request) returns (ok: bool, ghost calls: nat)
      ensures ok <==> ConditionsHold(conditions, r)
      ensures calls <= |conditions|
      ensures forall j :: 0 <= j < calls - 1 ==> conditions[j](r)
      ensures ok ==> calls == |conditions|
      ensures !ok ==> 0 < calls && !conditions[calls - 1](r)
    {
      var i := 0;
      while i < |conditions|
        invariant 0 <= i <= |conditions|
        invariant forall j :: 0 <= j < i ==> conditions[j](r)
      {
        if !conditions[i](r) {
          return false, i + 1;
        }
        i := i + 1;
      }
      return true, i;
    }

    /** sleep, up to the select: decides whether this phase waits, and for how
        long. The wait itself is left to the caller. */
    method Sleep(r: Http.Request, phase: Phase, parse: Parser) returns (w: Wait)
      ensures w == Resolve(Value(), r, phase, parse)
      ensures w.WaitFor? <==> ConditionsHold(conditions, r)
      ensures w.WaitFor? ==> w.d <= max
    {
      var ok;
      ghost var calls;
      ok, calls := CheckConditions(r);
      if !ok {
        // When at least one condition is not met, there is no delay added.
        return NoWait;
      }
      var d: Duration;
      if headerPrefix != "" {
        var res := ReadHeaderDuration(r, HeaderName(headerPrefix, phase), parse);
        d := res.0;
      } else {
        match phase
        case BeforeHandler => d := fixedDurationBefore;
        case AfterHandler => d := fixedDurationAfter;
      }
      if d > max {
        d := max;
      }
      return WaitFor(d);
    }

    /** cfg.before: the wait ahead of the wrapped handler. */
    method Before(r: Http.Request, parse: Parser) returns (w: Wait)
      ensures w == Resolve(Value(), r, BeforeHandler, parse)
    {
      w := Sleep(r, BeforeHandler, parse);
    }

    /** cfg.after: the wait following the wrapped handler. */
    method After(r: Http.Request, parse: Parser) returns (w: Wait)
      ensures w == Resolve(Value(), r, AfterHandler, parse)
    {
      w := Sleep(r, AfterHandler, parse);
    }

    /** The handler Delay returns: wait before, stop if the request is done,
        run the wrapped handler, stop if the request is done, wait after.
        The trace records the waits asked for and the handler invocation. */
    method Serve(r: Http.Request, parse: Parser, done: Cancellation) returns (trace: seq<Event>)
      ensures trace == Run(Value(), r, parse, done)
      ensures Ordered(trace)
      ensures Invoked in trace <==> !done.afterBefore
    {
      var w := Before(r, parse);
      trace := [];
      if w.WaitFor? {
        trace := trace + [Waited(BeforeHandler, w.d)];
      }
      if done.afterBefore {
        return;
      }
      trace := trace + [Invoked];
      if done.afterHandler {
        return;
      }
      w := After(r, parse);
      if w.WaitFor? {
        trace := trace + [Waited(AfterHandler, w.d)];
      }
    }
  }

  /** Delay(h, opts...): a fresh config at the defaults, then each option in
      the order given. The returned handler is the new config's Serve. */
  method Delay(opts: seq<Option>) returns (cfg: Config)
    ensures fresh(cfg)
    ensures cfg.Value() == Built(opts)
  {
    cfg := new Config();
    for i := 0 to |opts|
      invariant cfg.Value() == AppliedAll(Default, opts[..i])
    {
      assert opts[..i + 1][..i] == opts[..i];
      cfg.Apply(opts[i]);
    }
    assert opts[..|opts|] == opts;
  }

  // ---------------------------------------------------------------------------
  // Resolving the duration of one phase
  // ---------------------------------------------------------------------------

  /** The two places sleep is called from: before and after the handler. */
  datatype Phase = BeforeHandler | AfterHandler

  /** The string sleep receives, which also ends the header name. */
  function PhaseName(p: Phase): (n: string)
    ensures n == "before" || n == "after"
    ensures n == "before" <==> p == BeforeHandler
  {
    match p
    case BeforeHandler => "before"
    case AfterHandler => "after"
  }

  /** The name of the header that controls a phase: "<prefix>-before" or
      "<prefix>-after". */
  function HeaderName(prefix: string, p: Phase): (h: string)
    // the prefix, a dash, then the phase's name, and nothing else
    ensures |h| == |prefix| + 1 + |PhaseName(p)|
    ensures h[..|prefix|] == prefix && h[|prefix|] == '-' && h[|prefix| + 1..] == PhaseName(p)
  {
    prefix + "-" + PhaseName(p)
  }

  /** readHeaderDuration: the header's value parsed as a duration, with a flag
      saying whether that worked. An empty or absent value and a parse error
      both give (0, false); there is no error path. */
  function ReadHeaderDuration(r: Http.Request, name: string, parse: Parser): (res: (Duration, bool))
    ensures res.1 <==> Http.Get(r.header, name) != "" && parse(Http.Get(r.header, name)).ParseOk?
    ensures res.1 ==> res.0 == parse(Http.Get(r.header, name)).d
    ensures !res.1 ==> res.0 == 0
  {
    var value := Http.Get(r.header, name);
    if value == "" then (0, false)
    else match parse(value)
      case ParseErr => (0, false)
      case ParseOk(d) => (d, true)
  }

  /** Every condition accepts the request (vacuously so when there are none). */
  function ConditionsHold(conditions: seq<Predicate>, r: Http.Request): (ok: bool)
    ensures ok <==> forall i :: 0 <= i < |conditions| ==> conditions[i](r)
  {
    conditions == [] || (conditions[0](r) && ConditionsHold(conditions[1..], r))
  }

  /** The duration a phase asks for before the cap: the header's when a prefix
      is set, the fixed one for the phase otherwise. */
  function Requested(s: Settings, r: Http.Request, p: Phase, parse: Parser): (d: Duration)
    // in header mode a non-zero duration is exactly what the phase's header parses to
    ensures s.headerPrefix != "" && d != 0 ==> parse(Http.Get(r.header, HeaderName(s.headerPrefix, p))) == ParseOk(d)
    // otherwise it is one of the two fixed durations, whatever the headers hold
    ensures s.headerPrefix == "" ==> d == s.fixedDurationBefore || d == s.fixedDurationAfter
  {
    if s.headerPrefix != "" then ReadHeaderDuration(r, HeaderName(s.headerPrefix, p), parse).0
    else match p
      case BeforeHandler => s.fixedDurationBefore
      case AfterHandler => s.fixedDurationAfter
  }

  /** `if d > max { d = max }`: the smaller of the two; there is no floor. */
  function Cap(d: Duration, max: Duration): (c: Duration)
    ensures c <= d && c <= max
    ensures c == d || c == max
  {
    if d > max then max else d
  }

  /** Whether sleep reaches its select, and with which duration. */
  datatype Wait = NoWait | WaitFor(d: Duration)

  /** What one call of sleep decides for a phase. */
  function Resolve(s: Settings, r: Http.Request, p: Phase, parse: Parser): (w: Wait)
    ensures w.WaitFor? <==> ConditionsHold(s.conditions, r)
    ensures w.WaitFor? ==> w.d <= s.max
  {
    if !ConditionsHold(s.conditions, r) then NoWait
    else WaitFor(Cap(Requested(s, r, p, parse), s.max))
  }

  // ---------------------------------------------------------------------------
  // The returned handler
  // ---------------------------------------------------------------------------

  /** The cancellation oracle: what isDone(r.Context()) answers at each of
      its two call sites. */
  datatype Cancellation = Cancellation(afterBefore: bool, afterHandler: bool)

  /** What the returned handler does, in order: a wait for a phase, asked for
      a given duration (cut short if the request is cancelled meanwhile),
      or the one call of the wrapped handler. */
  datatype Event = Waited(phase: Phase, d: Duration) | Invoked

  /** The events of one phase's sleep. */
  function PhaseTrace(w: Wait, p: Phase): (t: seq<Event>)
    // nothing when sleep returns early, else one wait of the resolved duration
    ensures |t| <= 1 && (t == [] <==> w == NoWait)
    ensures w.WaitFor? ==> t == [Waited(p, w.d)]
  {
    match w
    case NoWait => []
    case WaitFor(d) => [Waited(p, d)]
  }

  /** The events of one call of the returned handler. */
  function Run(s: Settings, r: Http.Request, parse: Parser, done: Cancellation): (t: seq<Event>)
    ensures Ordered(t)
    ensures Invoked in t <==> !done.afterBefore
  {
    var after := if done.afterHandler then [] else PhaseTrace(Resolve(s, r, AfterHandler, parse), AfterHandler);
    PhaseTrace(Resolve(s, r, BeforeHandler, parse), BeforeHandler)
    + (if done.afterBefore then [] else [Invoked] + after)
  }

  /** Position in the fixed sequence before-wait, handler, after-wait. */
  function Stage(e: Event): nat
  {
    match e
    case Waited(BeforeHandler, _) => 0
    case Invoked => 1
    case Waited(AfterHandler, _) => 2
  }

  /** Each event comes strictly later in the sequence than the one before it:
      so every kind of event happens at most once, and in that order. */
  predicate Ordered(t: seq<Event>)
  {
    forall i, j :: 0 <= i < j < |t| ==> Stage(t[i]) < Stage(t[j])
  }
}
