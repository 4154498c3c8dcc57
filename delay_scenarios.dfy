/** The scenarios of the package's tests (delay_test.go), stated on traces
    instead of measured response times: which waits are asked for, how long
    they are, and whether the wrapped handler runs. */
module SlowdownScenarios {

  import Http
  import opened Slowdown
  import opened SlowdownProperties

  const Ms: Duration := Millisecond

  /** Building from one option is applying it to the defaults. */
  lemma BuiltOne(o: Option)
    ensures Built([o]) == Applied(Default, o)
  {
    assert [o][..0] == [];
    assert AppliedAll(Default, [o]) == Applied(AppliedAll(Default, []), o);
  }

  /** Building from two options applies the first, then the second. */
  lemma BuiltTwo(o1: Option, o2: Option)
    ensures Built([o1, o2]) == Applied(Applied(Default, o1), o2)
  {
    assert [o1, o2][..1] == [o1];
    BuiltOne(o1);
  }

  /** The latency of a complete run: the sum of both (non-negative) waits. */
  lemma LatencyOfThree(before: Duration, after: Duration)
    requires 0 <= before && 0 <= after
    ensures Latency([Waited(BeforeHandler, before), Invoked, Waited(AfterHandler, after)]) == before + after
  {
    var t := [Waited(BeforeHandler, before), Invoked, Waited(AfterHandler, after)];
    assert t[1..] == [Invoked, Waited(AfterHandler, after)];
    assert t[1..][1..] == [Waited(AfterHandler, after)];
    assert t[1..][1..][1..] == [];
    assert Latency(t[1..][1..]) == after;
    assert Latency(t[1..]) == after;
  }

  /** Delay(h): 1s before the handler, a zero wait after it. */
  lemma NoArguments(r: Http.Request, parse: Parser)
    ensures Run(Built([]), r, parse, NotCancelled)
         == [Waited(BeforeHandler, Second), Invoked, Waited(AfterHandler, 0)]
    ensures Latency(Run(Built([]), r, parse, NotCancelled)) == Second
  {
    LatencyOfThree(Second, 0);
  }

  /** Delay(h, Fixed(before, after)): each phase waits its fixed duration when
      it is within the default 20s cap, so the added latency is their sum. */
  lemma FixedBeforeAfter(before: Duration, after: Duration, r: Http.Request, parse: Parser)
    requires 0 <= before <= DefaultMax && 0 <= after <= DefaultMax
    ensures Run(Built([Fixed(before, after)]), r, parse, NotCancelled)
         == [Waited(BeforeHandler, before), Invoked, Waited(AfterHandler, after)]
    ensures Latency(Run(Built([Fixed(before, after)]), r, parse, NotCancelled)) == before + after
  {
    BuiltOne(Fixed(before, after));
    LatencyOfThree(before, after);
  }

  /** The names Header("delay") makes the two phases read. */
  lemma DelayHeaderNames()
    ensures HeaderName("delay", BeforeHandler) == "delay-before"
    ensures HeaderName("delay", AfterHandler) == "delay-after"
  {
    assert "delay" + "-" + "before" == "delay-before";
    assert "delay" + "-" + "after" == "delay-after";
  }

  /** The request of the header tests: "delay-before" and "delay-after" set. */
  function DelayHeaders(before: string, after: string): Http.Headers
  {
    map["delay-before" := before, "delay-after" := after]
  }

  /** Delay(h, Header("delay")) with "delay-before: 300ms" and "delay-after: 700ms". */
  lemma HeaderBeforeAfter(r: Http.Request, parse: Parser)
    requires r.header == DelayHeaders("300ms", "700ms")
    requires parse("300ms") == ParseOk(300 * Ms) && parse("700ms") == ParseOk(700 * Ms)
    ensures Run(Built([Header("delay")]), r, parse, NotCancelled)
         == [Waited(BeforeHandler, 300 * Ms), Invoked, Waited(AfterHandler, 700 * Ms)]
  {
    BuiltOne(Header("delay"));
    DelayHeaderNames();
  }

  /** Delay(h, Header("delay")) on a request without those headers: zero waits. */
  lemma HeaderAbsent(r: Http.Request, parse: Parser)
    requires "delay-before" !in r.header && "delay-after" !in r.header
    ensures Run(Built([Header("delay")]), r, parse, NotCancelled)
         == [Waited(BeforeHandler, 0), Invoked, Waited(AfterHandler, 0)]
  {
    BuiltOne(Header("delay"));
    DelayHeaderNames();
  }

  /** Delay(h, Header("delay"), Max(100ms)) with 300ms and 700ms asked for:
      each phase is cut to 100ms, 200ms in all. */
  lemma MaxExceeded(r: Http.Request, parse: Parser)
    requires r.header == DelayHeaders("300ms", "700ms")
    requires parse("300ms") == ParseOk(300 * Ms) && parse("700ms") == ParseOk(700 * Ms)
    ensures Run(Built([Header("delay"), Max(100 * Ms)]), r, parse, NotCancelled)
         == [Waited(BeforeHandler, 100 * Ms), Invoked, Waited(AfterHandler, 100 * Ms)]
    ensures Latency(Run(Built([Header("delay"), Max(100 * Ms)]), r, parse, NotCancelled)) == 200 * Ms
  {
    DelayHeaderNames();
    BuiltTwo(Header("delay"), Max(100 * Ms));
    LatencyOfThree(100 * Ms, 100 * Ms);
  }

  /** Delay(h, Header("delay"), Max(600ms)) with 100ms and 150ms asked for:
      the cap does not bite. */
  lemma MaxNotExceeded(r: Http.Request, parse: Parser)
    requires r.header == DelayHeaders("100ms", "150ms")
    requires parse("100ms") == ParseOk(100 * Ms) && parse("150ms") == ParseOk(150 * Ms)
    ensures Run(Built([Header("delay"), Max(600 * Ms)]), r, parse, NotCancelled)
         == [Waited(BeforeHandler, 100 * Ms), Invoked, Waited(AfterHandler, 150 * Ms)]
  {
    BuiltTwo(Header("delay"), Max(600 * Ms));
    DelayHeaderNames();
  }

  /** Delay(h, Header("")): the empty prefix leaves the handler in fixed mode,
      so it still waits the default 1s before, with no headers involved. */
  lemma EmptyHeaderWaitsDefault(r: Http.Request, parse: Parser)
    ensures Run(Built([Header("")]), r, parse, NotCancelled)
         == [Waited(BeforeHandler, Second), Invoked, Waited(AfterHandler, 0)]
  {
    BuiltOne(Header(""));
  }

  /** Delay(h, Header(""), Fixed(300ms, 700ms)): Fixed is not ignored. */
  lemma EmptyHeaderKeepsFixed(r: Http.Request, parse: Parser)
    ensures Run(Built([Header(""), Fixed(300 * Ms, 700 * Ms)]), r, parse, NotCancelled)
         == [Waited(BeforeHandler, 300 * Ms), Invoked, Waited(AfterHandler, 700 * Ms)]
  {
    BuiltTwo(Header(""), Fixed(300 * Ms, 700 * Ms));
  }

  /** The API-key predicate of the condition tests. */
  predicate ValidApiKey(r: Http.Request)
  {
    Http.Get(r.header, "apikey") in {"x96f3s6", "89qWsd2"}
  }

  /** Delay(h, Header("delay"), Condition(validApiKey)) with an unknown key:
      no wait at all, and the handler still runs. */
  lemma ConditionUnmet(r: Http.Request, parse: Parser)
    requires Http.Get(r.header, "apikey") == "passw0rd"
    ensures Run(Built([Header("delay"), Condition(ValidApiKey)]), r, parse, NotCancelled) == [Invoked]
  {
    RejectingConditionMeansNoDelay([Header("delay"), Condition(ValidApiKey)], 1, r, parse);
  }

  /** Delay(h, Header("delay"), Condition(validApiKey)) with a known key and
      "delay-before: 100ms": the before-wait is the header's. */
  lemma ConditionMet(r: Http.Request, parse: Parser)
    requires r.header == map["delay-before" := "100ms", "apikey" := "x96f3s6"]
    requires parse("100ms") == ParseOk(100 * Ms)
    ensures Run(Built([Header("delay"), Condition(ValidApiKey)]), r, parse, NotCancelled)
         == [Waited(BeforeHandler, 100 * Ms), Invoked, Waited(AfterHandler, 0)]
  {
    var s := Settings(DefaultBefore, DefaultAfter, "delay", DefaultMax, [ValidApiKey]);
    BuiltTwo(Header("delay"), Condition(ValidApiKey));
    assert Built([Header("delay"), Condition(ValidApiKey)]) == s;
    assert ValidApiKey(r);
    assert ConditionsHold(s.conditions, r);
    DelayHeaderNames();
    assert Resolve(s, r, BeforeHandler, parse) == WaitFor(100 * Ms);
    assert Resolve(s, r, AfterHandler, parse) == WaitFor(0);
  }

  /** Delay(h, Fixed(500ms, 0)) on a request cancelled during the before-wait:
      the wrapped handler is never called, and nothing follows the wait. */
  lemma ContextCanceled(r: Http.Request, parse: Parser, afterHandler: bool)
    ensures Run(Built([Fixed(500 * Ms, 0)]), r, parse, Cancellation(true, afterHandler))
         == [Waited(BeforeHandler, 500 * Ms)]
  {
    BuiltOne(Fixed(500 * Ms, 0));
  }
}
