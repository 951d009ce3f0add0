/**
 Circuit breakers and provider selection. A breaker is measured against the trace of what
 happened to it: successes, failures, and the times at which it was asked.
 */
module Providers {
  import opened Basics
  import opened Wrappers
  import opened StableSorting
  import opened OrderedDict

  datatype CircuitState = Closed | Open | HalfOpen

  datatype Event = Succeeded | Failed(at: real) | Asked(at: real)

  const THRESHOLD := 5
  const RECOVERY := 60.0

  // ---------------------------------------------------------------- the breaker as values

  datatype Breaker = Breaker(state: CircuitState, failureCount: nat, successCount: nat, lastFailureTime: real,
                             totalRequests: nat, totalFailures: nat)

  const FRESH := Breaker(Closed, 0, 0, 0.0, 0, 0)

  predicate Admits(b: Breaker, now: real) { !b.state.Open? || now - b.lastFailureTime >= RECOVERY }

  function Apply(b: Breaker, e: Event): Breaker {
    match e
    case Succeeded =>
      b.(totalRequests := b.totalRequests + 1, failureCount := 0,
         state := if b.state.HalfOpen? then Closed else b.state,
         successCount := if b.state.HalfOpen? then 0 else b.successCount)
    case Failed(at) =>
      b.(totalRequests := b.totalRequests + 1, totalFailures := b.totalFailures + 1,
         failureCount := b.failureCount + 1, lastFailureTime := at,
         state := if b.state.HalfOpen? || (b.state.Closed? && b.failureCount + 1 >= THRESHOLD) then Open else b.state)
    case Asked(at) => if b.state.Open? && Admits(b, at) then b.(state := HalfOpen) else b
  }

  function Replay(trace: seq<Event>): Breaker {
    if trace == [] then FRESH else Apply(Replay(trace[..|trace| - 1]), trace[|trace| - 1])
  }

  lemma ReplayStep(trace: seq<Event>, e: Event)
    ensures Replay(trace + [e]) == Apply(Replay(trace), e)
  {
    assert (trace + [e])[..|trace|] == trace;
  }

  // ---------------------------------------------------------------- what a trace says

  function IsFailure(e: Event): nat { if e.Failed? then 1 else 0 }

  function FailureTotal(trace: seq<Event>): nat {
    if trace == [] then 0 else FailureTotal(trace[..|trace| - 1]) + IsFailure(trace[|trace| - 1])
  }

  function CallTotal(trace: seq<Event>): nat {
    if trace == [] then 0 else CallTotal(trace[..|trace| - 1]) + if trace[|trace| - 1].Asked? then 0 else 1
  }

  /** The part of the trace after its last success. */
  function SinceSuccess(trace: seq<Event>): seq<Event> {
    if trace == [] || trace[|trace| - 1].Succeeded? then []
    else SinceSuccess(trace[..|trace| - 1]) + [trace[|trace| - 1]]
  }

  function LastFailure(trace: seq<Event>): Option<real> {
    if trace == [] then None
    else if trace[|trace| - 1].Failed? then Some(trace[|trace| - 1].at)
    else LastFailure(trace[..|trace| - 1])
  }

  /** Clock readings never go back, up to `now`. */
  ghost predicate Timely(trace: seq<Event>, now: real) {
    trace != [] ==>
      var e := trace[|trace| - 1];
      if e.Succeeded? then Timely(trace[..|trace| - 1], now) else e.at <= now && Timely(trace[..|trace| - 1], e.at)
  }

  lemma TotalStep(s: seq<Event>, e: Event)
    ensures FailureTotal(s + [e]) == FailureTotal(s) + IsFailure(e)
    ensures CallTotal(s + [e]) == CallTotal(s) + if e.Asked? then 0 else 1
    ensures LastFailure(s + [e]) == if e.Failed? then Some(e.at) else LastFailure(s)
    ensures SinceSuccess(s + [e]) == if e.Succeeded? then [] else SinceSuccess(s) + [e]
  {
    assert (s + [e])[..|s|] == s;
  }

  ghost predicate Counts(b: Breaker, failures: nat, allFailures: nat, calls: nat, last: Option<real>) {
    && b.failureCount == failures && b.totalFailures == allFailures && b.totalRequests == calls && b.successCount == 0
    && (b.state.Closed? ==> b.failureCount < 5)
    && (!b.state.Closed? ==> last.Some?)
    && (last.Some? ==> b.lastFailureTime == last.value)
  }

  lemma CountsStep(b: Breaker, e: Event, failures: nat, allFailures: nat, calls: nat, last: Option<real>)
    requires Counts(b, failures, allFailures, calls, last)
    ensures Counts(Apply(b, e), if e.Succeeded? then 0 else failures + IsFailure(e), allFailures + IsFailure(e),
                   calls + (if e.Asked? then 0 else 1), if e.Failed? then Some(e.at) else last)
  {}

  lemma CountsGrow(trace: seq<Event>, e: Event)
    requires Counts(Replay(trace), FailureTotal(SinceSuccess(trace)), FailureTotal(trace), CallTotal(trace), LastFailure(trace))
    ensures Counts(Replay(trace + [e]), FailureTotal(SinceSuccess(trace + [e])), FailureTotal(trace + [e]),
                   CallTotal(trace + [e]), LastFailure(trace + [e]))
  {
    CountsStep(Replay(trace), e, FailureTotal(SinceSuccess(trace)), FailureTotal(trace), CallTotal(trace), LastFailure(trace));
    ReplayStep(trace, e);
    TotalStep(trace, e);
    TotalStep(SinceSuccess(trace), e);
  }

  /**
   The failure count is the number of failures since the last success, the totals count the whole
   trace, a closed breaker is below the threshold, and one that is not closed has failed at some
   time, the time it remembers.
   */
  lemma {:induction false} CountsTheTrace(trace: seq<Event>)
    ensures Counts(Replay(trace), FailureTotal(SinceSuccess(trace)), FailureTotal(trace), CallTotal(trace), LastFailure(trace))
  {
    if trace != [] {
      var before, e := trace[..|trace| - 1], trace[|trace| - 1];
      assert trace == before + [e];
      CountsTheTrace(before);
      CountsGrow(before, e);
    }
  }

  /** It opens on the fifth failure in a row while closed, on a failed probe, and on nothing else. */
  lemma OpensExactly(trace: seq<Event>, e: Event)
    ensures (!Replay(trace).state.Open? && Replay(trace + [e]).state.Open?)
            <==> e.Failed? && (Replay(trace).state.HalfOpen?
                                || (Replay(trace).state.Closed? && FailureTotal(SinceSuccess(trace + [e])) == 5))
  {
    ReplayStep(trace, e);
    CountsTheTrace(trace);
    CountsTheTrace(trace + [e]);
  }

  /** It closes on a successful probe and on nothing else: a success while open leaves it open. */
  lemma ClosesExactly(trace: seq<Event>, e: Event)
    ensures (!Replay(trace).state.Closed? && Replay(trace + [e]).state.Closed?)
            <==> e.Succeeded? && Replay(trace).state.HalfOpen?
  {
    ReplayStep(trace, e);
  }

  // ---------------------------------------------------------------- the state, read off the trace

  /** The question at `a` comes a minute or more after the latest failure before it. */
  predicate AskedLateAt(trace: seq<Event>, a: nat) {
    && a < |trace| && trace[a].Asked?
    && LastFailure(trace[..a]).Some? && trace[a].at - LastFailure(trace[..a]).value >= 60.0
  }

  /** Some question came late, and no failure since. */
  ghost predicate AskedLate(trace: seq<Event>) {
    exists a: nat :: AskedLateAt(trace, a) && forall j :: a < j < |trace| ==> !trace[j].Failed?
  }

  ghost predicate RecoversAt(trace: seq<Event>, i: nat) {
    i < |trace| && trace[i].Succeeded? && AskedLate(trace[..i])
  }

  /** The p-th event is a failure that makes five or more since the last success. */
  ghost predicate TripsAt(trace: seq<Event>, p: nat) {
    1 <= p <= |trace| && trace[p - 1].Failed? && FailureTotal(SinceSuccess(trace[..p])) >= 5
  }

  ghost predicate Tripped(trace: seq<Event>) {
    exists p: nat :: TripsAt(trace, p) && forall i: nat :: p <= i < |trace| ==> !RecoversAt(trace, i)
  }

  lemma AskedLateGrows(trace: seq<Event>, e: Event)
    requires !e.Failed?
    requires AskedLate(trace) || (e.Asked? && LastFailure(trace).Some? && e.at - LastFailure(trace).value >= 60.0)
    ensures AskedLate(trace + [e])
  {
    var longer := trace + [e];
    var n := |trace|;
    if AskedLate(trace) {
      var a: nat :| AskedLateAt(trace, a) && forall j :: a < j < n ==> !trace[j].Failed?;
      assert longer[..a] == trace[..a] && AskedLateAt(longer, a);
      assert forall j :: a < j < |longer| ==> longer[j] == if j < n then trace[j] else e;
    } else {
      assert longer[..n] == trace && AskedLateAt(longer, n);
    }
  }

  lemma AskedLateStep(trace: seq<Event>, e: Event)
    ensures AskedLate(trace + [e])
            <==> !e.Failed? && (AskedLate(trace) || (e.Asked? && LastFailure(trace).Some?
                                                      && e.at - LastFailure(trace).value >= 60.0))
  {
    var longer := trace + [e];
    var n := |trace|;
    if AskedLate(longer) {
      var a: nat :| AskedLateAt(longer, a) && forall j :: a < j < |longer| ==> !longer[j].Failed?;
      assert longer[..a] == trace[..a] && longer[n] == e;
      if a < n {
        assert forall j :: a < j < n ==> trace[j] == longer[j];
        assert AskedLateAt(trace, a);
      }
    } else if !e.Failed? && (AskedLate(trace) || (e.Asked? && LastFailure(trace).Some?
                                                   && e.at - LastFailure(trace).value >= 60.0)) {
      AskedLateGrows(trace, e);
    }
  }

  lemma TrippedGrows(trace: seq<Event>, e: Event)
    requires (e.Failed? && FailureTotal(SinceSuccess(trace + [e])) >= 5)
             || (Tripped(trace) && !(e.Succeeded? && AskedLate(trace)))
    ensures Tripped(trace + [e])
  {
    var longer := trace + [e];
    var n := |trace|;
    assert longer[..n + 1] == longer;
    if Tripped(trace) && !(e.Succeeded? && AskedLate(trace)) {
      var p: nat :| TripsAt(trace, p) && forall i: nat :: p <= i < n ==> !RecoversAt(trace, i);
      assert longer[..p] == trace[..p] && TripsAt(longer, p);
      forall i: nat | p <= i < |longer| ensures !RecoversAt(longer, i) {
        assert longer[..i] == trace[..i];
        assert i < n ==> !RecoversAt(trace, i);
      }
    } else {
      assert TripsAt(longer, n + 1);
    }
  }

  lemma PrefixAt(trace: seq<Event>, e: Event, p: nat)
    requires p <= |trace|
    ensures TripsAt(trace + [e], p) == TripsAt(trace, p)
    ensures p < |trace| ==> RecoversAt(trace + [e], p) == RecoversAt(trace, p)
    ensures p == |trace| ==> RecoversAt(trace + [e], p) == (e.Succeeded? && AskedLate(trace))
  {
    assert (trace + [e])[..p] == trace[..p];
    assert trace[..|trace|] == trace;
  }

  lemma TrippedShrinks(trace: seq<Event>, e: Event)
    requires Tripped(trace + [e]) && !TripsAt(trace + [e], |trace| + 1)
    ensures Tripped(trace) && !(e.Succeeded? && AskedLate(trace))
  {
    var longer := trace + [e];
    var n := |trace|;
    var p: nat :| TripsAt(longer, p) && forall i: nat :: p <= i < n + 1 ==> !RecoversAt(longer, i);
    PrefixAt(trace, e, p);
    PrefixAt(trace, e, n);
    assert !RecoversAt(longer, n);
    forall i: nat | p <= i < n ensures !RecoversAt(trace, i) {
      PrefixAt(trace, e, i);
      assert !RecoversAt(longer, i);
    }
  }

  lemma TrippedStep(trace: seq<Event>, e: Event)
    ensures Tripped(trace + [e])
            <==> (e.Failed? && FailureTotal(SinceSuccess(trace + [e])) >= 5)
                 || (Tripped(trace) && !(e.Succeeded? && AskedLate(trace)))
  {
    if (e.Failed? && FailureTotal(SinceSuccess(trace + [e])) >= 5) || (Tripped(trace) && !(e.Succeeded? && AskedLate(trace))) {
      TrippedGrows(trace, e);
    } else if Tripped(trace + [e]) {
      assert (trace + [e])[..|trace| + 1] == trace + [e];
      TrippedShrinks(trace, e);
    }
  }

  function StateOf(tripped: bool, late: bool): CircuitState {
    if !tripped then Closed else if late then HalfOpen else Open
  }

  lemma StateStep(b: Breaker, e: Event, last: Option<real>, count: nat, was: (bool, bool), now: (bool, bool))
    requires b.state == StateOf(was.0, was.1)
    requires now.1 <==> !e.Failed? && (was.1 || (e.Asked? && last.Some? && e.at - last.value >= 60.0))
    requires now.0 <==> (e.Failed? && count >= 5) || (was.0 && !(e.Succeeded? && was.1))
    requires e.Failed? ==> count == b.failureCount + 1
    requires b.state.Closed? ==> b.failureCount < 5
    requires !b.state.Closed? ==> last.Some? && b.lastFailureTime == last.value
    ensures Apply(b, e).state == StateOf(now.0, now.1)
  {}

  lemma FailureCounts(trace: seq<Event>, e: Event)
    requires e.Failed?
    ensures FailureTotal(SinceSuccess(trace + [e])) == FailureTotal(SinceSuccess(trace)) + 1
  {
    var s := SinceSuccess(trace);
    assert (trace + [e])[..|trace|] == trace && (s + [e])[..|s|] == s;
  }

  /**
   The state in terms of the trace alone. The breaker is not closed exactly when five failures came
   without a success between them and no success since then followed a late question; and then it
   is half open exactly when a question came late and no failure since.
   */
  lemma {:induction false} StateIsReadOffTheTrace(trace: seq<Event>)
    ensures Replay(trace).state == StateOf(Tripped(trace), AskedLate(trace))
  {
    if trace != [] {
      var n := |trace| - 1;
      StateIsReadOffTheTrace(trace[..n]);
      StateGrows(trace[..n], trace[n]);
      assert trace == trace[..n] + [trace[n]];
    }
  }

  lemma StateGrows(trace: seq<Event>, e: Event)
    requires Replay(trace).state == StateOf(Tripped(trace), AskedLate(trace))
    ensures Replay(trace + [e]).state == StateOf(Tripped(trace + [e]), AskedLate(trace + [e]))
  {
    CountsTheTrace(trace);
    AskedLateStep(trace, e);
    TrippedStep(trace, e);
    ReplayStep(trace, e);
    var count := FailureTotal(SinceSuccess(trace + [e]));
    if e.Failed? { FailureCounts(trace, e); }
    StateStep(Replay(trace), e, LastFailure(trace), count, (Tripped(trace), AskedLate(trace)),
              (Tripped(trace + [e]), AskedLate(trace + [e])));
  }

  /** A question that comes too early after the last failure before it. */
  ghost predicate TooEarly(trace: seq<Event>, ext: seq<Event>, i: nat)
    requires i < |ext|
  {
    ext[i].Asked? ==>
      LastFailure(trace + ext[..i]).Some? && ext[i].at - LastFailure(trace + ext[..i]).value < 60.0
  }

  ghost predicate OpenThroughout(trace: seq<Event>, ext: seq<Event>) {
    forall i: nat :: i <= |ext| ==> Replay(trace + ext[..i]).state.Open?
  }

  ghost predicate AllTooEarly(trace: seq<Event>, ext: seq<Event>) {
    forall i: nat :: i < |ext| ==> TooEarly(trace, ext, i)
  }

  lemma OpenStep(trace: seq<Event>, ext: seq<Event>)
    requires ext != []
    ensures OpenThroughout(trace, ext)
            <==> OpenThroughout(trace, ext[..|ext| - 1]) && Replay(trace + ext[..|ext|]).state.Open?
  {
    var shorter := ext[..|ext| - 1];
    assert forall i: nat :: i < |ext| ==> shorter[..i] == ext[..i];
    assert OpenThroughout(trace, ext) ==> OpenThroughout(trace, shorter) by {
      if OpenThroughout(trace, ext) {
        forall i: nat | i <= |shorter| ensures Replay(trace + shorter[..i]).state.Open? {
          assert Replay(trace + ext[..i]).state.Open?;
        }
      }
    }
    if OpenThroughout(trace, shorter) && Replay(trace + ext[..|ext|]).state.Open? {
      forall i: nat | i <= |ext| ensures Replay(trace + ext[..i]).state.Open? {
        if i < |ext| { assert Replay(trace + shorter[..i]).state.Open?; }
      }
    }
  }

  lemma EarlyStep(trace: seq<Event>, ext: seq<Event>)
    requires ext != []
    ensures AllTooEarly(trace, ext) <==> AllTooEarly(trace, ext[..|ext| - 1]) && TooEarly(trace, ext, |ext| - 1)
  {
    var n := |ext| - 1;
    var shorter := ext[..n];
    forall i: nat | i < n ensures TooEarly(trace, shorter, i) == TooEarly(trace, ext, i) {
      assert shorter[..i] == ext[..i];
    }
    if AllTooEarly(trace, shorter) && TooEarly(trace, ext, n) {
      forall i: nat | i < |ext| ensures TooEarly(trace, ext, i) {
        if i < n { assert TooEarly(trace, shorter, i); }
      }
    }
  }

  /**
   An open breaker stays open, refusing every question, through any events whatever, successes
   included, as long as each question comes within a minute of the latest failure; and no longer.
   */
  lemma {:induction false} StaysOpenExactly(trace: seq<Event>, ext: seq<Event>)
    requires Replay(trace).state.Open?
    ensures OpenThroughout(trace, ext) <==> AllTooEarly(trace, ext)
  {
    if ext == [] {
      assert trace + ext[..0] == trace;
    } else {
      var shorter := ext[..|ext| - 1];
      StaysOpenExactly(trace, shorter);
      OpenStep(trace, ext);
      EarlyStep(trace, ext);
      if OpenThroughout(trace, shorter) {
        assert shorter[..|shorter|] == shorter;
        LastStep(trace, ext);
      }
    }
  }

  lemma LastStep(trace: seq<Event>, ext: seq<Event>)
    requires ext != [] && Replay(trace + ext[..|ext| - 1]).state.Open?
    ensures Replay(trace + ext[..|ext|]).state.Open? <==> TooEarly(trace, ext, |ext| - 1)
  {
    var before := trace + ext[..|ext| - 1];
    var e := ext[|ext| - 1];
    assert trace + ext[..|ext|] == before + [e];
    ReplayStep(before, e);
    CountsTheTrace(before);
  }

  /** Half open, it lets any number of requests through at any times, not one. */
  lemma {:induction false} HalfOpenAdmitsAll(trace: seq<Event>, probes: seq<Event>)
    requires Replay(trace).state.HalfOpen? && forall e :: e in probes ==> e.Asked?
    ensures Replay(trace + probes) == Replay(trace)
    ensures forall now :: Admits(Replay(trace + probes), now)
  {
    if probes == [] {
      assert trace + probes == trace;
    } else {
      var n := |probes| - 1;
      assert probes[n] in probes;
      HalfOpenAdmitsAll(trace, probes[..n]);
      ReplayStep(trace + probes[..n], probes[n]);
      assert trace + probes == (trace + probes[..n]) + [probes[n]];
    }
  }

  lemma {:induction false} TimelyLastFailure(trace: seq<Event>, now: real)
    requires Timely(trace, now)
    ensures LastFailure(trace).Some? ==> LastFailure(trace).value <= now
    ensures Replay(trace).state.HalfOpen? ==> LastFailure(trace).Some? && now - LastFailure(trace).value >= 60.0
  {
    if trace != [] {
      var n := |trace| - 1;
      var e := trace[n];
      TimelyLastFailure(trace[..n], if e.Succeeded? then now else e.at);
      CountsTheTrace(trace[..n]);
      assert trace == trace[..n] + [e];
      ReplayStep(trace[..n], e);
    }
  }

  /** Under a clock that never goes back, availability is readable off the trace's end. */
  lemma AdmitsExactly(trace: seq<Event>, now: real)
    requires Timely(trace, now)
    ensures Admits(Replay(trace), now)
            <==> Replay(trace).state.Closed? || (LastFailure(trace).Some? && now - LastFailure(trace).value >= 60.0)
  {
    CountsTheTrace(trace);
    TimelyLastFailure(trace, now);
  }

  class CircuitBreaker {
    var state: CircuitState
    var failureCount: nat
    var successCount: nat
    var lastFailureTime: real
    var totalRequests: nat
    var totalFailures: nat
    ghost const owner: string
    ghost var trace: seq<Event>

    ghost function View(): Breaker
      reads this
    {
      Breaker(state, failureCount, successCount, lastFailureTime, totalRequests, totalFailures)
    }

    ghost predicate Valid()
      reads this
    {
      View() == Replay(trace)
    }

    constructor (ghost owner: string)
      ensures Valid() && trace == [] && this.owner == owner
    {
      this.owner := owner;
      state, failureCount, successCount, lastFailureTime := Closed, 0, 0, 0.0;
      totalRequests, totalFailures := 0, 0;
      trace := [];
    }

    method RecordSuccess()
      requires Valid()
      modifies this
      ensures Valid() && trace == old(trace) + [Succeeded]
    {
      totalRequests := totalRequests + 1;
      failureCount := 0;
      if state.HalfOpen? {
        successCount := successCount + 1;
        if successCount >= 1 {
          state := Closed;
          successCount := 0;
        }
      }
      ReplayStep(trace, Succeeded);
      trace := trace + [Succeeded];
    }

    method RecordFailure(now: real)
      requires Valid()
      modifies this
      ensures Valid() && trace == old(trace) + [Failed(now)]
    {
      ghost var before := View();
      totalRequests := totalRequests + 1;
      totalFailures := totalFailures + 1;
      failureCount := failureCount + 1;
      lastFailureTime := now;
      if state.HalfOpen? {
        state := Open;
      } else if state.Closed? {
        if failureCount >= 5 { state := Open; }
      }
      assert View() == Apply(before, Failed(now));
      ReplayStep(trace, Failed(now));
      trace := trace + [Failed(now)];
    }

    method IsAvailable(now: real) returns (available: bool)
      requires Valid()
      modifies this
      ensures Valid() && trace == old(trace) + [Asked(now)]
      ensures available == Admits(Replay(old(trace)), now) == !state.Open?
    {
      ReplayStep(trace, Asked(now));
      trace := trace + [Asked(now)];
      if state.Closed? { return true; }
      if state.Open? {
        if now - lastFailureTime >= 60.0 {
          state := HalfOpen;
          return true;
        }
        return false;
      }
      return true;
    }
  }

  // ---------------------------------------------------------------- choosing providers

  datatype ProviderConfig = ProviderConfig(name: string, maxRpm: int, priority: int, models: seq<string>, isLocal: bool)

  const DEEPSEEK := ProviderConfig("deepseek", 1000, 0, ["deepseek-chat", "deepseek-reasoner"], false)
  const OPENAI := ProviderConfig("openai", 500, 1, ["gpt-4o", "gpt-4o-mini"], false)
  const ANTHROPIC := ProviderConfig("anthropic", 400, 2, ["claude-3-5-sonnet-20241022"], false)
  const LOCAL := ProviderConfig("local", 100, 10, ["qwen2.5-72b-instruct"], true)
  const DEFAULT_PROVIDERS := [DEEPSEEK, OPENAI, ANTHROPIC, LOCAL]

  /** What a caller asks for; an empty model name asks for nothing. */
  datatype Wish = Wish(model: Option<string>, sensitive: bool)

  predicate Serves(config: ProviderConfig, wish: Wish) {
    && (wish.sensitive ==> config.isLocal)
    && (wish.model.Some? && wish.model.value != "" ==> wish.model.value in config.models)
  }

  /** No request is ever counted, so only a limit of zero or less turns a provider away. */
  predicate Eligible(config: ProviderConfig, trace: seq<Event>, now: real, wish: Wish) {
    Admits(Replay(trace), now) && Serves(config, wish) && config.maxRpm > 0
  }

  function ByPriority(): (ProviderConfig, ProviderConfig) -> bool {
    (a: ProviderConfig, b: ProviderConfig) => a.priority <= b.priority
  }

  /** Which names are eligible, each at its own reading of the clock. */
  function Chosen(configs: map<string, ProviderConfig>, traces: map<string, seq<Event>>, clock: string -> real, wish: Wish)
    : string -> bool
  {
    n => n in configs && n in traces && Eligible(configs[n], traces[n], clock(n), wish)
  }

  /** The chosen providers in the order of registration. */
  function ChosenIn(keys: seq<string>, configs: map<string, ProviderConfig>, chosen: string -> bool): seq<ProviderConfig> {
    if keys == [] then []
    else
      var k := keys[|keys| - 1];
      ChosenIn(keys[..|keys| - 1], configs, chosen) + if k in configs && chosen(k) then [configs[k]] else []
  }

  function With(traces: map<string, seq<Event>>, name: string, e: Event): map<string, seq<Event>> {
    if name in traces then traces[name := traces[name] + [e]] else traces
  }

  /** Every provider asked once in turn, each at its own reading of the clock. */
  function AskedAll(traces: map<string, seq<Event>>, keys: seq<string>, clock: string -> real): map<string, seq<Event>> {
    if keys == [] then traces
    else
      var k := keys[|keys| - 1];
      With(AskedAll(traces, keys[..|keys| - 1], clock), k, Asked(clock(k)))
  }

  /** So each of them is asked exactly once. */
  lemma {:induction false} EachAskedOnce(traces: map<string, seq<Event>>, keys: seq<string>, clock: string -> real)
    requires NoDuplicates(keys)
    ensures AskedAll(traces, keys, clock).Keys == traces.Keys
    ensures forall n :: n in traces ==>
      AskedAll(traces, keys, clock)[n] == if n in keys then traces[n] + [Asked(clock(n))] else traces[n]
  {
    if keys != [] {
      var m := |keys| - 1;
      EachAskedOnce(traces, keys[..m], clock);
      assert keys == keys[..m] + [keys[m]] && keys[m] !in keys[..m];
    }
  }

  /** Each breaker is an object of its own, known by its owner, and has lived through its trace. */
  ghost predicate Tracing(breakers: map<string, CircuitBreaker>, traces: map<string, seq<Event>>)
    reads breakers.Values
  {
    && (forall n :: n in breakers <==> n in traces)
    && forall n :: n in breakers ==> breakers[n].owner == n && breakers[n].Valid() && breakers[n].trace == traces[n]
  }

  method Ask(breakers: map<string, CircuitBreaker>, ghost traces: map<string, seq<Event>>, name: string, now: real)
    returns (available: bool)
    requires Tracing(breakers, traces) && name in breakers
    modifies breakers[name]
    ensures Tracing(breakers, With(traces, name, Asked(now)))
    ensures available == Admits(Replay(traces[name]), now) == !Replay(traces[name] + [Asked(now)]).state.Open?
  {
    available := breakers[name].IsAvailable(now);
    forall n | n in breakers && n != name ensures breakers[n].Valid() && breakers[n].trace == traces[n] {}
  }

  /** A name gets a breaker of its own, in place of any it had. */
  lemma TracingGrows(breakers: map<string, CircuitBreaker>, traces: map<string, seq<Event>>, name: string, b: CircuitBreaker)
    requires Tracing(breakers, traces) && b.Valid() && b.trace == [] && b.owner == name
    ensures Tracing(breakers[name := b], traces[name := []])
  {}

  /** The tables of the manager, which all have the same names. No call is ever counted. */
  ghost predicate SameNames(providers: Dict<string, ProviderConfig>, traces: map<string, seq<Event>>, counts: map<string, int>) {
    && OrderedDict.Valid(providers)
    && (forall n :: n in providers.data <==> n in traces)
    && (forall n :: n in providers.data ==> providers.data[n].name == n)
    && (forall n :: n in counts ==> counts[n] == 0)
  }

  lemma NamesGrow(providers: Dict<string, ProviderConfig>, traces: map<string, seq<Event>>, counts: map<string, int>,
                  config: ProviderConfig)
    requires SameNames(providers, traces, counts)
    ensures SameNames(Set(providers, config.name, config), traces[config.name := []], counts[config.name := 0])
  {
    SetValid(providers, config.name, config);
  }

  class ProviderManager {
    var providers: Dict<string, ProviderConfig>
    var breakers: map<string, CircuitBreaker>
    var requestCounts: map<string, int>
    var windowStart: real
    ghost var traces: map<string, seq<Event>>

    ghost predicate Valid()
      reads this, breakers.Values
    {
      SameNames(providers, traces, requestCounts) && Tracing(breakers, traces)
    }

    constructor (configs: seq<ProviderConfig>, now: real)
      ensures Valid() && forall n :: n in breakers ==> fresh(breakers[n])
      ensures forall n :: n in traces ==> traces[n] == []
      ensures providers == Registered(if configs == [] then DEFAULT_PROVIDERS else configs)
    {
      providers, breakers, requestCounts, windowStart := Empty(), map[], map[], now;
      traces := map[];
      new;
      RegisterAll(if configs == [] then DEFAULT_PROVIDERS else configs);
    }

    method RegisterAll(list: seq<ProviderConfig>)
      requires Valid() && providers == Empty() && traces == map[]
      modifies this
      ensures Valid() && forall n :: n in breakers ==> fresh(breakers[n])
      ensures providers == Registered(list) && forall n :: n in traces ==> traces[n] == []
    {
      for i := 0 to |list|
        invariant Valid() && forall n :: n in breakers ==> fresh(breakers[n])
        invariant providers == Registered(list[..i]) && forall n :: n in traces ==> traces[n] == []
      {
        RegisteredStep(list, i);
        Register(list[i]);
      }
      assert list[..|list|] == list;
    }

    method Register(config: ProviderConfig)
      requires Valid()
      modifies this
      ensures Valid() && providers == Set(old(providers), config.name, config)
      ensures forall n :: n in breakers ==> (n in old(breakers) && breakers[n] == old(breakers)[n]) || fresh(breakers[n])
      ensures traces == old(traces)[config.name := []]
    {
      NamesGrow(providers, traces, requestCounts, config);
      var breaker := new CircuitBreaker(config.name);
      TracingGrows(breakers, traces, config.name, breaker);
      Install(config, breaker);
    }

    method Install(config: ProviderConfig, breaker: CircuitBreaker)
      requires SameNames(Set(providers, config.name, config), traces[config.name := []], requestCounts[config.name := 0])
      requires Tracing(breakers[config.name := breaker], traces[config.name := []])
      modifies this
      ensures Valid() && providers == Set(old(providers), config.name, config)
      ensures traces == old(traces)[config.name := []] && breakers == old(breakers)[config.name := breaker]
    {
      providers, breakers := Set(providers, config.name, config), breakers[config.name := breaker];
      requestCounts, traces := requestCounts[config.name := 0], traces[config.name := []];
    }

    method RecordSuccess(name: string)
      requires Valid()
      modifies this`traces, breakers.Values
      ensures Valid() && traces == With(old(traces), name, Succeeded)
    {
      if name in breakers {
        breakers[name].RecordSuccess();
        traces := With(traces, name, Succeeded);
      }
    }

    method RecordFailure(name: string, now: real)
      requires Valid()
      modifies this`traces, breakers.Values
      ensures Valid() && traces == With(old(traces), name, Failed(now))
    {
      if name in breakers {
        breakers[name].RecordFailure(now);
        traces := With(traces, name, Failed(now));
      }
    }

    method IsRateLimited(name: string, now: real) returns (limited: bool)
      requires Valid()
      modifies this`requestCounts, this`windowStart
      ensures Valid() && limited == (name in providers.data && providers.data[name].maxRpm <= 0)
    {
      if now - windowStart > 60.0 {
        requestCounts := map n | n in requestCounts :: 0;
        windowStart := now;
      }
      if name !in providers.data { return false; }
      var count := if name in requestCounts then requestCounts[name] else 0;
      limited := count >= providers.data[name].maxRpm;
    }

    method AskOne(name: string, now: real) returns (available: bool)
      requires Valid() && name in breakers
      modifies this`traces, breakers[name]
      ensures Valid() && traces == With(old(traces), name, Asked(now))
      ensures available == Admits(Replay(old(traces)[name]), now)
    {
      available := Ask(breakers, traces, name, now);
      traces := With(traces, name, Asked(now));
    }

    /** One turn of the selection loop. */
    method Consider(name: string, now: real, wish: Wish) returns (chosen: bool)
      requires Valid() && name in providers.data
      modifies this`requestCounts, this`windowStart, this`traces, breakers[name]
      ensures Valid() && chosen == Eligible(providers.data[name], old(traces)[name], now, wish)
      ensures traces == With(old(traces), name, Asked(now))
    {
      var available := AskOne(name, now);
      if !available { return false; }
      chosen := Wanted(name, now, wish);
    }

    /** What is checked once the breaker lets the provider through. */
    method Wanted(name: string, now: real, wish: Wish) returns (wanted: bool)
      requires Valid() && name in providers.data
      modifies this`requestCounts, this`windowStart
      ensures Valid() && wanted == (Serves(providers.data[name], wish) && providers.data[name].maxRpm > 0)
    {
      var config := providers.data[name];
      if wish.sensitive && !config.isLocal { return false; }
      if wish.model.Some? && wish.model.value != "" && wish.model.value !in config.models { return false; }
      var limited := IsRateLimited(name, now);
      wanted := !limited;
    }

    /** The eligible providers by priority. Every breaker is asked, whether its provider serves or not. */
    method GetAvailableProviders(wish: Wish, clock: string -> real) returns (available: seq<ProviderConfig>)
      requires Valid()
      modifies this`requestCounts, this`windowStart, this`traces, breakers.Values
      ensures Valid() && traces == AskedAll(old(traces), providers.keys, clock)
      ensures var chosen := Chosen(providers.data, old(traces), clock, wish);
              available == StableSort(ChosenIn(providers.keys, providers.data, chosen), ByPriority())
    {
      available := Select(wish, clock);
      assert providers.keys[..|providers.keys|] == providers.keys;
      available := StableSort(available, ByPriority());
    }

    /** Where the loop before the sort stands after the first i names. */
    ghost predicate SelectedUpTo(i: nat, before: map<string, seq<Event>>, wish: Wish, clock: string -> real,
                                 available: seq<ProviderConfig>)
      requires i <= |providers.keys|
      reads this
    {
      var front := providers.keys[..i];
      && traces == AskedAll(before, front, clock)
      && available == ChosenIn(front, providers.data, Chosen(providers.data, before, clock, wish))
    }

    /** The loop before the sort. */
    method Select(wish: Wish, clock: string -> real) returns (available: seq<ProviderConfig>)
      requires Valid()
      modifies this`requestCounts, this`windowStart, this`traces, breakers.Values
      ensures Valid() && SelectedUpTo(|providers.keys|, old(traces), wish, clock, available)
    {
      ghost var before := traces;
      available := [];
      for i := 0 to |providers.keys|
        invariant Valid() && SelectedUpTo(i, before, wish, clock, available)
        modifies this`requestCounts, this`windowStart, this`traces, breakers.Values
      {
        available := Turn(i, before, wish, clock, available);
      }
    }

    method Turn(i: nat, ghost before: map<string, seq<Event>>, wish: Wish, clock: string -> real, available: seq<ProviderConfig>)
      returns (more: seq<ProviderConfig>)
      requires Valid() && i < |providers.keys| && SelectedUpTo(i, before, wish, clock, available) && before.Keys == traces.Keys
      modifies this`requestCounts, this`windowStart, this`traces, breakers.Values
      ensures Valid() && SelectedUpTo(i + 1, before, wish, clock, more)
    {
      SelectStep(providers, before, wish, clock, i);
      var name := providers.keys[i];
      var picked := Consider(name, clock(name), wish);
      more := Listed(available, providers.data[name], picked);
    }

    /** The inner loop stops at the first match, the outer one goes on: the last tier that matches wins. */
    method TierFor(primary: string, model: string) returns (target: nat)
      ensures target < |TIERS| && IsTarget(primary, model, target)
    {
      target := 1;
      for t := 0 to |TIERS|
        invariant target < |TIERS|
        invariant forall j :: 0 <= j < t && (primary, model) in TIERS[j] ==> j <= target
        invariant (primary, model) in TIERS[target] || (target == 1 && forall j :: 0 <= j < t ==> (primary, model) !in TIERS[j])
      {
        var found := Mentions(TIERS[t], primary, model);
        if found { target := t; }
      }
    }

    method Mentions(tier: seq<(string, string)>, primary: string, model: string) returns (found: bool)
      ensures found <==> (primary, model) in tier
    {
      for i := 0 to |tier|
        invariant (primary, model) !in tier[..i]
      {
        if tier[i].0 == primary && tier[i].1 == model { return true; }
      }
      return false;
    }

    /** The other providers of the tier whose breakers let them be tried, in the tier's order. */
    method GetFallbackChain(primary: string, model: string, clock: string -> real)
      returns (chain: seq<(string, string)>, ghost target: nat)
      requires Valid()
      modifies this`traces, breakers.Values
      ensures Valid() && target < |TIERS| && IsTarget(primary, model, target)
      ensures chain == ChainIn(TIERS[target], primary, Trusted(old(traces), clock))
      ensures traces == AskedAll(old(traces), Others(TIERS[target], primary), clock)
    {
      var t := TierFor(primary, model);
      target := t;
      TiersNameNobodyTwice(t);
      chain := Chain(TIERS[t], primary, clock);
    }

    method Chain(tier: seq<(string, string)>, primary: string, clock: string -> real) returns (chain: seq<(string, string)>)
      requires Valid() && DistinctNames(tier)
      modifies this`traces, breakers.Values
      ensures Valid() && traces == AskedAll(old(traces), Others(tier, primary), clock)
      ensures chain == ChainIn(tier, primary, Trusted(old(traces), clock))
    {
      ghost var before := traces;
      chain := [];
      for i := 0 to |tier|
        invariant Valid() && traces == AskedAll(before, Others(tier[..i], primary), clock)
        invariant chain == ChainIn(tier[..i], primary, Trusted(before, clock))
        modifies this`traces, breakers.Values
      {
        ChainStep(tier, primary, before, clock, i);
        var trusted := Try(tier[i].0, primary, clock);
        chain := if trusted then chain + [tier[i]] else chain;
      }
      assert tier[..|tier|] == tier;
    }

    /** Whether a provider of the tier may be tried; the primary itself is not even asked. */
    method Try(name: string, primary: string, clock: string -> real) returns (trusted: bool)
      requires Valid()
      modifies this`traces, breakers.Values
      ensures Valid() && traces == if name == primary then old(traces) else With(old(traces), name, Asked(clock(name)))
      ensures trusted == (name != primary && Trusted(old(traces), clock)(name))
    {
      if name == primary || name !in breakers { return false; }
      trusted := AskOne(name, clock(name));
    }
  }

  // ---------------------------------------------------------------- what the two lists mean

  const TIERS := [
    [("openai", "gpt-4o"), ("anthropic", "claude-3-5-sonnet-20241022"), ("local", "qwen2.5-72b-instruct")],
    [("openai", "gpt-4o-mini"), ("deepseek", "deepseek-chat")],
    [("deepseek", "deepseek-chat"), ("openai", "gpt-4o-mini")] ]

  /** The last tier with the pair in it, or the middle one if none has. */
  predicate IsTarget(primary: string, model: string, target: nat) {
    && target < |TIERS|
    && (forall j :: target < j < |TIERS| ==> (primary, model) !in TIERS[j])
    && ((primary, model) in TIERS[target] || (target == 1 && forall j :: 0 <= j < |TIERS| ==> (primary, model) !in TIERS[j]))
  }

  function Trusted(traces: map<string, seq<Event>>, clock: string -> real): string -> bool {
    n => n in traces && Admits(Replay(traces[n]), clock(n))
  }

  function Others(tier: seq<(string, string)>, primary: string): seq<string> {
    if tier == [] then []
    else
      var name := tier[|tier| - 1].0;
      Others(tier[..|tier| - 1], primary) + if name == primary then [] else [name]
  }

  function ChainIn(tier: seq<(string, string)>, primary: string, trusted: string -> bool): seq<(string, string)> {
    if tier == [] then []
    else
      var last := tier[|tier| - 1];
      ChainIn(tier[..|tier| - 1], primary, trusted) + if last.0 != primary && trusted(last.0) then [last] else []
  }

  function Listed(available: seq<ProviderConfig>, config: ProviderConfig, chosen: bool): seq<ProviderConfig> {
    if chosen then available + [config] else available
  }

  lemma AskedStep(traces: map<string, seq<Event>>, keys: seq<string>, i: nat, clock: string -> real)
    requires i < |keys|
    ensures AskedAll(traces, keys[..i + 1], clock) == With(AskedAll(traces, keys[..i], clock), keys[i], Asked(clock(keys[i])))
  {
    assert keys[..i + 1][..i] == keys[..i];
  }

  lemma NotYetAsked(traces: map<string, seq<Event>>, keys: seq<string>, i: nat, clock: string -> real)
    requires i < |keys| && NoDuplicates(keys) && keys[i] in traces
    ensures keys[i] in AskedAll(traces, keys[..i], clock)
    ensures AskedAll(traces, keys[..i], clock)[keys[i]] == traces[keys[i]]
  {
    EachAskedOnce(traces, keys[..i], clock);
  }

  lemma ChosenStep(keys: seq<string>, configs: map<string, ProviderConfig>, i: nat, chosen: string -> bool)
    requires i < |keys| && keys[i] in configs
    ensures ChosenIn(keys[..i + 1], configs, chosen) == Listed(ChosenIn(keys[..i], configs, chosen), configs[keys[i]], chosen(keys[i]))
  {
    assert keys[..i + 1][..i] == keys[..i];
  }

  /** One turn of the selection loop. */
  lemma SelectStep(providers: Dict<string, ProviderConfig>, before: map<string, seq<Event>>, wish: Wish, clock: string -> real, i: nat)
    requires SameNames(providers, before, map[]) && i < |providers.keys|
    ensures var name, chosen := providers.keys[i], Chosen(providers.data, before, clock, wish);
            var asked := AskedAll(before, providers.keys[..i], clock);
            && name in providers.data && name in asked
            && AskedAll(before, providers.keys[..i + 1], clock) == With(asked, name, Asked(clock(name)))
            && ChosenIn(providers.keys[..i + 1], providers.data, chosen)
               == Listed(ChosenIn(providers.keys[..i], providers.data, chosen), providers.data[name],
                         Eligible(providers.data[name], asked[name], clock(name), wish))
  {
    assert providers.keys[i] in providers.keys;
    AskedStep(before, providers.keys, i, clock);
    NotYetAsked(before, providers.keys, i, clock);
    ChosenStep(providers.keys, providers.data, i, Chosen(providers.data, before, clock, wish));
  }

  lemma RegisteredStep(list: seq<ProviderConfig>, i: nat)
    requires i < |list|
    ensures Registered(list[..i + 1]) == Set(Registered(list[..i]), list[i].name, list[i])
  {
    assert list[..i + 1][..i] == list[..i];
  }

  /** Registration in order: a name registered again keeps its place. */
  function Registered(list: seq<ProviderConfig>): Dict<string, ProviderConfig> {
    if list == [] then Empty()
    else Set(Registered(list[..|list| - 1]), list[|list| - 1].name, list[|list| - 1])
  }

  predicate DistinctNames(tier: seq<(string, string)>) {
    forall i, j :: 0 <= i < j < |tier| ==> tier[i].0 != tier[j].0
  }

  lemma TiersNameNobodyTwice(t: nat)
    requires t < |TIERS|
    ensures DistinctNames(TIERS[t])
  {}

  predicate Named(tier: seq<(string, string)>, n: string) { exists i :: 0 <= i < |tier| && tier[i].0 == n }

  lemma NamedStep(tier: seq<(string, string)>, last: (string, string), n: string)
    ensures Named(tier + [last], n) <==> Named(tier, n) || last.0 == n
  {
    var longer := tier + [last];
    assert longer[|tier|] == last && forall i :: 0 <= i < |tier| ==> longer[i] == tier[i];
  }

  lemma {:induction false} OthersAre(tier: seq<(string, string)>, primary: string)
    requires DistinctNames(tier)
    ensures NoDuplicates(Others(tier, primary))
    ensures forall n :: n in Others(tier, primary) <==> n != primary && Named(tier, n)
  {
    if tier != [] {
      var m := |tier| - 1;
      var front, last := tier[..m], tier[m];
      assert tier == front + [last];
      OthersAre(front, primary);
      forall n ensures Named(tier, n) <==> Named(front, n) || last.0 == n { NamedStep(front, last, n); }
      assert !Named(front, last.0);
      if last.0 != primary { AppendNew(Others(front, primary), last.0); }
    }
  }

  lemma AppendNew(names: seq<string>, n: string)
    requires NoDuplicates(names) && n !in names
    ensures NoDuplicates(names + [n])
  {}

  lemma OthersStep(tier: seq<(string, string)>, primary: string, traces: map<string, seq<Event>>, clock: string -> real, i: nat)
    requires DistinctNames(tier) && i < |tier|
    ensures var asked := AskedAll(traces, Others(tier[..i], primary), clock);
            var name := tier[i].0;
            && AskedAll(traces, Others(tier[..i + 1], primary), clock)
               == (if name == primary then asked else With(asked, name, Asked(clock(name))))
            && (name in asked <==> name in traces) && (name in traces ==> asked[name] == traces[name])
  {
    var name := tier[i].0;
    var others := Others(tier[..i], primary);
    assert tier[..i + 1][..i] == tier[..i];
    OthersAre(tier[..i], primary);
    assert name !in others;
    EachAskedOnce(traces, others, clock);
    assert others + [] == others && (others + [name])[..|others|] == others;
    assert Others(tier[..i + 1], primary) == if name == primary then others else others + [name];
  }

  /** One turn of the loop over a tier. */
  lemma ChainStep(tier: seq<(string, string)>, primary: string, traces: map<string, seq<Event>>, clock: string -> real, i: nat)
    requires DistinctNames(tier) && i < |tier|
    ensures var asked := AskedAll(traces, Others(tier[..i], primary), clock);
            var name := tier[i].0;
            && AskedAll(traces, Others(tier[..i + 1], primary), clock)
               == (if name == primary then asked else With(asked, name, Asked(clock(name))))
            && ChainIn(tier[..i + 1], primary, Trusted(traces, clock))
               == ChainIn(tier[..i], primary, Trusted(traces, clock))
                  + if name != primary && Trusted(asked, clock)(name) then [tier[i]] else []
  {
    assert tier[..i + 1][..i] == tier[..i];
    OthersStep(tier, primary, traces, clock, i);
  }

  lemma {:induction false} ChainElements(tier: seq<(string, string)>, primary: string, trusted: string -> bool)
    ensures forall c :: c in ChainIn(tier, primary, trusted) <==> c in tier && c.0 != primary && trusted(c.0)
  {
    if tier != [] {
      var m := |tier| - 1;
      ChainElements(tier[..m], primary, trusted);
      assert tier == tier[..m] + [tier[m]];
    }
  }

  /**
   A fallback chain never contains the primary, nor a provider whose breaker is open after the
   call, and it contains everyone else of the tier whose breaker was ready to be tried.
   */
  lemma {:induction false} ChainIsSafe(tier: seq<(string, string)>, primary: string, traces: map<string, seq<Event>>, clock: string -> real)
    requires DistinctNames(tier)
    ensures var chain := ChainIn(tier, primary, Trusted(traces, clock));
            var after := AskedAll(traces, Others(tier, primary), clock);
            && (forall c :: c in chain ==> c.0 != primary && c.0 in after && !Replay(after[c.0]).state.Open?)
            && (forall c :: c in tier && c !in chain ==>
                  c.0 == primary || c.0 !in traces || (c.0 in after && Replay(after[c.0]).state.Open?))
  {
    ChainElements(tier, primary, Trusted(traces, clock));
    forall c | c in tier && c.0 != primary && c.0 in traces
      ensures c.0 in AskedAll(traces, Others(tier, primary), clock)
      ensures Admits(Replay(traces[c.0]), clock(c.0))
              == !Replay(AskedAll(traces, Others(tier, primary), clock)[c.0]).state.Open?
    {
      AskedOther(tier, primary, traces, clock, c);
    }
  }

  lemma AskedOther(tier: seq<(string, string)>, primary: string, traces: map<string, seq<Event>>, clock: string -> real,
                   c: (string, string))
    requires DistinctNames(tier) && c in tier && c.0 != primary && c.0 in traces
    ensures c.0 in AskedAll(traces, Others(tier, primary), clock)
    ensures Admits(Replay(traces[c.0]), clock(c.0))
            == !Replay(AskedAll(traces, Others(tier, primary), clock)[c.0]).state.Open?
  {
    OthersAre(tier, primary);
    EachAskedOnce(traces, Others(tier, primary), clock);
    ReplayStep(traces[c.0], Asked(clock(c.0)));
  }

  lemma {:induction false} ChosenAre(keys: seq<string>, configs: map<string, ProviderConfig>, chosen: string -> bool)
    requires NoDuplicates(keys) && forall n :: n in keys ==> n in configs && configs[n].name == n
    ensures NoDuplicates(ChosenIn(keys, configs, chosen))
    ensures forall c :: c in ChosenIn(keys, configs, chosen) <==> c.name in keys && configs[c.name] == c && chosen(c.name)
  {
    if keys != [] {
      var m := |keys| - 1;
      ChosenAre(keys[..m], configs, chosen);
      assert keys == keys[..m] + [keys[m]] && keys[m] !in keys[..m];
    }
  }

  lemma {:induction false} ChosenInOrder(keys: seq<string>, configs: map<string, ProviderConfig>, chosen: string -> bool,
                                         i: nat, j: nat)
    requires NoDuplicates(keys) && forall n :: n in keys ==> n in configs && configs[n].name == n
    requires i < j < |keys| && chosen(keys[i]) && chosen(keys[j])
    ensures Before(ChosenIn(keys, configs, chosen), configs[keys[i]], configs[keys[j]])
  {
    var m := |keys| - 1;
    var front := ChosenIn(keys[..m], configs, chosen);
    if j < m {
      ChosenInOrder(keys[..m], configs, chosen, i, j);
      BeforeInFront(front, if chosen(keys[m]) then [configs[keys[m]]] else [], configs[keys[i]], configs[keys[j]]);
    } else {
      ChosenAre(keys[..m], configs, chosen);
      assert keys[..m][i] == keys[i];
      BeforeLast(front, configs[keys[i]], configs[keys[j]]);
    }
  }

  lemma BeforeInFront(front: seq<ProviderConfig>, rest: seq<ProviderConfig>, a: ProviderConfig, b: ProviderConfig)
    requires Before(front, a, b)
    ensures Before(front + rest, a, b)
  {
    var i, j :| 0 <= i < j < |front| && front[i] == a && front[j] == b;
    assert (front + rest)[i] == a && (front + rest)[j] == b;
  }

  lemma BeforeLast(front: seq<ProviderConfig>, a: ProviderConfig, b: ProviderConfig)
    requires a in front
    ensures Before(front + [b], a, b)
  {
    var i :| 0 <= i < |front| && front[i] == a;
    assert (front + [b])[i] == a && (front + [b])[|front|] == b;
  }

  /** Two chosen providers of one priority, the first registered earlier. */
  predicate PeersAt(providers: Dict<string, ProviderConfig>, chosen: string -> bool, i: nat, j: nat) {
    && i < j < |providers.keys| && providers.keys[i] in providers.data && providers.keys[j] in providers.data
    && chosen(providers.keys[i]) && chosen(providers.keys[j])
    && providers.data[providers.keys[i]].priority == providers.data[providers.keys[j]].priority
  }

  lemma ByPriorityIsPreorder()
    ensures TotalPreorder(ByPriority())
  {}

  /**
   The provider list is exactly the eligible providers, each once, by ascending priority, those of
   one priority in the order of registration.
   */
  lemma SelectionIsExact(providers: Dict<string, ProviderConfig>, traces: map<string, seq<Event>>, counts: map<string, int>,
                         clock: string -> real, wish: Wish)
    requires SameNames(providers, traces, counts)
    ensures var chosen := Chosen(providers.data, traces, clock, wish);
            var list := StableSort(ChosenIn(providers.keys, providers.data, chosen), ByPriority());
            && NoDuplicates(list) && (forall i, j :: 0 <= i < j < |list| ==> list[i].priority <= list[j].priority)
            && (forall c :: c in list <==>
                  && c.name in providers.data && providers.data[c.name] == c && c.maxRpm > 0
                  && (wish.sensitive ==> c.isLocal)
                  && (wish.model == None || wish.model.value == "" || wish.model.value in c.models)
                  && var b := Replay(traces[c.name]); !b.state.Open? || clock(c.name) - b.lastFailureTime >= 60.0)
            && forall i: nat, j: nat :: PeersAt(providers, chosen, i, j) ==>
                 Before(list, providers.data[providers.keys[i]], providers.data[providers.keys[j]])
  {
    var keys, data := providers.keys, providers.data;
    var chosen := Chosen(data, traces, clock, wish);
    var picked := ChosenIn(keys, data, chosen);
    ChosenAre(keys, data, chosen);
    ByPriorityIsPreorder();
    SortMultiset(picked, ByPriority());
    SortSorted(picked, ByPriority());
    PermutationNoDuplicates(picked, StableSort(picked, ByPriority()));
    SameElements(picked, StableSort(picked, ByPriority()));
    forall i: nat, j: nat | PeersAt(providers, chosen, i, j)
      ensures Before(StableSort(picked, ByPriority()), data[keys[i]], data[keys[j]])
    {
      ChosenInOrder(keys, data, chosen, i, j);
      SortStable(picked, ByPriority(), data[keys[i]], data[keys[j]]);
    }
  }

  /** The shipped providers, in order of registration: the cheap one first, only the last of them local. */
  lemma ShippedProviders()
    ensures var d := Registered(DEFAULT_PROVIDERS);
            && d.keys == ["deepseek", "openai", "anthropic", "local"]
            && (forall n :: n in d.keys ==> n in d.data && d.data[n].name == n && (d.data[n].isLocal <==> n == "local"))
            && d.data["deepseek"].priority == 0 && d.data["openai"].priority == 1
            && d.data["anthropic"].priority == 2 && d.data["local"].priority == 10
            && d.data["deepseek"].maxRpm == 1000 && d.data["openai"].maxRpm == 500
            && d.data["anthropic"].maxRpm == 400 && d.data["local"].maxRpm == 100
            && d.data["deepseek"].models == ["deepseek-chat", "deepseek-reasoner"]
            && d.data["openai"].models == ["gpt-4o", "gpt-4o-mini"]
            && d.data["anthropic"].models == ["claude-3-5-sonnet-20241022"]
            && d.data["local"].models == ["qwen2.5-72b-instruct"]
  {
    RegisteredStep(DEFAULT_PROVIDERS, 0);
    RegisteredStep(DEFAULT_PROVIDERS, 1);
    RegisteredStep(DEFAULT_PROVIDERS, 2);
    RegisteredStep(DEFAULT_PROVIDERS, 3);
    assert DEFAULT_PROVIDERS[..4] == DEFAULT_PROVIDERS;
    assert "deepseek"[0] != "openai"[0] && "deepseek"[0] != "anthropic"[0] && "deepseek"[0] != "local"[0];
    assert "openai"[0] != "anthropic"[0] && "openai"[0] != "local"[0] && "anthropic"[0] != "local"[0];
  }

  /** Which tier a model falls back in: the two cheap models in the last, the three large ones in the first, any other in the middle one. */
  lemma TargetsAre(primary: string, model: string, target: nat)
    requires IsTarget(primary, model, target)
    ensures target == if (primary, model) in {("deepseek", "deepseek-chat"), ("openai", "gpt-4o-mini")} then 2
                      else if (primary, model) in {("openai", "gpt-4o"), ("anthropic", "claude-3-5-sonnet-20241022"),
                                                   ("local", "qwen2.5-72b-instruct")} then 0
                      else 1
  {
    var pair := (primary, model);
    InThree(TIERS[0], pair);
    InTwo(TIERS[1], pair);
    InTwo(TIERS[2], pair);
    assert "deepseek"[0] != "openai"[0] && "deepseek"[0] != "anthropic"[0] && "deepseek"[0] != "local"[0];
    assert |"gpt-4o"| != |"gpt-4o-mini"|;
  }

  lemma InTwo(tier: seq<(string, string)>, pair: (string, string))
    requires |tier| == 2
    ensures pair in tier <==> pair == tier[0] || pair == tier[1]
  {}

  lemma InThree(tier: seq<(string, string)>, pair: (string, string))
    requires |tier| == 3
    ensures pair in tier <==> pair == tier[0] || pair == tier[1] || pair == tier[2]
  {}

  /** What is tried next when every breaker admits. */
  lemma FallbacksAre()
    ensures var all := (n: string) => true;
            && ChainIn(TIERS[0], "openai", all) == [("anthropic", "claude-3-5-sonnet-20241022"), ("local", "qwen2.5-72b-instruct")]
            && ChainIn(TIERS[0], "anthropic", all) == [("openai", "gpt-4o"), ("local", "qwen2.5-72b-instruct")]
            && ChainIn(TIERS[0], "local", all) == [("openai", "gpt-4o"), ("anthropic", "claude-3-5-sonnet-20241022")]
            && ChainIn(TIERS[1], "local", all) == [("openai", "gpt-4o-mini"), ("deepseek", "deepseek-chat")]
            && ChainIn(TIERS[2], "deepseek", all) == [("openai", "gpt-4o-mini")]
            && ChainIn(TIERS[2], "openai", all) == [("deepseek", "deepseek-chat")]
  {
    var all := (n: string) => true;
    ThreeInChain(TIERS[0], "openai", all);
    ThreeInChain(TIERS[0], "anthropic", all);
    ThreeInChain(TIERS[0], "local", all);
    TwoInChain(TIERS[1], "local", all);
    TwoInChain(TIERS[2], "deepseek", all);
    TwoInChain(TIERS[2], "openai", all);
    assert "openai"[0] != "anthropic"[0] && "openai"[0] != "local"[0] && "anthropic"[0] != "local"[0] && "deepseek"[0] != "openai"[0];
    assert "deepseek"[0] != "local"[0];
  }

  lemma TwoInChain(tier: seq<(string, string)>, primary: string, trusted: string -> bool)
    requires |tier| == 2
    ensures ChainIn(tier, primary, trusted)
            == (if tier[0].0 != primary && trusted(tier[0].0) then [tier[0]] else [])
               + (if tier[1].0 != primary && trusted(tier[1].0) then [tier[1]] else [])
  {
    assert tier[..1][..0] == [] && tier[..1][0] == tier[0];
    assert ChainIn(tier[..1], primary, trusted) == [] + if tier[0].0 != primary && trusted(tier[0].0) then [tier[0]] else [];
  }

  lemma ThreeInChain(tier: seq<(string, string)>, primary: string, trusted: string -> bool)
    requires |tier| == 3
    ensures ChainIn(tier, primary, trusted)
            == (if tier[0].0 != primary && trusted(tier[0].0) then [tier[0]] else [])
               + (if tier[1].0 != primary && trusted(tier[1].0) then [tier[1]] else [])
               + (if tier[2].0 != primary && trusted(tier[2].0) then [tier[2]] else [])
  {
    TwoInChain(tier[..2], primary, trusted);
  }
}
