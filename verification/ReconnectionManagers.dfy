/** When and how often a lost connection is retried (src/websocket-client/managers/reconnection-manager.ts,
    src/websocket-client/utils/backoff.ts). */
module ReconnectionManagers {
  import opened Prelude

  // ---------- the delay ----------

  datatype StrategyType = Constant | Linear | Exponential

  datatype BackoffStrategy = BackoffStrategy(
    kind: StrategyType, initial: Option<real>, factor: Option<real>, maxDelay: Option<real>, step: Option<real>,
    jitter: Option<real>)

  /** `value || fallback`: an absent option and a zero both mean the fallback. */
  function Or(value: Option<real>, fallback: real): real {
    if value.Some? && value.value != 0.0 then value.value else fallback
  }

  function Power(x: real, n: nat): real {
    if n == 0 then 1.0 else x * Power(x, n - 1)
  }

  function Min(a: real, b: real): real {
    if a <= b then a else b
  }

  function BaseDelay(s: BackoffStrategy, attempt: nat): real {
    Or(s.initial, 1000.0) * Power(Or(s.factor, 2.0), attempt)
  }

  function Jittered(base: real, jitter: real, random: real): real {
    base * (1.0 - jitter + random * jitter * 2.0)
  }

  /** `random` is the draw of Math.random(). No exponential delay exceeds the maximum in effect. */
  function CalculateDelay(s: BackoffStrategy, attempt: nat, random: real): (delay: real)
    ensures s.kind == Exponential ==> delay <= Or(s.maxDelay, 60000.0)
  {
    match s.kind
    case Constant => Or(s.initial, 1000.0)
    case Linear => Or(s.initial, 1000.0) + Or(s.step, 1000.0) * attempt as real
    case Exponential =>
      Min(Jittered(BaseDelay(s, attempt), Or(s.jitter, 0.1), random), Or(s.maxDelay, 60000.0))
  }

  function Abs(x: real): real {
    if x >= 0.0 then x else -x
  }

  /** An exponential delay lies in the jitter band around the base delay, cut off at the maximum, whatever the signs. */
  lemma ExponentialDelayBand(s: BackoffStrategy, attempt: nat, random: real)
    requires s.kind == Exponential && 0.0 <= random < 1.0
    ensures var base, limit := BaseDelay(s, attempt), Or(s.maxDelay, 60000.0);
            var band := Abs(base * Or(s.jitter, 0.1));
            Min(base - band, limit) <= CalculateDelay(s, attempt, random) <= Min(base + band, limit)
  {
    hide BaseDelay, Jittered;
    JitterBand(BaseDelay(s, attempt), Or(s.jitter, 0.1), random);
  }

  lemma JitterBand(base: real, j: real, random: real)
    requires 0.0 <= random < 1.0
    ensures base - Abs(base * j) <= Jittered(base, j, random) <= base + Abs(base * j)
  {
    var x := base * j;
    assert Jittered(base, j, random) == base + x * (random * 2.0 - 1.0) by {
      assert base * (random * j * 2.0) == x * (random * 2.0);
    }
    if x >= 0.0 {
      ProductOrder(x, -1.0, random * 2.0 - 1.0);
      ProductOrder(x, random * 2.0 - 1.0, 1.0);
    } else {
      ProductOrder(-x, -1.0, random * 2.0 - 1.0);
      ProductOrder(-x, random * 2.0 - 1.0, 1.0);
    }
  }

  lemma ProductOrder(a: real, x: real, y: real)
    requires a >= 0.0 && x <= y
    ensures a * x <= a * y
  {
  }

  lemma {:induction false} PowerAdd(x: real, a: nat, b: nat)
    ensures Power(x, a + b) == Power(x, a) * Power(x, b) && Power(x, 1) == x
  {
    assert Power(x, 1) == x * Power(x, 0);
    if a > 0 {
      PowerAdd(x, a - 1, b);
      assert x * (Power(x, a - 1) * Power(x, b)) == x * Power(x, a - 1) * Power(x, b);
    }
  }

  /** The value that an option takes: the given number, or the fallback when it is absent or zero. */
  predicate Takes(option: Option<real>, fallback: real, value: real) {
    if option == None || option == Some(0.0) then value == fallback else option == Some(value)
  }

  /** The delays in terms of the values the options take: constant, linear in the attempt, or growing by the factor with
      a jitter of at most its fraction to either side, cut off at the maximum. */
  lemma DelayFormula(s: BackoffStrategy, attempt: nat, random: real, initial: real, factor: real, maxDelay: real,
                     step: real, jitter: real)
    requires Takes(s.initial, 1000.0, initial) && Takes(s.factor, 2.0, factor) && Takes(s.maxDelay, 60000.0, maxDelay)
    requires Takes(s.step, 1000.0, step) && Takes(s.jitter, 0.1, jitter)
    ensures var delay := CalculateDelay(s, attempt, random);
            match s.kind
            case Constant => delay == initial
            case Linear => delay == initial + attempt as real * step
            case Exponential =>
              var base := initial * Power(factor, attempt);
              var jittered := base + (2.0 * random - 1.0) * (base * jitter);
              delay == if jittered <= maxDelay then jittered else maxDelay
  {
    hide Power;
    var base := initial * Power(factor, attempt);
    assert base * (1.0 - jitter + random * jitter * 2.0) == base + (2.0 * random - 1.0) * (base * jitter);
  }

  // ---------- the documented defaults ----------

  const DEFAULT_BACKOFF_STRATEGY :=
    BackoffStrategy(Exponential, Some(1000.0), Some(2.0), Some(30000.0), None, Some(0.2))

  /** The strategy in effect for the option a caller gives, or does not give. */
  function StrategyInEffect(given: Option<BackoffStrategy>): BackoffStrategy {
    if given.Some? then given.value else DEFAULT_BACKOFF_STRATEGY
  }

  /** What the documentation says of an option: the given number, or else the default. */
  function Documented(given: Option<BackoffStrategy>, field: BackoffStrategy -> Option<real>, fallback: real): real {
    if given.Some? && field(given.value).Some? then field(given.value).value else fallback
  }

  function MaxDelay(s: BackoffStrategy): Option<real> {
    s.maxDelay
  }

  function Jitter(s: BackoffStrategy): Option<real> {
    s.jitter
  }

  function Initial(s: BackoffStrategy): Option<real> {
    s.initial
  }

  function Factor(s: BackoffStrategy): Option<real> {
    s.factor
  }

  /** The caller gives a nonzero number for the option. */
  predicate Stated(given: Option<BackoffStrategy>, field: BackoffStrategy -> Option<real>) {
    given.Some? && field(given.value).Some? && field(given.value).value != 0.0
  }

  /** The documented value of an option, 30000 and 0.2 by default, is in effect exactly when no strategy is given or the
      strategy states the option as a nonzero number. */
  lemma DocumentedDefaultsIff(given: Option<BackoffStrategy>)
    ensures Or(StrategyInEffect(given).maxDelay, 60000.0) == Documented(given, MaxDelay, 30000.0)
       <==> given.None? || Stated(given, MaxDelay)
    ensures Or(StrategyInEffect(given).jitter, 0.1) == Documented(given, Jitter, 0.2)
       <==> given.None? || Stated(given, Jitter)
  {
    if given.Some? {
      assert MaxDelay(given.value) == given.value.maxDelay && Jitter(given.value) == given.value.jitter;
    }
  }

  /** The documented initial delay and growth factor, 1000 and 2 by default, are in effect unless the strategy states a
      zero; without a strategy the delays grow exponentially. */
  lemma DocumentedGrowthIff(given: Option<BackoffStrategy>)
    ensures Or(StrategyInEffect(given).initial, 1000.0) == Documented(given, Initial, 1000.0)
       <==> !(given.Some? && given.value.initial == Some(0.0))
    ensures Or(StrategyInEffect(given).factor, 2.0) == Documented(given, Factor, 2.0)
       <==> !(given.Some? && given.value.factor == Some(0.0))
    ensures given.None? ==> StrategyInEffect(given).kind == Exponential
  {
    if given.Some? {
      assert Initial(given.value) == given.value.initial && Factor(given.value) == given.value.factor;
    }
  }

  /** A strategy that leaves all options out waits up to twice as long as documented. */
  lemma DocumentedCapExceeded(random: real)
    requires 0.0 <= random < 1.0
    ensures var given := Some(BackoffStrategy(Exponential, None, None, None, None, None));
            && Documented(given, MaxDelay, 30000.0) == 30000.0
            && CalculateDelay(StrategyInEffect(given), 7, random) == 60000.0
  {
    var s := BackoffStrategy(Exponential, None, None, None, None, None);
    PowerOfTwo7();
    assert BaseDelay(s, 7) == 128000.0;
    ExponentialDelayBand(s, 7, random);
  }

  lemma PowerOfTwo7()
    ensures Power(2.0, 7) == 128.0
  {
    assert Power(2.0, 3) == 8.0;
    assert Power(2.0, 5) == 4.0 * Power(2.0, 3);
    assert Power(2.0, 7) == 4.0 * Power(2.0, 5);
  }

  // ---------- the runtime's timers ----------

  /** The timers armed by scheduling, the attempts in flight (fired, neither succeeded nor failed yet), the timer that
      the manager remembers, and the next handle. */
  datatype Timers = Timers(live: set<nat>, flying: set<nat>, latest: Option<nat>, next: nat)

  ghost predicate HandlesBelowNext(t: Timers) {
    && (forall x :: x in t.live || x in t.flying ==> x < t.next) && t.live !! t.flying
    && (t.latest.Some? ==> t.latest.value < t.next)
  }

  function Armed(t: Timers): Timers {
    t.(live := t.live + {t.next}, latest := Some(t.next), next := t.next + 1)
  }

  function Fired(t: Timers, timer: nat): Timers {
    t.(live := t.live - {timer}, flying := t.flying + {timer})
  }

  /** The attempt of this timer is over. */
  function Landed(t: Timers, timer: nat): Timers {
    t.(flying := t.flying - {timer})
  }

  function Cancelled(t: Timers): Timers {
    t.(live := t.live - (if t.latest.Some? then {t.latest.value} else {}), latest := None)
  }

  ghost predicate TimersStep(t: Timers, t': Timers) {
    || t' == t || t' == Armed(t) || t' == Cancelled(t)
    || (exists x :: x in t.live && t' == Fired(t, x))
    || (exists x :: x in t.flying && (t' == Landed(t, x) || t' == Armed(Landed(t, x))))
  }

  /** One more timer is armed. */
  predicate Arms(t: Timers, t': Timers) {
    t'.next > t.next
  }

  /** A timer fires. */
  predicate Fires(t: Timers, t': Timers) {
    !(t'.flying <= t.flying)
  }

  /** An attempt is scheduled while an earlier timer is still armed. */
  predicate Overlap(t: Timers, t': Timers) {
    Arms(t, t') && t.live != {}
  }

  ghost predicate TimersTrace(ts: seq<Timers>) {
    && ts != [] && HandlesBelowNext(ts[0])
    && forall i :: 0 <= i < |ts| - 1 ==> TimersStep(ts[i], ts[i + 1])
  }

  predicate OnlyLatest(t: Timers) {
    t.live <= if t.latest.Some? then {t.latest.value} else {}
  }

  /** One step keeps the remembered timer the only armed one exactly when it is not an overlap. */
  lemma StepKeepsOnlyLatestIff(t: Timers, t': Timers)
    requires HandlesBelowNext(t) && TimersStep(t, t') && OnlyLatest(t)
    ensures HandlesBelowNext(t') && (OnlyLatest(t') <==> !Overlap(t, t'))
  {
    if Arms(t, t') {
      assert t'.live == t.live + {t.next} && t'.latest == Some(t.next);
      assert t.live != {} ==> exists x :: x in t.live && x in t'.live && x != t.next;
    }
  }

  lemma {:induction false} HandlesStayBelow(ts: seq<Timers>, i: nat)
    requires TimersTrace(ts) && i < |ts|
    ensures HandlesBelowNext(ts[i])
  {
    if i > 0 {
      HandlesStayBelow(ts, i - 1);
      assert TimersStep(ts[i - 1], ts[i - 1 + 1]);
    }
  }

  lemma {:induction false} OnlyLatestUpTo(ts: seq<Timers>, n: nat)
    requires TimersTrace(ts) && OnlyLatest(ts[0]) && n < |ts|
    ensures (forall i :: 0 <= i <= n ==> OnlyLatest(ts[i])) <==> forall i :: 0 <= i < n ==> !Overlap(ts[i], ts[i + 1])
  {
    hide TimersStep, OnlyLatest, Overlap, HandlesBelowNext;
    if n > 0 {
      OnlyLatestUpTo(ts, n - 1);
      HandlesStayBelow(ts, n - 1);
      assert TimersStep(ts[n - 1], ts[n - 1 + 1]);
      if OnlyLatest(ts[n - 1]) {
        StepKeepsOnlyLatestIff(ts[n - 1], ts[n]);
      }
      assert Overlap(ts[n - 1], ts[n]) <==> Overlap(ts[n - 1], ts[n - 1 + 1]);
    }
  }

  /** Cancelling leaves nothing armed at every point of a run exactly when the run never schedules an attempt while an
      earlier one is still armed. */
  lemma CancelLeavesNothingIff(ts: seq<Timers>)
    requires TimersTrace(ts) && OnlyLatest(ts[0])
    ensures (forall i :: 0 <= i < |ts| ==> Cancelled(ts[i]).live == {})
       <==> forall i :: 0 <= i < |ts| - 1 ==> !Overlap(ts[i], ts[i + 1])
  {
    OnlyLatestUpTo(ts, |ts| - 1);
    assert forall i :: 0 <= i < |ts| ==> (Cancelled(ts[i]).live == {} <==> OnlyLatest(ts[i]));
  }

  // ---------- what may still reconnect ----------

  /** What reconnecting depends on: the timers, the options and the counter, whether some socket may still close with a
      reconnect handler on it (`stray`), and whether the client has no connection and no reconnect handler (`free`). */
  datatype Retry = Retry(
    timers: Timers, enabled: bool, maxAttempts: int, currentAttempt: nat, stray: bool, free: bool)
  {
    predicate AttemptLeft() {
      enabled && (maxAttempts == 0 || currentAttempt < maxAttempts)
    }

    /** An attempt is left as soon as the counter starts over. */
    predicate AttemptLeftAfterReset() {
      enabled && maxAttempts >= 0
    }

    /** Without another call by the user a timer may fire or be armed: one is armed; or an attempt is left, and an
        attempt in flight may fail or a stray socket close; or one attempt in flight may succeed, which starts the
        counter over, and after it another may fail or a stray socket close. */
    predicate MayReconnect() {
      || timers.live != {}
      || (AttemptLeft() && (timers.flying != {} || stray))
      || (AttemptLeftAfterReset() && timers.flying != {} && (|timers.flying| >= 2 || stray))
    }
  }

  /** A timer is armed or fires between the two. */
  predicate Reconnects(r: Retry, r': Retry) {
    Arms(r.timers, r'.timers) || Fires(r.timers, r'.timers)
  }

  /** The same options; a socket does not become stray, and the client stays free. */
  predicate Steady(r: Retry, r': Retry) {
    && r'.enabled == r.enabled && r'.maxAttempts == r.maxAttempts
    && (r.free ==> r'.free && (r'.stray ==> r.stray))
  }

  predicate SameRetries(r: Retry, r': Retry) {
    Steady(r, r') && r'.timers == r.timers && r'.currentAttempt == r.currentAttempt
  }

  predicate AfterClose(r: Retry, r': Retry) {
    && Steady(r, r') && r.stray && r.AttemptLeft()
    && r'.timers == Armed(r.timers) && r'.currentAttempt == r.currentAttempt + 1
  }

  predicate AfterSuccess(r: Retry, r': Retry, timer: nat) {
    timer in r.timers.flying && Steady(r, r') && r'.timers == Landed(r.timers, timer) && r'.currentAttempt == 0
  }

  predicate AfterFailure(r: Retry, r': Retry, timer: nat) {
    && timer in r.timers.flying && Steady(r, r')
    && if r.AttemptLeft() then
         r'.timers == Armed(Landed(r.timers, timer)) && r'.currentAttempt == r.currentAttempt + 1
       else r'.timers == Landed(r.timers, timer) && r'.currentAttempt == r.currentAttempt
  }

  predicate AfterDisconnect(r: Retry, r': Retry) {
    Steady(r, r') && r'.timers == Cancelled(r.timers) && r'.currentAttempt == r.currentAttempt
  }

  /** What may happen while the user neither connects nor changes the options, and no timer fires. */
  ghost predicate Idles(r: Retry, r': Retry) {
    || SameRetries(r, r') || AfterClose(r, r') || AfterDisconnect(r, r')
    || exists timer :: AfterSuccess(r, r', timer) || AfterFailure(r, r', timer)
  }

  /** A free client that may not reconnect arms nothing, and may not reconnect afterwards either. */
  lemma StaysQuiet(r: Retry, r': Retry)
    requires r.free && !r.MayReconnect() && HandlesBelowNext(r.timers) && Idles(r, r')
    ensures r'.free && !r'.MayReconnect() && !Reconnects(r, r') && HandlesBelowNext(r'.timers)
  {
    hide AfterSuccess, AfterFailure, Retry.MayReconnect, Reconnects;
    if SameRetries(r, r') || AfterClose(r, r') || AfterDisconnect(r, r') {
      QuietWithoutLanding(r, r');
    } else {
      var timer :| AfterSuccess(r, r', timer) || AfterFailure(r, r', timer);
      QuietLanding(r, r', timer);
    }
  }

  lemma QuietWithoutLanding(r: Retry, r': Retry)
    requires r.free && !r.MayReconnect() && HandlesBelowNext(r.timers)
    requires SameRetries(r, r') || AfterClose(r, r') || AfterDisconnect(r, r')
    ensures r'.free && !r'.MayReconnect() && !Reconnects(r, r') && HandlesBelowNext(r'.timers)
  {
  }

  lemma QuietLanding(r: Retry, r': Retry, timer: nat)
    requires r.free && !r.MayReconnect() && HandlesBelowNext(r.timers)
    requires AfterSuccess(r, r', timer) || AfterFailure(r, r', timer)
    ensures r'.free && !r'.MayReconnect() && !Reconnects(r, r') && HandlesBelowNext(r'.timers)
  {
    assert !r.AttemptLeft();
    assert r'.timers == Landed(r.timers, timer);
    OneLess(r.timers.flying, timer);
  }

  lemma OneLess(s: set<nat>, x: nat)
    requires x in s
    ensures |s - {x}| == |s| - 1 && (s - {x} == {} <==> |s| == 1)
  {
    assert s == s - {x} + {x};
  }

  // ---------- the attempt counter ----------

  class ReconnectionManager {
    var enabled: bool
    var strategy: BackoffStrategy
    var maxAttempts: int
    var currentAttempt: nat
    var reconnectTimer: Option<nat>
    var timers: nat            // the next handle of the runtime's timers
    var live: set<nat>         // timers that are armed
    var flying: set<nat>       // attempts of timers that have fired
    ghost var scheduled: nat   // attempts scheduled since the last reset

    constructor (defaultStrategy: BackoffStrategy)
      ensures Valid() && !enabled && maxAttempts == 5 && currentAttempt == 0 && reconnectTimer == None
      ensures Now() == Timers({}, {}, None, 0) && scheduled == 0
    {
      enabled, strategy, maxAttempts, currentAttempt, reconnectTimer := false, defaultStrategy, 5, 0, None;
      live, flying, scheduled, timers := {}, {}, 0, 0;
    }

    /** The counter counts exactly the attempts scheduled since the last reset. */
    ghost predicate Valid()
      reads this
    {
      scheduled == currentAttempt && HandlesBelowNext(Now())
    }

    ghost function Now(): Timers
      reads this
    {
      Timers(live, flying, reconnectTimer, timers)
    }

    /** No more attempts than the limit, which zero switches off; a negative limit allows none. */
    ghost predicate WithinLimit()
      reads this
    {
      maxAttempts != 0 ==> scheduled == 0 || scheduled <= maxAttempts
    }

    method SetOptions(enabled: bool, strategy: BackoffStrategy, maxAttempts: int)
      requires Valid()
      modifies this`enabled, this`strategy, this`maxAttempts
      ensures Valid()
      ensures this.enabled == enabled && this.strategy == strategy && this.maxAttempts == maxAttempts
    {
      this.enabled, this.strategy, this.maxAttempts := enabled, strategy, maxAttempts;
    }

    predicate ShouldReconnect()
      reads this
    {
      enabled && (maxAttempts == 0 || currentAttempt < maxAttempts)
    }

    /** Arms one more timer, or does nothing when no attempt is left. An earlier timer stays armed. */
    method ScheduleReconnect(random: real) returns (delay: Option<real>)
      requires Valid()
      modifies this
      ensures Valid()
      ensures enabled == old(enabled) && strategy == old(strategy) && maxAttempts == old(maxAttempts)
      ensures delay.Some? <==> old(enabled && (maxAttempts == 0 || currentAttempt < maxAttempts))
      ensures if old(ShouldReconnect()) then
                && currentAttempt == old(currentAttempt) + 1
                && delay == Some(CalculateDelay(strategy, currentAttempt, random))
                && Now() == Armed(old(Now()))
              else
                currentAttempt == old(currentAttempt) && delay == None && Now() == old(Now())
      ensures old(WithinLimit()) ==> WithinLimit()
    {
      if !ShouldReconnect() {
        return None;
      }
      currentAttempt := currentAttempt + 1;
      scheduled := scheduled + 1;
      delay := Some(CalculateDelay(strategy, currentAttempt, random));
      reconnectTimer := Some(timers);
      live, timers := live + {timers}, timers + 1;
    }

    /** The runtime fires an armed timer once. */
    method TimerFires(timer: nat)
      requires Valid() && timer in live
      modifies this`live, this`flying
      ensures Valid() && Now() == Fired(old(Now()), timer)
    {
      live, flying := live - {timer}, flying + {timer};
    }

    /** The callback of a fired timer comes to its end. */
    method AttemptEnds(timer: nat)
      requires Valid() && timer in flying
      modifies this`flying
      ensures Valid() && Now() == Landed(old(Now()), timer)
    {
      flying := flying - {timer};
    }

    method ResetAttempts()
      requires Valid()
      modifies this`currentAttempt, this`scheduled
      ensures Valid() && currentAttempt == 0 && WithinLimit()
    {
      currentAttempt := 0;
      scheduled := 0;
    }

    /** Only the latest timer is cancelled; every other one stays armed. */
    method CancelReconnect()
      requires Valid()
      modifies this`reconnectTimer, this`live
      ensures Valid() && Now() == Cancelled(old(Now()))
      ensures live == old(live) - (if old(reconnectTimer).Some? then {old(reconnectTimer).value} else {})
    {
      if reconnectTimer.Some? {
        live := live - {reconnectTimer.value};
        reconnectTimer := None;
      }
    }

    /** Retrying after each failure: schedule, let the timer fire, connect, and on failure start over. `connects` says
        at which attempt the server answers. With a limit the retries end, after the first success or the last
        attempt; `decreases` is the number of attempts left. */
    method RetryUntilConnected(connects: nat -> bool, randoms: nat -> real) returns (connected: bool)
      requires Valid() && enabled && maxAttempts > 0
      modifies this
      ensures Valid() && enabled && maxAttempts == old(maxAttempts)
      ensures old(WithinLimit()) ==> WithinLimit()
      ensures connected <==> exists n :: old(currentAttempt) < n <= maxAttempts && connects(n)
      ensures connected ==> currentAttempt == 0
      ensures !connected && old(WithinLimit()) ==> currentAttempt == maxAttempts
      decreases maxAttempts - currentAttempt
    {
      if !ShouldReconnect() {
        return false;
      }
      var delay := ScheduleReconnect(randoms(currentAttempt));
      TimerFires(reconnectTimer.value);
      AttemptEnds(reconnectTimer.value);
      if connects(currentAttempt) {
        ResetAttempts();
        return true;
      }
      connected := RetryUntilConnected(connects, randoms);
    }
  }
}
