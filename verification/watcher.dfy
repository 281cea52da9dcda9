/**
 * The watcher's per-line pipeline and its state: parse the line, append the
 * status to the window, check for a failover, check the error rate, and
 * dispatch whatever alerts those request. `Next` and `Run` give the meaning
 * of one line and of a stream of lines; class `Watcher` holds the three
 * pieces of mutable state and updates them in place, step by step.
 */
module Watcher {
  import opened Wrappers
  import opened Alerts
  import opened LogPattern
  import opened SlidingWindow
  import opened ErrorRate
  import opened Failover
  import opened Dispatcher

  /** `request_window`, `last_pool` and `last_alert_time`. */
  datatype State = State(window: seq<int>, lastPool: Option<string>, times: LastSent)

  const Initial: State := State([], None, NeverSent)

  /**
   * One line as delivered by the log follower, with what the outside world
   * contributes while it is processed: the clock reading, and whether each
   * post that may be attempted (failover, then error rate) returns.
   */
  datatype Input = Input(line: string, now: real, failoverPostOk: bool, errorRatePostOk: bool)

  /** One alert that reached the dispatcher, when, and what became of it. */
  datatype Record = Record(time: real, alert: Alert, disposition: Disposition)

  /**
   * Turns one raw line into an event, or None for a line to skip. The
   * watcher uses LogPattern.ParseLine; the properties of a stream below hold
   * for any parser.
   */
  type Parser = string -> Option<LogEvent>

  datatype Transition = Transition(state: State, records: seq<Record>)

  datatype Notified = Notified(times: LastSent, records: seq<Record>)

  predicate WithinCapacity(cfg: Config, s: State) {
    |s.window| <= cfg.capacity
  }

  /** Hands a requested alert, if any, to the dispatcher. */
  function Notify(cfg: Config, times: LastSent, alert: Option<Alert>, now: real, postOk: bool): Notified {
    match alert
    case None => Notified(times, [])
    case Some(a) =>
      var d := Dispatch(cfg, times, a, now, postOk);
      Notified(d.times, [Record(now, a, d.disposition)])
  }

  /** The failover check's alert and then the error-rate check's alert, each handed to the dispatcher. */
  function NotifyBoth(cfg: Config, times: LastSent, failover: Option<Alert>, rate: Option<Alert>, input: Input): Notified {
    var first := Notify(cfg, times, failover, input.now, input.failoverPostOk);
    var second := Notify(cfg, first.times, rate, input.now, input.errorRatePostOk);
    Notified(second.times, first.records + second.records)
  }

  /** The effect of one matched event: append, check failover, check error rate. */
  function Apply(cfg: Config, s: State, event: LogEvent, input: Input): (r: Transition)
    requires WithinCapacity(cfg, s)
    ensures WithinCapacity(cfg, r.state)
    ensures r.state.window == LastN(s.window + [event.status], cfg.capacity)
    ensures r.state.lastPool == Some(event.pool)
    ensures |r.records| <= 2
  {
    var window := Append(s.window, cfg.capacity, event.status);
    var seen := Observe(s.lastPool, event.pool);
    var sent := NotifyBoth(cfg, s.times, seen.alert, Evaluate(window, cfg.threshold), input);
    Transition(State(window, seen.lastPool, sent.times), sent.records)
  }

  /** The effect of one line: the body of the `while True` loop after `readline`. */
  function Next(parse: Parser, cfg: Config, s: State, input: Input): (r: Transition)
    requires WithinCapacity(cfg, s)
    ensures WithinCapacity(cfg, r.state)
    ensures parse(input.line).None? ==> r == Transition(s, [])
    ensures parse(input.line).Some? ==> r == Apply(cfg, s, parse(input.line).value, input)
  {
    match parse(input.line)
    case None => Transition(s, [])
    case Some(event) => Apply(cfg, s, event, input)
  }

  /** The effect of a stream of lines, oldest first. */
  function Run(parse: Parser, cfg: Config, s: State, inputs: seq<Input>): (r: Transition)
    requires WithinCapacity(cfg, s)
    ensures WithinCapacity(cfg, r.state)
    decreases |inputs|
  {
    if inputs == [] then Transition(s, [])
    else
      var before := Run(parse, cfg, s, inputs[..|inputs| - 1]);
      var step := Next(parse, cfg, before.state, inputs[|inputs| - 1]);
      Transition(step.state, before.records + step.records)
  }

  /** The status a line contributes to the window: one, or none when the pattern does not match. */
  function StatusOf(parse: Parser, input: Input): (r: seq<int>)
    ensures |r| <= 1
  {
    match parse(input.line)
    case None => []
    case Some(e) => [e.status]
  }

  /** The pool label a line contributes: one, or none when the pattern does not match. */
  function PoolOf(parse: Parser, input: Input): seq<string> {
    match parse(input.line)
    case None => []
    case Some(e) => [e.pool]
  }

  /** The statuses of the lines that match the pattern, in arrival order. */
  function Statuses(parse: Parser, inputs: seq<Input>): seq<int>
    decreases |inputs|
  {
    if inputs == [] then [] else Statuses(parse, inputs[..|inputs| - 1]) + StatusOf(parse, inputs[|inputs| - 1])
  }

  /** The pool labels of the lines that match the pattern, in arrival order. */
  function Pools(parse: Parser, inputs: seq<Input>): seq<string>
    decreases |inputs|
  {
    if inputs == [] then [] else Pools(parse, inputs[..|inputs| - 1]) + PoolOf(parse, inputs[|inputs| - 1])
  }

  /** The alert requested by a check, as a sequence of at most one. */
  function Requested(alert: Option<Alert>): seq<Alert> {
    if alert.Some? then [alert.value] else []
  }

  /** The alerts the records carry, in dispatch order. */
  function AlertsOf(records: seq<Record>): (r: seq<Alert>)
    ensures |r| == |records|
    ensures forall i :: 0 <= i < |records| ==> r[i] == records[i].alert
  {
    seq(|records|, i requires 0 <= i < |records| => records[i].alert)
  }

  /** The alerts of kind `k` among the records, in order. */
  function KindAlerts(records: seq<Record>, k: Kind): seq<Alert>
    decreases |records|
  {
    if records == [] then []
    else
      var last := records[|records| - 1];
      KindAlerts(records[..|records| - 1], k) + if last.alert.Kind() == k then [last.alert] else []
  }

  lemma {:induction false} KindAlertsConcat(a: seq<Record>, b: seq<Record>, k: Kind)
    ensures KindAlerts(a + b, k) == KindAlerts(a, k) + KindAlerts(b, k)
    decreases |b|
  {
    if b != [] {
      KindAlertsConcat(a, b[..|b| - 1], k);
      assert (a + b)[..|a + b| - 1] == a + b[..|b| - 1];
    } else {
      assert a + b == a;
    }
  }

  /** The time of the last successful send of kind `k` among the records, or `start` when there is none. */
  function LastSendTime(records: seq<Record>, k: Kind, start: real): real
    decreases |records|
  {
    if records == [] then start
    else
      var last := records[|records| - 1];
      if last.disposition == Sent && last.alert.Kind() == k then last.time
      else LastSendTime(records[..|records| - 1], k, start)
  }

  lemma {:induction false} LastSendTimeConcat(a: seq<Record>, b: seq<Record>, k: Kind, start: real)
    ensures LastSendTime(a + b, k, start) == LastSendTime(b, k, LastSendTime(a, k, start))
    decreases |b|
  {
    if b != [] {
      LastSendTimeConcat(a, b[..|b| - 1], k, start);
      assert (a + b)[..|a + b| - 1] == a + b[..|b| - 1];
    } else {
      assert a + b == a;
    }
  }

  // ---------------------------------------------------------------------
  // Properties of a stream of lines. Each is proved for one dispatch, then
  // for one matched event, then for one line, then by induction on the stream.

  /** A line the pattern does not match changes nothing and dispatches nothing. */
  lemma UnmatchedLineIsIgnored(cfg: Config, s: State, input: Input)
    requires WithinCapacity(cfg, s)
    requires NoMatch(input.line)
    ensures Next(ParseLine, cfg, s, input) == Transition(s, [])
  {
  }

  lemma NextWindow(parse: Parser, cfg: Config, s: State, input: Input)
    requires WithinCapacity(cfg, s)
    ensures Next(parse, cfg, s, input).state.window == LastN(s.window + StatusOf(parse, input), cfg.capacity)
  {
    if parse(input.line).None? {
      assert s.window + [] == s.window;
    }
  }

  /** One more line: the window after it, in terms of the window before it. */
  lemma RunWindowStep(parse: Parser, cfg: Config, s: State, inputs: seq<Input>)
    requires WithinCapacity(cfg, s) && inputs != []
    ensures var init := inputs[..|inputs| - 1];
      Run(parse, cfg, s, inputs).state.window ==
        LastN(Run(parse, cfg, s, init).state.window + StatusOf(parse, inputs[|inputs| - 1]), cfg.capacity)
  {
    NextWindow(parse, cfg, Run(parse, cfg, s, inputs[..|inputs| - 1]).state, inputs[|inputs| - 1]);
  }

  lemma StatusesSnoc(parse: Parser, inputs: seq<Input>)
    requires inputs != []
    ensures Statuses(parse, inputs) == Statuses(parse, inputs[..|inputs| - 1]) + StatusOf(parse, inputs[|inputs| - 1])
  {
  }

  /** After any stream, the window is the last `capacity` matched statuses, in arrival order. */
  lemma {:induction false} WindowHoldsLastStatuses(parse: Parser, cfg: Config, s: State, inputs: seq<Input>)
    requires WithinCapacity(cfg, s)
    ensures Run(parse, cfg, s, inputs).state.window == LastN(s.window + Statuses(parse, inputs), cfg.capacity)
    decreases |inputs|
  {
    if inputs == [] {
      assert s.window + [] == s.window;
    } else {
      var init := inputs[..|inputs| - 1];
      WindowHoldsLastStatuses(parse, cfg, s, init);
      RunWindowStep(parse, cfg, s, inputs);
      StatusesSnoc(parse, inputs);
      LastNExtendBy(s.window, Statuses(parse, init), StatusOf(parse, inputs[|inputs| - 1]), cfg.capacity);
    }
  }

  /** A dispatch records the alert it was handed, whatever became of it. */
  lemma NotifyKindAlerts(cfg: Config, times: LastSent, alert: Option<Alert>, now: real, postOk: bool, k: Kind)
    ensures KindAlerts(Notify(cfg, times, alert, now, postOk).records, k) ==
      if alert.Some? && alert.value.Kind() == k then [alert.value] else []
  {
    var records := Notify(cfg, times, alert, now, postOk).records;
    if alert.Some? {
      assert records[..0] == [];
    }
  }

  /** The alerts of one line's two checks are dispatched failover first, then error rate. */
  lemma NotifyBothAlerts(cfg: Config, times: LastSent, failover: Option<Alert>, rate: Option<Alert>, input: Input)
    ensures AlertsOf(NotifyBoth(cfg, times, failover, rate, input).records) == Requested(failover) + Requested(rate)
  {
    var first := Notify(cfg, times, failover, input.now, input.failoverPostOk);
    var second := Notify(cfg, first.times, rate, input.now, input.errorRatePostOk);
    assert AlertsOf(first.records) == Requested(failover);
    assert AlertsOf(second.records) == Requested(rate);
    assert AlertsOf(first.records + second.records) == AlertsOf(first.records) + AlertsOf(second.records);
  }

  /** The failover alerts among one line's dispatches are those of its failover check. */
  lemma NotifyBothFailoverAlerts(cfg: Config, times: LastSent, failover: Option<Alert>, rate: Option<Alert>, input: Input)
    requires rate.Some? ==> rate.value.HighErrorRate?
    ensures KindAlerts(NotifyBoth(cfg, times, failover, rate, input).records, FailoverKind) ==
      if failover.Some? && failover.value.Failover? then [failover.value] else []
  {
    var first := Notify(cfg, times, failover, input.now, input.failoverPostOk);
    var second := Notify(cfg, first.times, rate, input.now, input.errorRatePostOk);
    KindAlertsConcat(first.records, second.records, FailoverKind);
    NotifyKindAlerts(cfg, times, failover, input.now, input.failoverPostOk, FailoverKind);
    NotifyKindAlerts(cfg, first.times, rate, input.now, input.errorRatePostOk, FailoverKind);
    assert KindAlerts(first.records, FailoverKind) + [] == KindAlerts(first.records, FailoverKind);
  }

  /** The error-rate alerts among one line's dispatches are those of its error-rate check. */
  lemma NotifyBothRateAlerts(cfg: Config, times: LastSent, failover: Option<Alert>, rate: Option<Alert>, input: Input)
    requires failover.Some? ==> failover.value.Failover?
    ensures KindAlerts(NotifyBoth(cfg, times, failover, rate, input).records, ErrorRateKind) ==
      if rate.Some? && rate.value.HighErrorRate? then [rate.value] else []
  {
    var first := Notify(cfg, times, failover, input.now, input.failoverPostOk);
    var second := Notify(cfg, first.times, rate, input.now, input.errorRatePostOk);
    KindAlertsConcat(first.records, second.records, ErrorRateKind);
    NotifyKindAlerts(cfg, times, failover, input.now, input.failoverPostOk, ErrorRateKind);
    NotifyKindAlerts(cfg, first.times, rate, input.now, input.errorRatePostOk, ErrorRateKind);
    assert [] + KindAlerts(second.records, ErrorRateKind) == KindAlerts(second.records, ErrorRateKind);
  }

  /** Whether the post that an alert of this kind would make returns. */
  function PostOkFor(input: Input, alert: Alert): bool {
    if alert.Failover? then input.failoverPostOk else input.errorRatePostOk
  }

  /** A dispatch records the alert at `now`, with what `send_slack` made of it. */
  lemma NotifyDispositions(cfg: Config, times: LastSent, alert: Option<Alert>, now: real, postOk: bool)
    ensures var records := Notify(cfg, times, alert, now, postOk).records;
      forall i :: 0 <= i < |records| ==>
        records[i].time == now && records[i].disposition == Dispatch(cfg, times, records[i].alert, now, postOk).disposition
  {
  }

  /**
   * Each of one line's dispatches is decided by `send_slack` with the
   * timestamps from before the line and its own post outcome: the failover
   * send never changes the error-rate cooldown.
   */
  lemma NotifyBothDispositions(cfg: Config, times: LastSent, failover: Option<Alert>, rate: Option<Alert>, input: Input)
    requires failover.Some? ==> failover.value.Failover?
    requires rate.Some? ==> rate.value.HighErrorRate?
    ensures var records := NotifyBoth(cfg, times, failover, rate, input).records;
      forall i :: 0 <= i < |records| ==>
        records[i].time == input.now &&
        records[i].disposition == Dispatch(cfg, times, records[i].alert, input.now, PostOkFor(input, records[i].alert)).disposition
  {
    var first := Notify(cfg, times, failover, input.now, input.failoverPostOk);
    var second := Notify(cfg, first.times, rate, input.now, input.errorRatePostOk);
    NotifyDispositions(cfg, times, failover, input.now, input.failoverPostOk);
    NotifyDispositions(cfg, first.times, rate, input.now, input.errorRatePostOk);
    if failover.Some? {
      OtherKindUntouched(cfg, times, failover.value, input.now, input.failoverPostOk, ErrorRateKind);
    }
    assert first.times.Get(ErrorRateKind) == times.Get(ErrorRateKind);
    var records := first.records + second.records;
    forall i | 0 <= i < |records|
      ensures records[i].time == input.now
      ensures records[i].disposition == Dispatch(cfg, times, records[i].alert, input.now, PostOkFor(input, records[i].alert)).disposition
    {
      if i < |first.records| {
        assert records[i] == first.records[i];
      } else {
        assert records[i] == second.records[i - |first.records|];
      }
    }
  }

  /** A dispatch moves a kind's timestamp to the time of the send it records, if any. */
  lemma NotifyTimes(cfg: Config, times: LastSent, alert: Option<Alert>, now: real, postOk: bool, k: Kind)
    ensures var n := Notify(cfg, times, alert, now, postOk);
      n.times.Get(k) == LastSendTime(n.records, k, times.Get(k))
  {
    var records := Notify(cfg, times, alert, now, postOk).records;
    if alert.Some? {
      assert records[..0] == [];
    }
  }

  lemma NotifyBothTimes(cfg: Config, times: LastSent, failover: Option<Alert>, rate: Option<Alert>, input: Input, k: Kind)
    ensures var n := NotifyBoth(cfg, times, failover, rate, input);
      n.times.Get(k) == LastSendTime(n.records, k, times.Get(k))
  {
    var first := Notify(cfg, times, failover, input.now, input.failoverPostOk);
    var second := Notify(cfg, first.times, rate, input.now, input.errorRatePostOk);
    NotifyTimes(cfg, times, failover, input.now, input.failoverPostOk, k);
    NotifyTimes(cfg, first.times, rate, input.now, input.errorRatePostOk, k);
    LastSendTimeConcat(first.records, second.records, k, times.Get(k));
  }

  /**
   * One matched event dispatches the failover detector's alert and then the
   * verdict on the window with the new status appended, in that order.
   */
  lemma ApplyAlerts(cfg: Config, s: State, event: LogEvent, input: Input)
    requires WithinCapacity(cfg, s)
    ensures AlertsOf(Apply(cfg, s, event, input).records) ==
      Requested(Observe(s.lastPool, event.pool).alert) +
      Requested(Evaluate(LastN(s.window + [event.status], cfg.capacity), cfg.threshold))
  {
    var window := Append(s.window, cfg.capacity, event.status);
    var seen := Observe(s.lastPool, event.pool);
    NotifyBothAlerts(cfg, s.times, seen.alert, Evaluate(window, cfg.threshold), input);
  }

  /** The failover alerts of one matched event are the detector's; its error-rate alerts are the appended window's verdict. */
  lemma ApplyKindAlerts(cfg: Config, s: State, event: LogEvent, input: Input, k: Kind)
    requires WithinCapacity(cfg, s)
    ensures KindAlerts(Apply(cfg, s, event, input).records, k) ==
      if k == FailoverKind then Requested(Observe(s.lastPool, event.pool).alert)
      else Requested(Evaluate(LastN(s.window + [event.status], cfg.capacity), cfg.threshold))
  {
    var window := Append(s.window, cfg.capacity, event.status);
    var seen := Observe(s.lastPool, event.pool);
    if k == FailoverKind {
      NotifyBothFailoverAlerts(cfg, s.times, seen.alert, Evaluate(window, cfg.threshold), input);
    } else {
      NotifyBothRateAlerts(cfg, s.times, seen.alert, Evaluate(window, cfg.threshold), input);
    }
  }

  /**
   * Every record of one matched event is stamped with the line's clock
   * reading and decided by `send_slack` from the timestamps before the line
   * and the post outcome of its own kind.
   */
  lemma ApplyDispositions(cfg: Config, s: State, event: LogEvent, input: Input)
    requires WithinCapacity(cfg, s)
    ensures var records := Apply(cfg, s, event, input).records;
      forall i :: 0 <= i < |records| ==>
        records[i].time == input.now &&
        records[i].disposition == Dispatch(cfg, s.times, records[i].alert, input.now, PostOkFor(input, records[i].alert)).disposition
  {
    var window := Append(s.window, cfg.capacity, event.status);
    var seen := Observe(s.lastPool, event.pool);
    NotifyBothDispositions(cfg, s.times, seen.alert, Evaluate(window, cfg.threshold), input);
  }

  /** After one matched event, each kind's timestamp is that of its last send on this line, or unchanged. */
  lemma ApplyTimes(cfg: Config, s: State, event: LogEvent, input: Input, k: Kind)
    requires WithinCapacity(cfg, s)
    ensures var t := Apply(cfg, s, event, input);
      t.state.times.Get(k) == LastSendTime(t.records, k, s.times.Get(k))
  {
    var window := Append(s.window, cfg.capacity, event.status);
    var seen := Observe(s.lastPool, event.pool);
    NotifyBothTimes(cfg, s.times, seen.alert, Evaluate(window, cfg.threshold), input, k);
  }

  lemma NextFailover(parse: Parser, cfg: Config, s: State, input: Input)
    requires WithinCapacity(cfg, s)
    ensures var step := Next(parse, cfg, s, input);
      if PoolOf(parse, input) == [] then step.state.lastPool == s.lastPool && KindAlerts(step.records, FailoverKind) == []
      else
        var seen := Observe(s.lastPool, PoolOf(parse, input)[0]);
        step.state.lastPool == seen.lastPool && KindAlerts(step.records, FailoverKind) == Requested(seen.alert)
  {
    match parse(input.line)
    case None =>
    case Some(e) =>
      ApplyKindAlerts(cfg, s, e, input, FailoverKind);
  }

  /** From start-up, the failover alerts are exactly those of the failover detector fed the matched pools. */
  lemma {:induction false} FailoversFollowPools(parse: Parser, cfg: Config, inputs: seq<Input>)
    ensures Run(parse, cfg, Initial, inputs).state.lastPool == ObserveAll(Pools(parse, inputs)).lastPool
    ensures KindAlerts(Run(parse, cfg, Initial, inputs).records, FailoverKind) == ObserveAll(Pools(parse, inputs)).alerts
    decreases |inputs|
  {
    if inputs != [] {
      var init := inputs[..|inputs| - 1];
      var input := inputs[|inputs| - 1];
      FailoversFollowPools(parse, cfg, init);
      var before := Run(parse, cfg, Initial, init);
      var step := Next(parse, cfg, before.state, input);
      assert Run(parse, cfg, Initial, inputs) == Transition(step.state, before.records + step.records);
      KindAlertsConcat(before.records, step.records, FailoverKind);
      NextFailover(parse, cfg, before.state, input);
      var pools := Pools(parse, inputs);
      assert pools == Pools(parse, init) + PoolOf(parse, input);
      if PoolOf(parse, input) == [] {
        assert pools == Pools(parse, init);
        assert before.records + step.records == before.records + [];
      } else {
        assert pools[..|pools| - 1] == Pools(parse, init);
        assert pools[|pools| - 1] == PoolOf(parse, input)[0];
      }
    }
  }

  /**
   * The error-rate verdicts a stream should produce: for each matched line in
   * order, the verdict on the last `capacity` statuses up to and including it.
   */
  function RateVerdicts(parse: Parser, cfg: Config, start: seq<int>, inputs: seq<Input>): seq<Alert>
    decreases |inputs|
  {
    if inputs == [] then []
    else
      var verdict := Evaluate(LastN(start + Statuses(parse, inputs), cfg.capacity), cfg.threshold);
      RateVerdicts(parse, cfg, start, inputs[..|inputs| - 1]) +
        if parse(inputs[|inputs| - 1].line).Some? then Requested(verdict) else []
  }

  lemma NextRate(parse: Parser, cfg: Config, s: State, input: Input)
    requires WithinCapacity(cfg, s)
    ensures var step := Next(parse, cfg, s, input);
      KindAlerts(step.records, ErrorRateKind) ==
        if parse(input.line).Some? then Requested(Evaluate(step.state.window, cfg.threshold)) else []
  {
    match parse(input.line)
    case None =>
    case Some(e) =>
      ApplyKindAlerts(cfg, s, e, input, ErrorRateKind);
  }

  /** Every error-rate alert of a stream is the verdict on the window right after its line's status was appended. */
  lemma {:induction false} RateAlertsFollowWindow(parse: Parser, cfg: Config, s: State, inputs: seq<Input>)
    requires WithinCapacity(cfg, s)
    ensures KindAlerts(Run(parse, cfg, s, inputs).records, ErrorRateKind) == RateVerdicts(parse, cfg, s.window, inputs)
    decreases |inputs|
  {
    if inputs != [] {
      var init := inputs[..|inputs| - 1];
      var input := inputs[|inputs| - 1];
      RateAlertsFollowWindow(parse, cfg, s, init);
      var before := Run(parse, cfg, s, init);
      var step := Next(parse, cfg, before.state, input);
      assert Run(parse, cfg, s, inputs) == Transition(step.state, before.records + step.records);
      KindAlertsConcat(before.records, step.records, ErrorRateKind);
      NextRate(parse, cfg, before.state, input);
      WindowHoldsLastStatuses(parse, cfg, s, inputs);
    }
  }

  /** After any stream, each kind's timestamp is the time of its last successful send, or its starting value. */
  lemma {:induction false} TimesFollowSends(parse: Parser, cfg: Config, s: State, inputs: seq<Input>, k: Kind)
    requires WithinCapacity(cfg, s)
    ensures var t := Run(parse, cfg, s, inputs);
      t.state.times.Get(k) == LastSendTime(t.records, k, s.times.Get(k))
    decreases |inputs|
  {
    if inputs != [] {
      var init := inputs[..|inputs| - 1];
      var input := inputs[|inputs| - 1];
      TimesFollowSends(parse, cfg, s, init, k);
      var before := Run(parse, cfg, s, init);
      var step := Next(parse, cfg, before.state, input);
      assert Run(parse, cfg, s, inputs) == Transition(step.state, before.records + step.records);
      LastSendTimeConcat(before.records, step.records, k, s.times.Get(k));
      match parse(input.line)
      case None =>
      case Some(e) =>
        ApplyTimes(cfg, before.state, e, input, k);
    }
  }

  /**
   * What every dispatched record satisfies: without a webhook it was only
   * printed; in maintenance mode a failover is muted; an error-rate alert is
   * never muted and describes a window of at least the minimum size.
   */
  predicate Consistent(cfg: Config, rec: Record) {
    (!cfg.webhook ==> rec.disposition == Printed) &&
    (cfg.webhook && cfg.maintenance && rec.alert.Failover? ==> rec.disposition == Muted) &&
    (rec.alert.HighErrorRate? ==>
      rec.disposition != Muted && MinSamples <= rec.alert.total <= cfg.capacity)
  }

  predicate AllConsistent(cfg: Config, records: seq<Record>) {
    forall i :: 0 <= i < |records| ==> Consistent(cfg, records[i])
  }

  lemma NotifyConsistent(cfg: Config, times: LastSent, alert: Option<Alert>, now: real, postOk: bool)
    requires alert.Some? && alert.value.HighErrorRate? ==> MinSamples <= alert.value.total <= cfg.capacity
    ensures AllConsistent(cfg, Notify(cfg, times, alert, now, postOk).records)
  {
  }

  lemma NotifyBothConsistent(cfg: Config, times: LastSent, failover: Option<Alert>, rate: Option<Alert>, input: Input)
    requires failover.Some? ==> failover.value.Failover?
    requires rate.Some? ==> rate.value.HighErrorRate? && MinSamples <= rate.value.total <= cfg.capacity
    ensures AllConsistent(cfg, NotifyBoth(cfg, times, failover, rate, input).records)
  {
    var first := Notify(cfg, times, failover, input.now, input.failoverPostOk);
    NotifyConsistent(cfg, times, failover, input.now, input.failoverPostOk);
    NotifyConsistent(cfg, first.times, rate, input.now, input.errorRatePostOk);
  }

  lemma ApplyConsistent(cfg: Config, s: State, event: LogEvent, input: Input)
    requires WithinCapacity(cfg, s)
    ensures AllConsistent(cfg, Apply(cfg, s, event, input).records)
  {
    var window := Append(s.window, cfg.capacity, event.status);
    var seen := Observe(s.lastPool, event.pool);
    NotifyBothConsistent(cfg, s.times, seen.alert, Evaluate(window, cfg.threshold), input);
  }

  lemma {:induction false} RunConsistent(parse: Parser, cfg: Config, s: State, inputs: seq<Input>)
    requires WithinCapacity(cfg, s)
    ensures AllConsistent(cfg, Run(parse, cfg, s, inputs).records)
    decreases |inputs|
  {
    if inputs != [] {
      var init := inputs[..|inputs| - 1];
      var input := inputs[|inputs| - 1];
      RunConsistent(parse, cfg, s, init);
      var before := Run(parse, cfg, s, init);
      match parse(input.line)
      case None =>
        assert Run(parse, cfg, s, inputs).records == before.records + [];
      case Some(e) =>
        ApplyConsistent(cfg, before.state, e, input);
        assert Run(parse, cfg, s, inputs).records == before.records + Apply(cfg, before.state, e, input).records;
    }
  }

  /** In maintenance mode no failover alert is ever sent; error-rate alerts are never muted. */
  lemma MaintenanceMutesOnlyFailover(parse: Parser, cfg: Config, s: State, inputs: seq<Input>)
    requires WithinCapacity(cfg, s)
    ensures var records := Run(parse, cfg, s, inputs).records;
      forall i :: 0 <= i < |records| && records[i].alert.HighErrorRate? ==> records[i].disposition != Muted
    ensures var records := Run(parse, cfg, s, inputs).records;
      cfg.maintenance && cfg.webhook ==>
      forall i :: 0 <= i < |records| && records[i].alert.Failover? ==> records[i].disposition == Muted
  {
    RunConsistent(parse, cfg, s, inputs);
  }

  /** Without a webhook every alert is only printed, and no timestamp is ever recorded. */
  lemma {:induction false} LastSendTimeWithoutSends(records: seq<Record>, k: Kind, start: real)
    requires forall i :: 0 <= i < |records| ==> records[i].disposition != Sent
    ensures LastSendTime(records, k, start) == start
    decreases |records|
  {
    if records != [] {
      LastSendTimeWithoutSends(records[..|records| - 1], k, start);
    }
  }

  lemma NoWebhookOnlyPrints(parse: Parser, cfg: Config, s: State, inputs: seq<Input>)
    requires WithinCapacity(cfg, s)
    requires !cfg.webhook
    ensures Run(parse, cfg, s, inputs).state.times == s.times
    ensures var records := Run(parse, cfg, s, inputs).records;
      forall i :: 0 <= i < |records| ==> records[i].disposition == Printed
  {
    var t := Run(parse, cfg, s, inputs);
    RunConsistent(parse, cfg, s, inputs);
    TimesFollowSends(parse, cfg, s, inputs, FailoverKind);
    TimesFollowSends(parse, cfg, s, inputs, ErrorRateKind);
    LastSendTimeWithoutSends(t.records, FailoverKind, s.times.Get(FailoverKind));
    LastSendTimeWithoutSends(t.records, ErrorRateKind, s.times.Get(ErrorRateKind));
  }

  /** A window capacity below the minimum sample size means the error rate never alerts. */
  lemma SmallWindowNeverAlerts(parse: Parser, cfg: Config, s: State, inputs: seq<Input>)
    requires WithinCapacity(cfg, s)
    requires cfg.capacity < MinSamples
    ensures var records := Run(parse, cfg, s, inputs).records;
      forall i :: 0 <= i < |records| ==> records[i].alert.Failover?
  {
    RunConsistent(parse, cfg, s, inputs);
  }

  /** Every successful send of a kind is no later than that kind's recorded timestamp. */
  ghost predicate SendsRecorded(records: seq<Record>, times: LastSent) {
    forall i :: 0 <= i < |records| && records[i].disposition == Sent ==>
      records[i].time <= times.Get(records[i].alert.Kind())
  }

  /** Two successful sends of the same kind are at least the cooldown apart. */
  ghost predicate SendsSpaced(cfg: Config, records: seq<Record>) {
    forall i, j ::
      (0 <= i < j < |records| && records[i].disposition == Sent && records[j].disposition == Sent &&
       records[i].alert.Kind() == records[j].alert.Kind()) ==>
      records[j].time - records[i].time >= cfg.cooldown as real
  }

  lemma NotifyKeepsSpacing(cfg: Config, records: seq<Record>, times: LastSent, alert: Option<Alert>, now: real, postOk: bool)
    requires cfg.cooldown >= 0
    requires SendsRecorded(records, times) && SendsSpaced(cfg, records)
    ensures var n := Notify(cfg, times, alert, now, postOk);
      SendsRecorded(records + n.records, n.times) && SendsSpaced(cfg, records + n.records)
  {
    var n := Notify(cfg, times, alert, now, postOk);
    var all := records + n.records;
    if alert.Some? {
      var d := Dispatch(cfg, times, alert.value, now, postOk);
      forall i | 0 <= i < |all| && all[i].disposition == Sent
        ensures all[i].time <= n.times.Get(all[i].alert.Kind())
      {
        if i < |records| {
          assert all[i] == records[i];
        }
      }
      forall i, j | 0 <= i < j < |all| && all[i].disposition == Sent && all[j].disposition == Sent &&
        all[i].alert.Kind() == all[j].alert.Kind()
        ensures all[j].time - all[i].time >= cfg.cooldown as real
      {
        if j < |records| {
          assert all[i] == records[i] && all[j] == records[j];
        } else {
          assert all[i] == records[i];
          assert all[j] == Record(now, alert.value, d.disposition);
        }
      }
    } else {
      assert all == records;
    }
  }

  lemma NotifyBothKeepsSpacing(cfg: Config, records: seq<Record>, times: LastSent, failover: Option<Alert>, rate: Option<Alert>, input: Input)
    requires cfg.cooldown >= 0
    requires SendsRecorded(records, times) && SendsSpaced(cfg, records)
    ensures var n := NotifyBoth(cfg, times, failover, rate, input);
      SendsRecorded(records + n.records, n.times) && SendsSpaced(cfg, records + n.records)
  {
    var first := Notify(cfg, times, failover, input.now, input.failoverPostOk);
    NotifyKeepsSpacing(cfg, records, times, failover, input.now, input.failoverPostOk);
    var second := Notify(cfg, first.times, rate, input.now, input.errorRatePostOk);
    NotifyKeepsSpacing(cfg, records + first.records, first.times, rate, input.now, input.errorRatePostOk);
    assert records + first.records + second.records == records + (first.records + second.records);
  }

  lemma ApplyKeepsSpacing(cfg: Config, records: seq<Record>, s: State, event: LogEvent, input: Input)
    requires WithinCapacity(cfg, s)
    requires cfg.cooldown >= 0
    requires SendsRecorded(records, s.times) && SendsSpaced(cfg, records)
    ensures var t := Apply(cfg, s, event, input);
      SendsRecorded(records + t.records, t.state.times) && SendsSpaced(cfg, records + t.records)
  {
    var window := Append(s.window, cfg.capacity, event.status);
    var seen := Observe(s.lastPool, event.pool);
    NotifyBothKeepsSpacing(cfg, records, s.times, seen.alert, Evaluate(window, cfg.threshold), input);
  }

  /**
   * With a non-negative cooldown, no alert kind is sent twice within the
   * cooldown, however long its condition persists.
   */
  lemma {:induction false} SendsRespectCooldown(parse: Parser, cfg: Config, s: State, inputs: seq<Input>)
    requires WithinCapacity(cfg, s)
    requires cfg.cooldown >= 0
    ensures SendsSpaced(cfg, Run(parse, cfg, s, inputs).records)
    ensures SendsRecorded(Run(parse, cfg, s, inputs).records, Run(parse, cfg, s, inputs).state.times)
    decreases |inputs|
  {
    if inputs != [] {
      var init := inputs[..|inputs| - 1];
      var input := inputs[|inputs| - 1];
      SendsRespectCooldown(parse, cfg, s, init);
      var before := Run(parse, cfg, s, init);
      match parse(input.line)
      case None =>
        assert Run(parse, cfg, s, inputs) == Transition(before.state, before.records + []);
        assert before.records + [] == before.records;
      case Some(e) =>
        ApplyKeepsSpacing(cfg, before.records, before.state, e, input);
        var t := Apply(cfg, before.state, e, input);
        assert Run(parse, cfg, s, inputs) == Transition(t.state, before.records + t.records);
    }
  }

  /**
   * Default settings: failovers A -> B then B -> A ten seconds apart send
   * only the first; four hundred seconds apart send both.
   */
  lemma CooldownScenario(t: real)
    requires t >= 300.0
    ensures var cfg := DefaultConfig(true);
      var first := Dispatch(cfg, NeverSent, Failover("A", "B"), t, true);
      first.disposition == Sent &&
      Dispatch(cfg, first.times, Failover("B", "A"), t + 10.0, true).disposition == Throttled &&
      Dispatch(cfg, first.times, Failover("B", "A"), t + 400.0, true).disposition == Sent
  {
  }

  // ---------------------------------------------------------------------
  // The mutable state, updated in place as the source does.

  class Watcher {
    const config: Config
    var window: seq<int>
    var lastPool: Option<string>
    var lastAlertTime: LastSent

    ghost predicate Valid()
      reads this
    {
      |window| <= config.capacity
    }

    function Snapshot(): State
      reads this
    {
      State(window, lastPool, lastAlertTime)
    }

    constructor (config: Config)
      ensures this.config == config
      ensures Valid() && Snapshot() == Initial
    {
      this.config := config;
      window := [];
      lastPool := None;
      lastAlertTime := NeverSent;
    }

    /** `send_slack`. */
    method SendSlack(alert: Alert, now: real, postOk: bool) returns (d: Disposition)
      modifies this
      ensures Dispatched(lastAlertTime, d) == Dispatch(config, old(lastAlertTime), alert, now, postOk)
      ensures window == old(window) && lastPool == old(lastPool)
    {
      if !config.webhook {
        return Printed;
      }
      if config.maintenance && alert.Failover? {
        return Muted;
      }
      if now - lastAlertTime.Get(alert.Kind()) < config.cooldown as real {
        return Throttled;
      }
      if postOk {
        lastAlertTime := lastAlertTime.Set(alert.Kind(), now);
        d := Sent;
      } else {
        d := SendFailed;
      }
    }

    /** `check_failover`. */
    method CheckFailover(pool: string, now: real, postOk: bool) returns (records: seq<Record>)
      modifies this
      ensures var seen := Observe(old(lastPool), pool);
        lastPool == seen.lastPool &&
        Notified(lastAlertTime, records) == Notify(config, old(lastAlertTime), seen.alert, now, postOk)
      ensures window == old(window)
    {
      if pool == "" || lastPool.None? {
        lastPool := Some(pool);
        return [];
      }
      records := [];
      if pool != lastPool.value {
        var alert := Failover(lastPool.value, pool);
        var d := SendSlack(alert, now, postOk);
        records := [Record(now, alert, d)];
        lastPool := Some(pool);
      }
    }

    /** `check_error_rate`. */
    method CheckErrorRate(now: real, postOk: bool) returns (records: seq<Record>)
      modifies this
      ensures Notified(lastAlertTime, records) ==
        Notify(config, old(lastAlertTime), Evaluate(old(window), config.threshold), now, postOk)
      ensures window == old(window) && lastPool == old(lastPool)
    {
      records := [];
      if |window| < MinSamples {
        return;
      }
      var errors := ErrorCount(window);
      PercentageAbove(errors, |window|, config.threshold);
      if Percentage(errors, |window|) > config.threshold {
        var alert := HighErrorRate(errors, |window|);
        var d := SendSlack(alert, now, postOk);
        records := [Record(now, alert, d)];
      }
    }

    /** What the read loop does with a line once the pattern has matched: append, check failover, check error rate. */
    method Handle(event: LogEvent, input: Input) returns (records: seq<Record>)
      requires Valid()
      modifies this
      ensures Valid()
      ensures Transition(Snapshot(), records) == Apply(config, old(Snapshot()), event, input)
    {
      ghost var before := Snapshot();
      window := Append(window, config.capacity, event.status);
      ghost var seen := Observe(before.lastPool, event.pool);
      var onFailover := CheckFailover(event.pool, input.now, input.failoverPostOk);
      ghost var afterFailover := Notify(config, before.times, seen.alert, input.now, input.failoverPostOk);
      assert Notified(lastAlertTime, onFailover) == afterFailover;
      var onRate := CheckErrorRate(input.now, input.errorRatePostOk);
      records := onFailover + onRate;
    }

    /** One pass of the read loop after `readline`: parse the line, and skip it or handle its event. */
    method Step(input: Input) returns (records: seq<Record>)
      requires Valid()
      modifies this
      ensures Valid()
      ensures Transition(Snapshot(), records) == Next(ParseLine, config, old(Snapshot()), input)
    {
      var event := ParseLine(input.line);
      if event.None? {
        return [];
      }
      records := Handle(event.value, input);
    }

    /** The ingestion loop over a finite stream of lines. */
    method Consume(inputs: seq<Input>) returns (records: seq<Record>)
      requires Valid()
      modifies this
      ensures Valid()
      ensures Transition(Snapshot(), records) == Run(ParseLine, config, old(Snapshot()), inputs)
    {
      records := [];
      for i := 0 to |inputs|
        invariant Valid()
        invariant Transition(Snapshot(), records) == Run(ParseLine, config, old(Snapshot()), inputs[..i])
      {
        var more := Step(inputs[i]);
        assert inputs[..i + 1][..i] == inputs[..i];
        records := records + more;
      }
      assert inputs[..|inputs|] == inputs;
    }
  }
}
