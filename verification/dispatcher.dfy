/**
 * `send_slack`: what happens to one alert. Without a webhook it is only
 * printed; with one, a failover alert is muted in maintenance mode, any
 * alert is throttled within the cooldown of the last one of its kind, and
 * otherwise a post is attempted, whose success alone records the time.
 */
module Dispatcher {
  import opened Alerts

  datatype Disposition =
    | Printed      // no webhook: `[ALERT] ...` on standard output
    | Muted        // maintenance mode, failover alert
    | Throttled    // within the cooldown of the last alert of its kind
    | Sent         // the post returned (whatever its HTTP status)
    | SendFailed   // the post raised

  /** The timestamps after dispatching one alert, and what happened to it. */
  datatype Dispatched = Dispatched(times: LastSent, disposition: Disposition)

  /** Whether an alert of kind `k` at `now` is still within the cooldown of the last one. */
  predicate InCooldown(cfg: Config, times: LastSent, k: Kind, now: real) {
    now - times.Get(k) < cfg.cooldown as real
  }

  /** `send_slack(message, alert.Kind())` at clock reading `now`; `postOk` says the post did not raise. */
  function Dispatch(cfg: Config, times: LastSent, alert: Alert, now: real, postOk: bool): (r: Dispatched)
    ensures !cfg.webhook ==> r == Dispatched(times, Printed)
    ensures r.disposition == Printed <==> !cfg.webhook
    ensures cfg.webhook && cfg.maintenance && alert.Failover? ==> r == Dispatched(times, Muted)
    ensures r.disposition == Muted <==> cfg.webhook && cfg.maintenance && alert.Failover?
    ensures alert.HighErrorRate? ==> r.disposition != Muted
    ensures r.disposition == Throttled <==>
      cfg.webhook && !(cfg.maintenance && alert.Failover?) && InCooldown(cfg, times, alert.Kind(), now)
    ensures r.disposition == Sent <==>
      cfg.webhook && !(cfg.maintenance && alert.Failover?) && !InCooldown(cfg, times, alert.Kind(), now) && postOk
    ensures r.disposition == SendFailed <==>
      cfg.webhook && !(cfg.maintenance && alert.Failover?) && !InCooldown(cfg, times, alert.Kind(), now) && !postOk
    ensures r.disposition == Sent ==> r.times == times.Set(alert.Kind(), now)
    ensures r.disposition != Sent ==> r.times == times
  {
    if !cfg.webhook then Dispatched(times, Printed)
    else if cfg.maintenance && alert.Failover? then Dispatched(times, Muted)
    else if InCooldown(cfg, times, alert.Kind(), now) then Dispatched(times, Throttled)
    else if postOk then Dispatched(times.Set(alert.Kind(), now), Sent)
    else Dispatched(times, SendFailed)
  }

  /** Only the dispatched kind's timestamp can change; the other kind's is untouched. */
  lemma OtherKindUntouched(cfg: Config, times: LastSent, alert: Alert, now: real, postOk: bool, other: Kind)
    requires other != alert.Kind()
    ensures Dispatch(cfg, times, alert, now, postOk).times.Get(other) == times.Get(other)
  {
  }

  /** With a non-negative cooldown, timestamps only move forward. */
  lemma TimesMoveForward(cfg: Config, times: LastSent, alert: Alert, now: real, postOk: bool, k: Kind)
    requires cfg.cooldown >= 0
    ensures Dispatch(cfg, times, alert, now, postOk).times.Get(k) >= times.Get(k)
  {
  }
}
