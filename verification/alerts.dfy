/**
 * Vocabulary shared by the watcher's components: the two alert kinds, the
 * alerts themselves (kind plus payload, without the rendered message text),
 * the configuration and the per-kind "last sent" timestamps.
 */
module Alerts {

  /** The two keys of `last_alert_time`: 'failover' and 'error_rate'. */
  datatype Kind = FailoverKind | ErrorRateKind

  /** An alert condition: a pool change, or a window whose error rate is too high. */
  datatype Alert =
    | Failover(previous: string, current: string)
    | HighErrorRate(errors: nat, total: nat)
  {
    function Kind(): Kind {
      match this
      case Failover(_, _) => FailoverKind
      case HighErrorRate(_, _) => ErrorRateKind
    }
  }

  /**
   * Configuration read once at start-up from the environment:
   * ERROR_RATE_THRESHOLD (percent), WINDOW_SIZE, ALERT_COOLDOWN_SEC,
   * MAINTENANCE_MODE and whether SLACK_WEBHOOK_URL is set.
   */
  datatype Config = Config(
    threshold: real,
    capacity: nat,
    cooldown: int,
    maintenance: bool,
    webhook: bool)

  /** The defaults used when the environment sets nothing but the webhook. */
  function DefaultConfig(webhook: bool): Config {
    Config(2.0, 200, 300, false, webhook)
  }

  /** `last_alert_time`: one timestamp (seconds) per alert kind. */
  datatype LastSent = LastSent(failover: real, errorRate: real) {

    function Get(k: Kind): real {
      match k
      case FailoverKind => failover
      case ErrorRateKind => errorRate
    }

    /** The same timestamps with the one of kind `k` replaced by `t`. */
    function Set(k: Kind, t: real): (r: LastSent)
      ensures r.Get(k) == t
      ensures forall other: Kind :: other != k ==> r.Get(other) == Get(other)
    {
      match k
      case FailoverKind => LastSent(t, errorRate)
      case ErrorRateKind => LastSent(failover, t)
    }
  }

  /** Both kinds start at timestamp 0. */
  const NeverSent: LastSent := LastSent(0.0, 0.0)
}
