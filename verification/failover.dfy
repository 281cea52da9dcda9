/**
 * `check_failover`: edge detection on the single remembered pool label.
 * An empty pool, or the very first observation, only overwrites the
 * remembered label; a non-empty pool different from it requests an alert
 * and becomes the new remembered label.
 */
module Failover {
  import opened Wrappers
  import opened Alerts

  /** The remembered pool after one observation, and the alert it requests. */
  datatype Observation = Observation(lastPool: Option<string>, alert: Option<Alert>)

  function Observe(lastPool: Option<string>, pool: string): (r: Observation)
    ensures r.lastPool == Some(pool)
    ensures r.alert.Some? <==> pool != "" && lastPool.Some? && lastPool.value != pool
    ensures r.alert.Some? ==> r.alert.value == Failover(lastPool.value, pool)
  {
    if pool == "" || lastPool.None? then Observation(Some(pool), None)
    else if pool != lastPool.value then Observation(Some(pool), Some(Failover(lastPool.value, pool)))
    else Observation(lastPool, None)
  }

  /** The alerts requested while observing `pools` in order, from the start-up state. */
  datatype History = History(lastPool: Option<string>, alerts: seq<Alert>)

  function ObserveAll(pools: seq<string>): (r: History)
    ensures pools != [] ==> r.lastPool == Some(pools[|pools| - 1])
    ensures pools == [] ==> r.lastPool.None?
    decreases |pools|
  {
    if pools == [] then History(None, [])
    else
      var before := ObserveAll(pools[..|pools| - 1]);
      var o := Observe(before.lastPool, pools[|pools| - 1]);
      History(o.lastPool, before.alerts + (if o.alert.Some? then [o.alert.value] else []))
  }

  /** One failover per neighbouring pair of distinct pools, read left to right. */
  function Transitions(pools: seq<string>): seq<Alert>
    decreases |pools|
  {
    if |pools| < 2 then []
    else (if pools[0] != pools[1] then [Failover(pools[0], pools[1])] else []) + Transitions(pools[1..])
  }

  lemma {:induction false} TransitionsSnoc(pools: seq<string>, p: string)
    requires pools != []
    ensures Transitions(pools + [p]) ==
      Transitions(pools) + (if pools[|pools| - 1] != p then [Failover(pools[|pools| - 1], p)] else [])
    decreases |pools|
  {
    if |pools| > 1 {
      assert (pools + [p])[1..] == pools[1..] + [p];
      TransitionsSnoc(pools[1..], p);
    }
  }

  predicate NonEmpty(pools: seq<string>) {
    forall i :: 0 <= i < |pools| ==> pools[i] != ""
  }

  /** Over non-empty pool labels, exactly the changes between neighbours alert, in order. */
  lemma {:induction false} ObserveAllIsTransitions(pools: seq<string>)
    requires NonEmpty(pools)
    ensures ObserveAll(pools).alerts == Transitions(pools)
    decreases |pools|
  {
    if |pools| > 1 {
      var init := pools[..|pools| - 1];
      ObserveAllIsTransitions(init);
      TransitionsSnoc(init, pools[|pools| - 1]);
      assert init + [pools[|pools| - 1]] == pools;
    }
  }

  /** A stream that repeats one pool never alerts, the first observation included. */
  lemma {:induction false} SamePoolNeverAlerts(pools: seq<string>, p: string)
    requires forall i :: 0 <= i < |pools| ==> pools[i] == p
    ensures ObserveAll(pools).alerts == []
    decreases |pools|
  {
    if pools != [] {
      SamePoolNeverAlerts(pools[..|pools| - 1], p);
    }
  }

  /** An empty pool label is remembered as "", so the next non-empty label alerts from "". */
  lemma EmptyPoolResets(lastPool: Option<string>, next: string)
    requires next != ""
    ensures Observe(Observe(lastPool, "").lastPool, next).alert == Some(Failover("", next))
  {
  }

  /** The pool sequence A, A, A, B alerts exactly once, A -> B, on the fourth line. */
  lemma AAAB()
    ensures ObserveAll(["A", "A", "A"]).alerts == []
    ensures ObserveAll(["A", "A", "A", "B"]).alerts == [Failover("A", "B")]
  {
    SamePoolNeverAlerts(["A", "A", "A"], "A");
    assert ["A", "A", "A", "B"][..3] == ["A", "A", "A"];
  }
}
