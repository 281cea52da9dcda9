/**
 * `request_window`: a `deque(maxlen=WINDOW_SIZE)` of statuses. Appending to a
 * full deque drops its leftmost (oldest) entry.
 */
module SlidingWindow {

  /** The last `n` elements of `s` (all of `s` when it is shorter), in order. */
  function LastN(s: seq<int>, n: nat): (r: seq<int>)
    ensures |r| == if |s| <= n then |s| else n
    ensures r == s[|s| - |r|..]
  {
    if |s| <= n then s else s[|s| - n..]
  }

  /** `request_window.append(x)` on a deque bounded by `capacity`. */
  function Append(w: seq<int>, capacity: nat, x: int): (r: seq<int>)
    requires |w| <= capacity
    ensures |r| <= capacity
    ensures r == LastN(w + [x], capacity)
    ensures |w| < capacity ==> r == w + [x]
    ensures 0 < |w| == capacity ==> r[..|r| - 1] == w[1..] && r[|r| - 1] == x
  {
    var grown := w + [x];
    if |grown| > capacity then grown[1..] else grown
  }

  /** Keeping the last `n` and then appending and keeping the last `n` again forgets nothing more. */
  lemma LastNAppend(s: seq<int>, n: nat, x: int)
    ensures LastN(LastN(s, n) + [x], n) == LastN(s + [x], n)
  {
    if |s| >= n && n > 0 {
      var kept := s[|s| - n..];
      assert LastN(kept + [x], n) == (kept + [x])[1..];
      assert (kept + [x])[1..] == s[|s| - n + 1..] + [x];
      assert (s + [x])[|s| + 1 - n..] == s[|s| - n + 1..] + [x];
    }
  }

  /** The same for an addition of at most one element, as a line contributes. */
  lemma LastNExtend(s: seq<int>, n: nat, more: seq<int>)
    requires |more| <= 1
    ensures LastN(LastN(s, n) + more, n) == LastN(s + more, n)
  {
    if more == [] {
      assert LastN(s, n) + more == LastN(s, n);
      assert s + more == s;
    } else {
      LastNAppend(s, n, more[0]);
      assert more == [more[0]];
    }
  }

  /** LastNExtend with the earlier elements split in two, as a window and a stream prefix. */
  lemma LastNExtendBy(base: seq<int>, earlier: seq<int>, more: seq<int>, n: nat)
    requires |more| <= 1
    ensures LastN(LastN(base + earlier, n) + more, n) == LastN(base + (earlier + more), n)
  {
    LastNExtend(base + earlier, n, more);
    assert base + earlier + more == base + (earlier + more);
  }
}
