/**
 * The slot grid both slot routes walk: from the opening time in steps of the slot
 * duration, each slot lasting the service duration, stopping at the first slot that
 * would run past closing. A duration of `None` stands for `NaN` (an unparsable
 * duration query), whose end time is an Invalid Date and never compares after closing.
 */
module SlotGrid {
  import opened Wrappers

  /** The loop keeps going at `cur`: it is before closing and its end does not pass it. */
  predicate Fits(cur: int, duration: Option<int>, close: int) {
    cur < close && (duration.None? || cur + duration.value <= close)
  }

  /** The loop stops: a slot that fits would never advance with a step that is not positive. */
  predicate Ends(cur: int, close: int, step: int, duration: Option<int>) {
    step > 0 || !Fits(cur, duration, close)
  }

  /** The slot starts the loop visits from `cur`. */
  function Starts(cur: int, close: int, step: int, duration: Option<int>): (r: seq<int>)
    requires Ends(cur, close, step, duration)
    ensures |r| > 0 ==> r[0] == cur
    ensures forall x :: x in r ==> cur <= x < close
    decreases close - cur
  {
    if Fits(cur, duration, close) then [cur] + Starts(cur + step, close, step, duration) else []
  }

  /** One step of the loop: a start that fits is followed by the starts from the next one. */
  lemma StartsStep(cur: int, close: int, step: int, duration: Option<int>)
    requires Ends(cur, close, step, duration) && Fits(cur, duration, close)
    ensures Ends(cur + step, close, step, duration)
    ensures Starts(cur, close, step, duration) == [cur] + Starts(cur + step, close, step, duration)
  {
  }

  /**
   * The grid exactly: the k-th start is `cur + k * step`, every start fits, and the
   * start after the last one does not.
   */
  lemma {:induction false} StartsShape(cur: int, close: int, step: int, duration: Option<int>)
    requires Ends(cur, close, step, duration)
    ensures var g := Starts(cur, close, step, duration);
      (forall k :: 0 <= k < |g| ==> g[k] == cur + k * step && Fits(g[k], duration, close))
      && !Fits(cur + |g| * step, duration, close)
    decreases close - cur
  {
    if Fits(cur, duration, close) {
      StartsShape(cur + step, close, step, duration);
      var t := Starts(cur + step, close, step, duration);
      var g := Starts(cur, close, step, duration);
      assert g == [cur] + t;
      forall k | 0 <= k < |g|
        ensures g[k] == cur + k * step && Fits(g[k], duration, close)
      {
        if k > 0 {
          assert g[k] == t[k - 1];
          assert cur + step + (k - 1) * step == cur + k * step;
        }
      }
      assert cur + step + |t| * step == cur + |g| * step;
    }
  }

  /** Starts strictly increase and stay in `[cur, close)`; each slot ends by closing time. */
  lemma StartsBounds(cur: int, close: int, step: int, duration: Option<int>)
    requires Ends(cur, close, step, duration)
    ensures var g := Starts(cur, close, step, duration);
      (forall k :: 0 <= k < |g| ==> cur <= g[k] < close)
      && (forall k :: 0 <= k < |g| ==> duration.Some? ==> g[k] + duration.value <= close)
      && (forall j, k :: 0 <= j < k < |g| ==> g[j] < g[k])
  {
    StartsShape(cur, close, step, duration);
    var g := Starts(cur, close, step, duration);
    if |g| > 0 {
      assert step > 0;
      forall j, k | 0 <= j < k < |g|
        ensures cur <= g[j] < g[k]
      {
        assert g[k] - g[j] == (k - j) * step;
        assert j * step >= 0;
      }
      forall k | 0 <= k < |g|
        ensures cur <= g[k]
      {
        assert k * step >= 0;
      }
    }
  }

  /** Once the step is positive the loop visits a slot for every start that fits. */
  lemma StartsLength(cur: int, close: int, step: int, duration: Option<int>, n: nat)
    requires step > 0
    requires forall k :: 0 <= k < n ==> Fits(cur + k * step, duration, close)
    requires !Fits(cur + n * step, duration, close)
    ensures |Starts(cur, close, step, duration)| == n
  {
    StartsShape(cur, close, step, duration);
    var g := Starts(cur, close, step, duration);
    assert |g| < n ==> Fits(cur + |g| * step, duration, close);
    forall k | 0 <= k < |g|
      ensures Fits(cur + k * step, duration, close)
    {
      assert g[k] == cur + k * step;
    }
  }

  /** The default shop day: 09:00 to 20:00 in half-hour steps gives 22 slots, the last at 19:30. */
  lemma DefaultDay()
    ensures |Starts(540, 1200, 30, Some(30))| == 22
    ensures Starts(540, 1200, 30, Some(30))[21] == 1170
  {
    forall k | 0 <= k < 22
      ensures Fits(540 + k * 30, Some(30), 1200)
    {
    }
    StartsLength(540, 1200, 30, Some(30), 22);
    StartsShape(540, 1200, 30, Some(30));
  }

  /** A 45-minute service in a 09:00-18:00 schedule with half-hour steps: the 17:30 slot is dropped. */
  lemma LongServiceDropsLastSlot()
    ensures |Starts(540, 1080, 30, Some(45))| == 17
    ensures Starts(540, 1080, 30, Some(45))[16] == 1020
  {
    forall k | 0 <= k < 17
      ensures Fits(540 + k * 30, Some(45), 1080)
    {
    }
    StartsLength(540, 1080, 30, Some(45), 17);
    StartsShape(540, 1080, 30, Some(45));
  }
}
