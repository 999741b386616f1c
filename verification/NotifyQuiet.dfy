/** Do not disturb and quiet hours (ADR 0049): whether a notification is held back at a moment, and until when.
    Times are Unix milliseconds. */
module NotifyQuiet {
  import opened Wrappers

  datatype Kind = Mail | Reminder

  /** [start, end): empty when it ends no later than it starts. */
  datatype Interval = Interval(start: int, end: int)

  datatype Plan = Plan(intervals: seq<Interval>, indefinite: bool, remindersWhileQuiet: bool)

  predicate Covers(interval: Interval, t: int) {
    interval.start <= t < interval.end
  }

  predicate Quiet(intervals: seq<Interval>, t: int) {
    exists i :: 0 <= i < |intervals| && Covers(intervals[i], t)
  }

  predicate Suppressed(plan: Plan, kind: Kind, now: int) {
    !(kind.Reminder? && plan.remindersWhileQuiet) && (plan.indefinite || Quiet(plan.intervals, now))
  }

  method Suppresses(plan: Plan, kind: Kind, now: int) returns (held: bool)
    ensures held <==> Suppressed(plan, kind, now)
    ensures held <==> !(kind == Reminder && plan.remindersWhileQuiet)
                      && (plan.indefinite || exists i :: 0 <= i < |plan.intervals| && Covers(plan.intervals[i], now))
  {
    if kind.Reminder? && plan.remindersWhileQuiet {
      return false;
    }
    if plan.indefinite {
      return true;
    }
    for i := 0 to |plan.intervals|
      invariant forall j | 0 <= j < i :: !Covers(plan.intervals[j], now)
    {
      if plan.intervals[i].start <= now < plan.intervals[i].end {
        assert Covers(plan.intervals[i], now);
        return true;
      }
    }
    return false;
  }

  /** No interval ends later than this. */
  function Horizon(intervals: seq<Interval>): (h: int)
    ensures forall i | 0 <= i < |intervals| :: intervals[i].end <= h
  {
    if intervals == [] then 0
    else
      var rest := Horizon(intervals[1..]);
      assert forall i | 1 <= i < |intervals| :: intervals[i] == intervals[1..][i - 1];
      if intervals[0].end > rest then intervals[0].end else rest
  }

  /** The first moment from `t` on that is in no interval, found one millisecond at a time. */
  function QuietEnd(intervals: seq<Interval>, t: int): (end: int)
    ensures t <= end && !Quiet(intervals, end)
    ensures forall u | t <= u < end :: Quiet(intervals, u)
    decreases Horizon(intervals) - t
  {
    if Quiet(intervals, t) then QuietEnd(intervals, t + 1) else t
  }

  /** It is the same moment seen from anywhere before it. */
  lemma {:induction false} QuietEndFromLater(intervals: seq<Interval>, t: int, u: int)
    requires t <= u <= QuietEnd(intervals, t)
    ensures QuietEnd(intervals, u) == QuietEnd(intervals, t)
    decreases u - t
  {
    if t < u { QuietEndFromLater(intervals, t + 1, u); }
  }

  function Until(plan: Plan, kind: Kind, now: int): Option<int> {
    if Suppressed(plan, kind, now) && !plan.indefinite then Some(QuietEnd(plan.intervals, now)) else None
  }

  /** When a notification stops being held back: from the end of an interval to the end of any that follows
      on from it, until nothing changes. */
  method SuppressedUntil(plan: Plan, kind: Kind, now: int) returns (until: Option<int>)
    ensures until == Until(plan, kind, now)
    ensures until.Some? ==> now < until.value && !Suppressed(plan, kind, until.value)
    ensures until.Some? ==> forall t | now <= t < until.value :: Suppressed(plan, kind, t)
  {
    var held := Suppresses(plan, kind, now);
    if !held || plan.indefinite {
      return None;
    }
    var end := now;
    var extended := true;
    while extended
      invariant now <= end <= QuietEnd(plan.intervals, now)
      invariant !extended ==> !Quiet(plan.intervals, end)
      decreases extended, QuietEnd(plan.intervals, now) - end
    {
      extended := false;
      ghost var from := end;
      for i := 0 to |plan.intervals|
        invariant from <= end <= QuietEnd(plan.intervals, now)
        invariant extended ==> from < end
        invariant !extended ==> from == end && forall j | 0 <= j < i :: !Covers(plan.intervals[j], end)
      {
        var interval := plan.intervals[i];
        if interval.start <= end < interval.end {
          assert Covers(interval, QuietEnd(plan.intervals, now)) || interval.end <= QuietEnd(plan.intervals, now);
          end, extended := interval.end, true;
        }
      }
    }
    QuietEndFromLater(plan.intervals, now, end);
    return Some(end);
  }
}
