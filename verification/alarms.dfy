/** The platform alarm service as seen through one `PendingIntent` created
    with `FLAG_CANCEL_CURRENT | FLAG_ONE_SHOT`: a single slot that re-arming
    overwrites and that firing empties. Time is milliseconds since the epoch
    on the wall clock (`RTC_WAKEUP`); an exact, allow-while-idle alarm fires
    at the first clock reading at or after its time. */
module Alarms {
  import opened Wrappers

  datatype Slot<P> = Empty | Armed(at: int, payload: P)

  /** A delivery of `payload` at clock reading `time`. */
  datatype Firing<P> = Firing(time: int, payload: P)

  /** Arm the slot for `at`; whatever was pending before is cancelled. */
  function Arm<P>(slot: Slot<P>, at: int, payload: P): (r: Slot<P>)
    ensures r.Armed? && r.at == at && r.payload == payload
  {
    Armed(at, payload)
  }

  /** The clock reads `now`: a due alarm is delivered and consumed. */
  function Tick<P>(slot: Slot<P>, now: int): (r: (Slot<P>, Option<P>))
    ensures r.1.Some? <==> slot.Armed? && slot.at <= now
    ensures r.1.Some? ==> r.0 == Empty && r.1.value == slot.payload
    ensures r.1.None? ==> r.0 == slot
  {
    if slot.Armed? && slot.at <= now then (Empty, Some(slot.payload)) else (slot, None)
  }

  /** `ticks[i]` is the first clock reading at or after `at`. */
  ghost predicate FirstDue(at: int, ticks: seq<int>, i: int)
    requires 0 <= i < |ticks|
  {
    at <= ticks[i] && forall j :: 0 <= j < i ==> ticks[j] < at
  }

  /** Feed the clock readings `ticks` in order; collect the deliveries. */
  function Run<P>(slot: Slot<P>, ticks: seq<int>): (r: (Slot<P>, seq<Firing<P>>))
    ensures |r.1| <= 1
    ensures slot.Empty? ==> r == (Empty, [])
    ensures r.1 != [] <==> slot.Armed? && exists i :: 0 <= i < |ticks| && slot.at <= ticks[i]
    ensures r.1 != [] ==> r.0 == Empty && r.1[0].payload == slot.payload && slot.at <= r.1[0].time
    ensures r.1 == [] ==> r.0 == slot
    ensures r.1 != [] ==> exists i :: 0 <= i < |ticks| && ticks[i] == r.1[0].time && FirstDue(slot.at, ticks, i)
    decreases |ticks|
  {
    if |ticks| == 0 then
      (slot, [])
    else
      var (next, delivered) := Tick(slot, ticks[0]);
      var (final, later) := Run(next, ticks[1..]);
      assert forall i :: 1 <= i < |ticks| ==> ticks[i] == ticks[1..][i - 1];
      (final, (if delivered.Some? then [Firing(ticks[0], delivered.value)] else []) + later)
  }

  /** Re-arming replaces: arming twice is the same as arming once with the
      second request, whatever the slot held. */
  lemma ArmTwiceKeepsLast<P>(slot: Slot<P>, t1: int, p1: P, t2: int, p2: P)
    ensures Arm(Arm(slot, t1, p1), t2, p2) == Arm(Empty, t2, p2)
  {
  }

  /** Arming T1 and then T2 yields at most one delivery, never before T2,
      for any sequence of clock readings. */
  lemma ArmTwiceFiresOnceAtSecond<P>(slot: Slot<P>, t1: int, t2: int, p: P, ticks: seq<int>)
    ensures |Run(Arm(Arm(slot, t1, p), t2, p), ticks).1| <= 1
    ensures forall f :: f in Run(Arm(Arm(slot, t1, p), t2, p), ticks).1 ==> t2 <= f.time
  {
  }
}
