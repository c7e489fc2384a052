/** Status updates handled one after another on the activity's main thread.
    A status delivered on the main thread is handled at once; one delivered
    on another thread is posted to the main thread's queue and handled
    later. `Drain` takes the statuses in the order the main thread handles
    them, which need not be the order the update service delivered them. */
module StatusQueue {
  import opened Wrappers
  import opened CivilTime
  import opened DeviceRebootReceiver
  import opened UpdateActivity
  import Alarms

  /** One status together with the wall-clock reading (epoch milliseconds)
      when the main thread handles it. */
  datatype Update = Update(status: Status, now: int)

  /** `us[k]` is the last NEEDS_REBOOT update in `us`. */
  predicate LastNeedsReboot(us: seq<Update>, k: int) {
    && 0 <= k < |us|
    && us[k].status.currentState == NeedsReboot
    && forall j :: k < j < |us| ==> us[j].status.currentState != NeedsReboot
  }

  /** `us[i]` is the first update whose handling throws. */
  predicate FirstCrash(us: seq<Update>, i: int) {
    && 0 <= i < |us|
    && Crashes(us[i].status)
    && forall j :: 0 <= j < i ==> !Crashes(us[j].status)
  }

  /** The alarm that handling `us` should leave, starting from `before`: the
      old one if no update needs a reboot, otherwise the one armed for the
      next 2 AM after the last NEEDS_REBOOT. */
  ghost predicate ArmedFor(alarm: Alarms.Slot<Intent>, before: Alarms.Slot<Intent>, context: Context, us: seq<Update>) {
    && ((forall i :: 0 <= i < |us| ==> us[i].status.currentState != NeedsReboot) ==> alarm == before)
    && forall k :: LastNeedsReboot(us, k) ==>
         alarm == Alarms.Armed(GetNext2amTime(us[k].now), GetRestartIntent(context))
  }

  /** `ArmedFor` unfolds one update at the front. */
  lemma {:induction false} ArmedForStep(alarm: Alarms.Slot<Intent>, before: Alarms.Slot<Intent>, context: Context, us: seq<Update>)
    requires |us| > 0
    requires ArmedFor(alarm, AlarmStep(before, context, us[0].status, us[0].now), context, us[1..])
    ensures ArmedFor(alarm, before, context, us)
  {
    forall k | LastNeedsReboot(us, k)
      ensures alarm == Alarms.Armed(GetNext2amTime(us[k].now), GetRestartIntent(context))
    {
      if k > 0 {
        assert LastNeedsReboot(us[1..], k - 1);
      } else {
        assert forall i :: 0 <= i < |us[1..]| ==> us[1..][i].status.currentState != NeedsReboot;
      }
    }
    if forall i :: 0 <= i < |us| ==> us[i].status.currentState != NeedsReboot {
      assert forall i :: 0 <= i < |us[1..]| ==> us[1..][i].status.currentState != NeedsReboot;
    }
  }

  /** Handle the updates in order, stopping at the first that throws. */
  function Drain(a: Activity, us: seq<Update>): (r: Result<Activity, Crash>)
    ensures r.Failure? <==> exists i :: 0 <= i < |us| && Crashes(us[i].status)
    ensures r.Success? ==> r.value.context == a.context && r.value.requests == a.requests
    ensures r.Success? ==> r.value.ui.restarting == a.ui.restarting
    ensures r.Success? && |us| > 0 ==> ShowsState(r.value.ui, us[|us| - 1].status)
    ensures r.Success? && |us| == 0 ==> r.value == a
    ensures r.Success? ==> ArmedFor(r.value.alarm, a.alarm, a.context, us)
    ensures r.Failure? ==> forall i :: FirstCrash(us, i) ==>
              ArmedFor(r.error.alarm, a.alarm, a.context, us[..i + 1])
    decreases |us|
  {
    if |us| == 0 then
      Success(a)
    else
      var first := HandleStatus(a, us[0].status, us[0].now);
      HandleStatusAlarmStep(a, us[0].status, us[0].now);
      match first
      case Failure(c) =>
        CrashAtHead(c.alarm, a.alarm, a.context, us);
        Failure(c)
      case Success(b) =>
        var r := Drain(b, us[1..]);
        TailIndices(us);
        if r.Success? then
          ArmedForStep(r.value.alarm, a.alarm, a.context, us);
          r
        else
          forall i | FirstCrash(us, i)
            ensures ArmedFor(r.error.alarm, a.alarm, a.context, us[..i + 1])
          {
            CrashInTail(us, i);
            ArmedForStep(r.error.alarm, a.alarm, a.context, us[..i + 1]);
          }
          r
  }

  /** Indexing into `us[1..]` is indexing into `us` one further on. */
  lemma TailIndices(us: seq<Update>)
    requires |us| > 0
    ensures forall i :: 1 <= i < |us| ==> us[1..][i - 1] == us[i]
  {
  }

  /** When the first update throws, it is the first crash, and the alarm it
      leaves is the one `ArmedFor` expects of that one update. */
  lemma CrashAtHead(alarm: Alarms.Slot<Intent>, before: Alarms.Slot<Intent>, context: Context, us: seq<Update>)
    requires |us| > 0 && Crashes(us[0].status)
    requires alarm == AlarmStep(before, context, us[0].status, us[0].now)
    ensures forall i :: FirstCrash(us, i) ==> ArmedFor(alarm, before, context, us[..i + 1])
  {
    assert us[..1][1..] == [];
    ArmedForStep(alarm, before, context, us[..1]);
    assert forall i :: FirstCrash(us, i) ==> i == 0;
  }

  /** A first crash after a head that does not throw is a first crash of the tail. */
  lemma CrashInTail(us: seq<Update>, i: int)
    requires FirstCrash(us, i) && !Crashes(us[0].status)
    ensures 0 < i && FirstCrash(us[1..], i - 1)
    ensures |us[..i + 1]| > 0 && us[..i + 1][0] == us[0] && us[..i + 1][1..] == us[1..][..i]
  {
  }

  /** The scenario the activity exists for: idle, the user checks now, the
      update downloads, finalizes and needs a reboot, and the service repeats
      NEEDS_REBOOT. Only the restart action is enabled at the end, one update
      check was requested, and the single alarm holds the time computed for
      the latest NEEDS_REBOOT. */
  lemma CheckThenStageThenRebootScenario(
    a: Activity, p: PendingUpdateInfo,
    t0: int, t1: int, t2: int, t3: int, t4: int)
    requires p.versionInfo.Some?
    ensures var idle := Drain(a, [Update(Status(Idle, None), t0)]);
            && idle.Success?
            && var checked := Tap(idle.value, CheckNowButton);
               var done := Drain(checked, [
                 Update(Status(Downloading, Some(p)), t1),
                 Update(Status(Finalizing, Some(p)), t2),
                 Update(Status(NeedsReboot, Some(p)), t3),
                 Update(Status(NeedsReboot, Some(p)), t4)]);
               && done.Success?
               && done.value.requests == a.requests + [PerformUpdateNow(ApplyOnly)]
               && done.value.ui.restartEnabled && done.value.ui.rebootMessageVisible
               && !done.value.ui.checkEnabled && !done.value.ui.channelSpinnerEnabled
               && done.value.ui.pendingVersionVisible
               && done.value.alarm == Alarms.Armed(GetNext2amTime(t4), GetRestartIntent(a.context))
  {
    var us := [
      Update(Status(Downloading, Some(p)), t1),
      Update(Status(Finalizing, Some(p)), t2),
      Update(Status(NeedsReboot, Some(p)), t3),
      Update(Status(NeedsReboot, Some(p)), t4)];
    assert LastNeedsReboot(us, 3);
  }

  /** A crash does not disarm: after a NEEDS_REBOOT, a DOWNLOADING status
      without pending info kills the activity, and the reboot alarm armed
      before it stays pending. */
  lemma CrashKeepsArmedReboot(a: Activity, s1: Status, s2: Status, t1: int, t2: int)
    requires s1.currentState == NeedsReboot && !Crashes(s1)
    requires s2.currentState == Downloading && s2.pendingUpdateInfo.None?
    ensures var r := Drain(a, [Update(s1, t1), Update(s2, t2)]);
            && r.Failure? && r.error.fault == NullPendingUpdateInfo
            && r.error.alarm == Alarms.Armed(GetNext2amTime(t1), GetRestartIntent(a.context))
  {
    var us := [Update(s1, t1), Update(s2, t2)];
    assert FirstCrash(us, 1);
    assert LastNeedsReboot(us[..2], 0);
  }
}
