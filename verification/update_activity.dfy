/** The decision logic of the update activity: the next-2 AM rule, the map
    from the update service's status to which controls are enabled or shown,
    the reboot alarm it arms, and the two button handlers. Platform services
    appear only as the alarm slot and a log of requests. */
module UpdateActivity {
  import opened Wrappers
  import opened CivilTime
  import opened DeviceRebootReceiver
  import Alarms

  /** `UpdateManagerStatus.currentState`. `Other` stands for any code that
      matches none of the six cases of the status switch. */
  datatype UpdateState =
    | Idle
    | UpdateAvailable
    | Downloading
    | Finalizing
    | NeedsReboot
    | ReportingError
    | Other(code: int)

  datatype VersionInfo = VersionInfo(androidThingsVersion: string, buildId: string)

  /** The staged or in-flight update; its `versionInfo` reference may be
      null. The download fraction is not modelled. */
  datatype PendingUpdateInfo = PendingUpdateInfo(versionInfo: Option<VersionInfo>)

  /** The parts of `UpdateManagerStatus` the status handler reads. */
  datatype Status = Status(
    currentState: UpdateState,
    pendingUpdateInfo: Option<PendingUpdateInfo>)

  /** Enablement and visibility of the activity's controls. `restarting`
      records that the restart button's label was switched to "restarting". */
  datatype Ui = Ui(
    checkEnabled: bool,
    channelSpinnerEnabled: bool,
    restartEnabled: bool,
    restarting: bool,
    rebootMessageVisible: bool,
    pendingVersionVisible: bool)

  datatype Policy = ApplyOnly

  /** Requests the activity hands to platform services. */
  datatype Request =
    | PerformUpdateNow(policy: Policy)
    | SendBroadcast(intent: Intent)

  /** The activity's observable state: its context, its controls, the
      one-slot reboot alarm and the requests issued so far. */
  datatype Activity = Activity(
    context: Context,
    ui: Ui,
    alarm: Alarms.Slot<Intent>,
    requests: seq<Request>)

  /** How handling a status can throw: reading the download progress of a
      DOWNLOADING status whose `pendingUpdateInfo` is null, or reading the
      pending version of a `pendingUpdateInfo` whose `versionInfo` is null. */
  datatype Fault = NullPendingUpdateInfo | NullVersionInfo

  /** The activity's process dies with `fault`. The alarm service runs
      outside that process, so `alarm` is what stays armed afterwards. */
  datatype Crash = Crash(fault: Fault, alarm: Alarms.Slot<Intent>)

  datatype View = CheckNowButton | RestartNowButton | OtherView(id: int)

  // ---------------------------------------------------------------------
  // The next-2 AM rule

  /** The next maintenance instant: tomorrow if the hour of day is already
      2 or later, today otherwise, with hour set to 2 and minute to 0.
      Seconds and milliseconds are not reset and carry over from `now`. */
  function Next2am(now: LocalTime): (next: LocalTime)
    requires now.Valid()
    ensures next.Valid()
    ensures next.hour == 2 && next.minute == 0
    ensures next.second == now.second && next.milli == now.milli
    ensures next.day == if now.hour >= 2 then now.day + 1 else now.day
  {
    var base := if now.hour >= 2 then AddDays(now, 1) else now;
    base.(hour := 2).(minute := 0)
  }

  /** `getNext2amTime`: the calendar reads the wall clock `now` (epoch
      milliseconds) and the next maintenance instant is returned in epoch
      milliseconds. It is strictly after now, at most one day later, and
      reads back as 02:00 with now's second and millisecond. */
  function GetNext2amTime(now: int): (time: int)
    ensures now < time <= now + MillisPerDay
    ensures FromMillis(time).hour == 2 && FromMillis(time).minute == 0
    ensures FromMillis(time).second == FromMillis(now).second
    ensures FromMillis(time).milli == FromMillis(now).milli
  {
    var next := Next2am(FromMillis(now));
    Next2amWithinADay(FromMillis(now));
    FromMillisToMillis(next);
    ToMillis(next)
  }

  /** The next 2 AM lies in the half-open day after `now`. */
  lemma Next2amWithinADay(now: LocalTime)
    requires now.Valid()
    ensures ToMillis(now) < ToMillis(Next2am(now)) <= ToMillis(now) + MillisPerDay
  {
  }

  /** Among the instants at 02:00 that keep now's second and millisecond,
      `Next2am` is the earliest one strictly after now. */
  lemma Next2amIsEarliest(now: LocalTime, t: LocalTime)
    requires now.Valid() && t.Valid()
    requires t.hour == 2 && t.minute == 0 && t.second == now.second && t.milli == now.milli
    requires ToMillis(now) < ToMillis(t)
    ensures ToMillis(Next2am(now)) <= ToMillis(t)
  {
  }

  /** Applied to its own output the rule gives the following day: 02:00 is
      already "2 or later", so there is no fixpoint. */
  lemma Next2amOfItselfIsNextDay(now: LocalTime)
    requires now.Valid()
    ensures Next2am(Next2am(now)) == AddDays(Next2am(now), 1)
  {
  }

  /** The same on the epoch clock: asked again at the instant it returned,
      `getNext2amTime` answers exactly one day later. */
  lemma GetNext2amTimeAtItsOwnResult(now: int)
    ensures GetNext2amTime(GetNext2amTime(now)) == GetNext2amTime(now) + MillisPerDay
  {
    var next := Next2am(FromMillis(now));
    FromMillisToMillis(next);
    Next2amOfItselfIsNextDay(FromMillis(now));
  }

  // ---------------------------------------------------------------------
  // Scheduling the reboot

  /** `scheduleReboot`: arm the single reboot alarm for `time` with the
      receiver's restart intent; an earlier pending alarm is cancelled. */
  function ScheduleReboot(alarm: Alarms.Slot<Intent>, context: Context, time: int): (r: Alarms.Slot<Intent>)
    ensures r.Armed? && r.at == time
    ensures OnReceive(Some(r.payload)) == [Reboot]
  {
    Alarms.Arm(alarm, time, GetRestartIntent(context))
  }

  // ---------------------------------------------------------------------
  // The status reactor

  /** The controls as `handleStatusUpdate` leaves them for `state`; this is
      the table the reactor follows, stated per control. */
  predicate ShowsState(ui: Ui, status: Status) {
    && (ui.checkEnabled <==> status.currentState == Idle)
    && (ui.channelSpinnerEnabled <==> status.currentState == Idle)
    && (ui.restartEnabled <==> status.currentState == NeedsReboot)
    && (ui.rebootMessageVisible <==> status.currentState == NeedsReboot)
    && (ui.pendingVersionVisible <==> status.currentState != Idle && status.pendingUpdateInfo.Some?)
  }

  /** True when handling `status` dereferences a null reference: the
      download progress of a DOWNLOADING status without pending info, or the
      version of pending info that is shown but has no `versionInfo`. */
  predicate Crashes(status: Status) {
    || (status.currentState == Downloading && status.pendingUpdateInfo.None?)
    || (status.currentState != Idle && status.pendingUpdateInfo.Some?
        && status.pendingUpdateInfo.value.versionInfo.None?)
  }

  /** The alarm slot after handling a status, whether or not it threw. */
  function AlarmOf(r: Result<Activity, Crash>): Alarms.Slot<Intent> {
    match r
    case Success(b) => b.alarm
    case Failure(c) => c.alarm
  }

  /** The alarm after one status: re-armed for the next 2 AM on NEEDS_REBOOT,
      untouched otherwise. */
  function AlarmStep(alarm: Alarms.Slot<Intent>, context: Context, status: Status, now: int): Alarms.Slot<Intent> {
    if status.currentState == NeedsReboot then
      Alarms.Armed(GetNext2amTime(now), GetRestartIntent(context))
    else
      alarm
  }

  /** `handleStatusUpdate`, with the wall clock reading `now` passed in.
      All controls are first disabled and the reboot message hidden; the
      case for the current state then re-enables what it needs. A null
      dereference ends in a `Crash` that keeps whatever alarm was armed by
      then: a NEEDS_REBOOT status arms it before the pending version is read. */
  function HandleStatus(a: Activity, status: Status, now: int): (r: Result<Activity, Crash>)
    ensures r.Failure? <==> Crashes(status)
    ensures r.Failure? ==>
              (r.error.fault == NullPendingUpdateInfo <==> status.pendingUpdateInfo.None?)
    ensures r.Success? ==> ShowsState(r.value.ui, status)
    ensures r.Success? ==> r.value.ui.restarting == a.ui.restarting
    ensures r.Success? ==> r.value.context == a.context && r.value.requests == a.requests
    ensures status.currentState == NeedsReboot ==>
              AlarmOf(r) == Alarms.Armed(GetNext2amTime(now), GetRestartIntent(a.context))
    ensures status.currentState != NeedsReboot ==> AlarmOf(r) == a.alarm
  {
    var cleared := a.ui.(channelSpinnerEnabled := false, checkEnabled := false,
                         restartEnabled := false, rebootMessageVisible := false);
    var switched: Result<(bool, Ui, Alarms.Slot<Intent>), Crash> :=
      match status.currentState
      case Idle =>
        Success((false, cleared.(checkEnabled := true).(channelSpinnerEnabled := true), a.alarm))
      case UpdateAvailable =>
        Success((true, cleared, a.alarm))
      case Downloading =>
        if status.pendingUpdateInfo.None? then Failure(Crash(NullPendingUpdateInfo, a.alarm))
        else Success((true, cleared, a.alarm))
      case Finalizing =>
        Success((true, cleared, a.alarm))
      case NeedsReboot =>
        var time := GetNext2amTime(now);
        Success((true, cleared.(restartEnabled := true).(rebootMessageVisible := true),
                 ScheduleReboot(a.alarm, a.context, time)))
      case ReportingError =>
        Success((true, cleared, a.alarm))
      case Other(_) =>
        Success((true, cleared, a.alarm));
    match switched
    case Failure(c) => Failure(c)
    case Success((pendingVersionVisible, ui, alarm)) =>
      if pendingVersionVisible && status.pendingUpdateInfo.Some? then
        if status.pendingUpdateInfo.value.versionInfo.None? then
          Failure(Crash(NullVersionInfo, alarm))
        else
          Success(a.(ui := ui.(pendingVersionVisible := true), alarm := alarm))
      else
        Success(a.(ui := ui.(pendingVersionVisible := false), alarm := alarm))
  }

  /** Whether or not handling throws, the alarm left behind is the one
      `AlarmStep` predicts. */
  lemma HandleStatusAlarmStep(a: Activity, status: Status, now: int)
    ensures AlarmOf(HandleStatus(a, status, now)) == AlarmStep(a.alarm, a.context, status, now)
  {
  }

  /** The reactor is a function of the status alone: two activities with the
      same context and label end in the same controls and, unless a reboot
      is armed, keep their own alarms. */
  lemma HandleStatusIgnoresPriorControls(a: Activity, b: Activity, status: Status, now: int)
    requires a.context == b.context && a.ui.restarting == b.ui.restarting
    requires !Crashes(status)
    ensures HandleStatus(a, status, now).value.ui == HandleStatus(b, status, now).value.ui
    ensures status.currentState == NeedsReboot ==>
              HandleStatus(a, status, now).value.alarm == HandleStatus(b, status, now).value.alarm
  {
  }

  /** A repeated NEEDS_REBOOT update re-arms the one alarm at the newly
      computed time; nothing of the first request survives. */
  lemma RepeatedNeedsRebootRearms(a: Activity, s1: Status, s2: Status, t1: int, t2: int)
    requires s1.currentState == NeedsReboot && s2.currentState == NeedsReboot
    requires !Crashes(s1)
    ensures HandleStatus(a, s1, t1).Success?
    ensures AlarmOf(HandleStatus(HandleStatus(a, s1, t1).value, s2, t2))
         == Alarms.Armed(GetNext2amTime(t2), GetRestartIntent(a.context))
  {
  }

  // ---------------------------------------------------------------------
  // Button handlers

  /** `onClick`: CHECK NOW disables itself and asks for an apply-only update
      check; RESTART NOW disables itself, shows "restarting" and broadcasts
      the restart intent. Other views are ignored. The alarm is never
      touched. */
  function OnClick(a: Activity, v: View): (r: Activity)
    ensures r.context == a.context && r.alarm == a.alarm
    ensures v.OtherView? ==> r == a
    ensures v.CheckNowButton? ==>
              && !r.ui.checkEnabled
              && r.ui == a.ui.(checkEnabled := false)
              && r.requests == a.requests + [PerformUpdateNow(ApplyOnly)]
    ensures v.RestartNowButton? ==>
              && !r.ui.restartEnabled && r.ui.restarting
              && r.ui == a.ui.(restartEnabled := false, restarting := true)
              && r.requests == a.requests + [SendBroadcast(GetRestartIntent(a.context))]
  {
    match v
    case CheckNowButton =>
      a.(ui := a.ui.(checkEnabled := false),
         requests := a.requests + [PerformUpdateNow(ApplyOnly)])
    case RestartNowButton =>
      a.(ui := a.ui.(restartEnabled := false).(restarting := true),
         requests := a.requests + [SendBroadcast(GetRestartIntent(a.context))])
    case OtherView(_) =>
      a
  }

  /** Whether a click on `v` reaches `onClick`: Android delivers no clicks
      to a disabled view. Views whose enablement the model does not track
      are taken as enabled. */
  predicate Clickable(ui: Ui, v: View) {
    match v
    case CheckNowButton => ui.checkEnabled
    case RestartNowButton => ui.restartEnabled
    case OtherView(_) => true
  }

  /** A user's tap on `v`: handled by `onClick` when the view is enabled,
      dropped otherwise. */
  function Tap(a: Activity, v: View): (r: Activity)
    ensures Clickable(a.ui, v) ==> r == OnClick(a, v)
    ensures !Clickable(a.ui, v) ==> r == a
    ensures r.context == a.context && r.alarm == a.alarm
    ensures |a.requests| <= |r.requests| <= |a.requests| + 1
    ensures r.requests[..|a.requests|] == a.requests
  {
    if Clickable(a.ui, v) then OnClick(a, v) else a
  }

  /** The double-tap guard: a second tap on the same view right after the
      first changes nothing, so two taps issue at most one request. */
  lemma SecondTapIsIgnored(a: Activity, v: View)
    ensures Tap(Tap(a, v), v) == Tap(a, v)
    ensures |Tap(Tap(a, v), v).requests| <= |a.requests| + 1
    ensures Clickable(a.ui, v) && !v.OtherView? ==> |Tap(Tap(a, v), v).requests| == |a.requests| + 1
  {
  }

  /** The manual restart broadcasts the receiver's restart intent, which
      reaches the reboot path. */
  lemma ManualRestartReboots(a: Activity)
    ensures var r := OnClick(a, RestartNowButton);
            && r.requests[|a.requests|] == SendBroadcast(GetRestartIntent(a.context))
            && OnReceive(Some(r.requests[|a.requests|].intent)) == [Reboot]
  {
  }

  /** The scheduled reboot fires once the clock reaches its time, delivering
      the same intent the manual restart broadcasts, which reaches the reboot
      path. */
  lemma ScheduledRestartReboots(a: Activity, time: int, ticks: seq<int>)
    ensures var fired := Alarms.Run(ScheduleReboot(a.alarm, a.context, time), ticks).1;
            && (fired != [] <==> exists i :: 0 <= i < |ticks| && time <= ticks[i])
            && forall f :: f in fired ==>
                 f.payload == GetRestartIntent(a.context) && OnReceive(Some(f.payload)) == [Reboot]
  {
  }
}
