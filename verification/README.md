# Deferred-reboot logic of the update-manager sample

The sample activity lets a device apply system updates automatically while
putting off the reboot that activates them until 2 AM local time. This
project models the decision logic of that activity and of its reboot
receiver, and proves properties of it:

- **Next-2 AM rule** (`UpdateActivity.Next2am`, `GetNext2amTime`). Local
  time is a day number plus hour, minute, second and millisecond
  (`CivilTime.LocalTime`), with 24-hour days and no time zones. The wall
  clock is read in epoch milliseconds and split into those fields. The rule
  moves to the next day when the hour is 2 or later. It then sets the hour to
  2 and the minute to 0. Seconds and milliseconds carry over from "now".
- **Status reactor** (`UpdateActivity.HandleStatus`). This is a map from the
  update service's state to the enablement of the controls: check button,
  channel spinner, restart button, reboot message and pending version. For
  NEEDS_REBOOT it also arms a reboot alarm.
- **The reboot alarm** (`Alarms`). The `PendingIntent` is created with
  `FLAG_CANCEL_CURRENT | FLAG_ONE_SHOT`, so it acts as one slot: arming again
  overwrites it and firing empties it.
- **Button handlers** (`UpdateActivity.OnClick`, `UpdateActivity.Tap`).
  These are transitions on the same activity record. Requests to platform
  services are appended to a log. `Tap` adds Android's rule that a disabled
  view gets no clicks, which is what makes the handlers' double-tap guard
  work.
- **Reboot receiver** (`DeviceRebootReceiver`). It builds the restart intent
  and reboots only when an intent carries its action. The manual restart and
  the alarm both send this intent.
- **Sequential handling** (`StatusQueue.Drain`). The main thread handles
  status updates one at a time. `Drain` takes them in the order the main
  thread handles them.

The wall clock ("now") and the clock readings the alarm service sees are
parameters. `DeviceManager.reboot()` becomes a `Reboot` command. The
update-service calls and `sendBroadcast` become entries in the activity's
request log.

Two behaviours one might expect are not what the code does, and the model
follows the code:

- One might expect the maintenance instant to be exactly 02:00:00.000. The
  code sets only `HOUR_OF_DAY` and `MINUTE`, so the second and millisecond of
  "now" survive. `Next2am` keeps them.
- One might expect an IDLE status to cancel any pending reboot. The code
  never touches the alarm outside NEEDS_REBOOT, so `HandleStatus` leaves the
  alarm unchanged for every other state.

Other behaviour of the code that the model keeps:

- Handling a status can dereference null in two places. A DOWNLOADING status
  whose `pendingUpdateInfo` is null fails when the percentage is computed.
  A shown `pendingUpdateInfo` whose `versionInfo` is null fails when the
  pending version is formatted. `HandleStatus` returns a `Crash` for both.
  The crash carries the alarm slot as it stands at that point, because the
  alarm service runs outside the activity's process. For NEEDS_REBOOT the
  alarm is armed before the version is read, so it stays armed.
- A state code that matches no case of the switch leaves every control
  disabled. It still shows the pending version when one is present.
- The "restarting" label that the restart button gets on a click is never
  reset by a later status, so `HandleStatus` preserves it.

## Model

| member | source | states |
|---|---|---|
| CivilTime.FromMillis | app/src/main/java/com/example/androidthings/updatemanagersample/UpdateActivity.java:215 | Epoch milliseconds decompose into valid calendar fields that convert back to the same milliseconds |
| CivilTime.ToMillis | app/src/main/java/com/example/androidthings/updatemanagersample/UpdateActivity.java:222 | Valid calendar fields give an epoch time inside the day they name, at or after that day's start and before the next day's start |
| CivilTime.AddDays | app/src/main/java/com/example/androidthings/updatemanagersample/UpdateActivity.java:218 | Adding n days moves the epoch time by exactly n times 24 hours and leaves hour, minute, second and millisecond unchanged |
| CivilTime.FromMillisToMillis | app/src/main/java/com/example/androidthings/updatemanagersample/UpdateActivity.java:215-222 | Converting valid calendar fields to milliseconds and back is the identity, so a time in milliseconds names exactly one calendar reading |
| UpdateActivity.Next2am | app/src/main/java/com/example/androidthings/updatemanagersample/UpdateActivity.java:214-223 | The result has hour 2 and minute 0. Its second and millisecond equal now's. Its day is the next day exactly when now's hour is 2 or later, and the same day otherwise |
| UpdateActivity.GetNext2amTime | app/src/main/java/com/example/androidthings/updatemanagersample/UpdateActivity.java:209-223 | For a wall-clock reading in epoch milliseconds, the result is strictly after now and at most 24 hours later. It reads back as 02:00 with now's second and millisecond |
| UpdateActivity.Next2amWithinADay | app/src/main/java/com/example/androidthings/updatemanagersample/UpdateActivity.java:209-223 | The next 2 AM lies strictly after now and no more than one day after it |
| UpdateActivity.Next2amIsEarliest | app/src/main/java/com/example/androidthings/updatemanagersample/UpdateActivity.java:209-221 | Among the 02:00 instants that keep now's second and millisecond, the result is the earliest one strictly after now |
| UpdateActivity.Next2amOfItselfIsNextDay | app/src/main/java/com/example/androidthings/updatemanagersample/UpdateActivity.java:216-221 | Applied to its own output, the rule gives the same time one day later, so it has no fixpoint |
| UpdateActivity.GetNext2amTimeAtItsOwnResult | app/src/main/java/com/example/androidthings/updatemanagersample/UpdateActivity.java:214-223 | Asked again at the instant it returned, the epoch-time rule answers exactly one day later |
| UpdateActivity.ScheduleReboot | app/src/main/java/com/example/androidthings/updatemanagersample/UpdateActivity.java:230-237 | The alarm is armed at exactly the requested time, and the intent it holds is one the reboot receiver accepts |
| Alarms.Arm | app/src/main/java/com/example/androidthings/updatemanagersample/UpdateActivity.java:232-236 | Arming leaves the slot armed at the requested time with the requested payload, whatever it held before |
| Alarms.ArmTwiceKeepsLast | app/src/main/java/com/example/androidthings/updatemanagersample/UpdateActivity.java:232-233 | Re-arming the slot forgets whatever it held before (cancel-current) |
| Alarms.Tick | app/src/main/java/com/example/androidthings/updatemanagersample/UpdateActivity.java:232-236 | The alarm fires exactly when it is armed and the clock has reached its time. Firing delivers the armed payload and empties the slot (one-shot). Otherwise the slot is unchanged |
| Alarms.Run | app/src/main/java/com/example/androidthings/updatemanagersample/UpdateActivity.java:232-236 | Over any sequence of clock readings the alarm fires at most once. It fires exactly when it is armed and some reading reaches its time. It fires at the first such reading and delivers its payload. An empty slot never fires |
| Alarms.ArmTwiceFiresOnceAtSecond | app/src/main/java/com/example/androidthings/updatemanagersample/UpdateActivity.java:232-236 | Arming at T1 and then at T2 gives at most one firing, and never before T2 |
| UpdateActivity.HandleStatus | app/src/main/java/com/example/androidthings/updatemanagersample/UpdateActivity.java:152-207 | Check button and spinner are enabled iff the state is IDLE. Restart button and reboot message iff NEEDS_REBOOT. Pending version iff the state is not IDLE and pending info is present. Handling throws iff a DOWNLOADING status lacks pending info or shown pending info lacks a version. Whether or not it throws, the alarm is re-armed at the next-2 AM time iff NEEDS_REBOOT and is otherwise unchanged. The label, context and request log are unchanged |
| UpdateActivity.HandleStatusAlarmStep | app/src/main/java/com/example/androidthings/updatemanagersample/UpdateActivity.java:173-191 | The alarm left behind, after success or a crash, is the previous one, or the one armed for the next 2 AM on NEEDS_REBOOT |
| UpdateActivity.HandleStatusIgnoresPriorControls | app/src/main/java/com/example/androidthings/updatemanagersample/UpdateActivity.java:155-160 | Controls are cleared first, so the resulting controls do not depend on the previous ones |
| UpdateActivity.RepeatedNeedsRebootRearms | app/src/main/java/com/example/androidthings/updatemanagersample/UpdateActivity.java:182-191 | A second NEEDS_REBOOT re-arms the single alarm at the newly computed time |
| UpdateActivity.OnClick | app/src/main/java/com/example/androidthings/updatemanagersample/UpdateActivity.java:240-257 | CHECK NOW disables itself and requests an apply-only update. RESTART NOW disables itself, shows "restarting" and broadcasts the restart intent. Other views change nothing, and the alarm is never touched |
| UpdateActivity.Tap | app/src/main/java/com/example/androidthings/updatemanagersample/UpdateActivity.java:243-251 | A tap on an enabled view runs the click handler, and a tap on a disabled button changes nothing. Any tap adds at most one request, keeps the earlier requests and leaves the alarm alone |
| UpdateActivity.SecondTapIsIgnored | app/src/main/java/com/example/androidthings/updatemanagersample/UpdateActivity.java:243-251 | Double-tap guard: a second tap on the same view right after the first changes nothing. Two taps on an enabled button issue exactly one request |
| UpdateActivity.ManualRestartReboots | app/src/main/java/com/example/androidthings/updatemanagersample/UpdateActivity.java:250-254 | The broadcast sent by RESTART NOW is the restart intent, and the receiver reboots on it |
| UpdateActivity.ScheduledRestartReboots | app/src/main/java/com/example/androidthings/updatemanagersample/UpdateActivity.java:230-236 | The scheduled alarm fires iff the clock reaches its time. What it delivers is the restart intent, which makes the receiver reboot |
| StatusQueue.Drain | app/src/main/java/com/example/androidthings/updatemanagersample/UpdateActivity.java:152-207 | Handling statuses in the main thread's order fails iff one of them throws. On success the controls match the last status. The alarm is unchanged if no status was NEEDS_REBOOT, and otherwise is armed at the time computed for the last NEEDS_REBOOT. On a crash, the same holds for the statuses up to and including the one that threw |
| StatusQueue.CheckThenStageThenRebootScenario | app/src/main/java/com/example/androidthings/updatemanagersample/UpdateActivity.java:152-257 | Scenario: idle, then a tap on check now, downloading, finalizing and two NEEDS_REBOOT statuses. At the end only restart is enabled, one update check was requested, and the single alarm holds the latest computed time |
| StatusQueue.CrashKeepsArmedReboot | app/src/main/java/com/example/androidthings/updatemanagersample/UpdateActivity.java:173-191 | A NEEDS_REBOOT followed by a DOWNLOADING status without pending info crashes the activity, and the reboot alarm armed by the first stays pending |
| DeviceRebootReceiver.GetRestartIntent | app/src/main/java/com/example/androidthings/updatemanagersample/DeviceRebootReceiver.java:42-46 | The restart intent explicitly targets the receiver class in the caller's package and carries the reboot action |
| DeviceRebootReceiver.OnReceive | app/src/main/java/com/example/androidthings/updatemanagersample/DeviceRebootReceiver.java:49-62 | A null intent, or one whose action is null or different, issues no command. An intent with the reboot action issues exactly one reboot |
| DeviceRebootReceiver.RestartIntentIsAccepted | app/src/main/java/com/example/androidthings/updatemanagersample/DeviceRebootReceiver.java:42-61 | Round trip: the receiver reboots on the intent it builds, whatever the context |
| DeviceRebootReceiver.AcceptedIntentsCarryRebootAction | app/src/main/java/com/example/androidthings/updatemanagersample/DeviceRebootReceiver.java:50-52 | Any intent the receiver reboots on carries the restart intent's action |

## Left out

- Time zones, daylight-saving shifts and `Calendar` leniency are not modelled. Every day has 24 hours, so a 2 AM that a DST change skips or repeats is not represented.
- Reading the wall clock (`Calendar.getInstance()`) is not modelled; "now" is a parameter in epoch milliseconds.
- The 64-bit width of `long` milliseconds is not modelled. Epoch times are unbounded integers, and real dates are far from overflow.
- The thread hand-off in `onStatusUpdate` (lines 136-149) is not modelled. A status delivered on the main thread is handled at once. It can therefore be handled before a status that an earlier background-thread delivery posted, and the controls then end on the older status. `StatusQueue.Drain` takes the statuses in the order the main thread handles them, and it does not model how that order arises from the delivery order.
- A null `status` object is not modelled. The code assumes the status is non-null: it dereferences the delivered status at UpdateActivity.java line 161 and the polled one at line 123. `HandleStatus` therefore takes a `Status` value. Null `pendingUpdateInfo` and null `versionInfo` are modelled.
- The download percentage is floating point and only displayed, so it is left out. Only the null dereference that computing it can cause is kept.
- All display text is left out: the status text, formatted dates, version strings and `setVisibility` rendering. The controls' enablement and visibility are kept as booleans.
- `onCreate` and `onDestroy` are not modelled. That covers the update policy (apply only, 5-day deadline), the channel spinner's adapter and selection, listener registration and the initial status poll. They are setup calls into the platform with no decision logic. Handling the initial status is `HandleStatus` again.
- The platform services are not modelled: UpdateManager, AlarmManager, PendingIntent and DeviceManager. They appear only as the request log, the `Alarms` slot and the `Reboot` command.
- Broadcast delivery is not modelled: the model does not route an intent to the receiver its component names. `GetRestartIntent` states the target, and `OnReceive` checks only the action, as the code does.
- The constants' integer values are not modelled. Update states and view ids are abstract variants, because the platform and resource constants are not part of this model.
