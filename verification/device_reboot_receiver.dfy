/** The broadcast receiver that reboots the device. It builds the one intent
    it accepts (`GetRestartIntent`) and, on delivery, reboots only when the
    intent carries its reboot action. */
module DeviceRebootReceiver {
  import opened Wrappers

  const ACTION_REBOOT: string := "updatemanagersample.action.REBOOT"

  /** Fully qualified class name the explicit intent targets. */
  const RECEIVER_CLASS: string := "com.example.androidthings.updatemanagersample.DeviceRebootReceiver"

  /** The part of an Android `Context` an explicit intent reads: its package. */
  datatype Context = Context(packageName: string)

  datatype ComponentName = ComponentName(packageName: string, className: string)

  /** An intent: an optional explicit target and an optional (nullable) action. */
  datatype Intent = Intent(component: Option<ComponentName>, action: Option<string>)

  /** Requests the receiver makes of the platform; `DeviceManager.reboot()` is the only one. */
  datatype Command = Reboot

  /** The receiver's own component in the application of `context`. */
  function ReceiverComponent(context: Context): ComponentName {
    ComponentName(context.packageName, RECEIVER_CLASS)
  }

  /** True when `intent` is explicitly addressed to this receiver. */
  predicate TargetsReceiver(intent: Intent, context: Context) {
    intent.component == Some(ReceiverComponent(context))
  }

  /** The intent that makes this receiver reboot the device. */
  function GetRestartIntent(context: Context): (intent: Intent)
    ensures TargetsReceiver(intent, context)
    ensures intent.action == Some(ACTION_REBOOT)
  {
    Intent(Some(ReceiverComponent(context)), Some(ACTION_REBOOT))
  }

  /** Platform requests issued on delivery of `intent` (None is a null intent). */
  function OnReceive(intent: Option<Intent>): (commands: seq<Command>)
    ensures |commands| <= 1
    ensures commands == [Reboot] <==> intent.Some? && intent.value.action == Some(ACTION_REBOOT)
    ensures commands == [] <==> intent.None? || intent.value.action != Some(ACTION_REBOOT)
  {
    if intent.None? || intent.value.action != Some(ACTION_REBOOT) then
      []
    else
      [Reboot]
  }

  /** Round trip: whatever the context, the receiver accepts the intent it builds. */
  lemma RestartIntentIsAccepted(context: Context)
    ensures OnReceive(Some(GetRestartIntent(context))) == [Reboot]
  {
  }

  /** The receiver reads only the action: any intent that makes it reboot
      agrees with `GetRestartIntent` on the action, whatever its target. */
  lemma AcceptedIntentsCarryRebootAction(intent: Intent, context: Context)
    requires OnReceive(Some(intent)) != []
    ensures intent.action == GetRestartIntent(context).action
  {
  }
}
