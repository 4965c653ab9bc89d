/**
 * The alert poller (`_get_alerts` in __init__.py), run by the host's
 * repeating timer. The vendor client's alert list and whether the ding sound
 * plays are inputs; everything the poller does is the effect trace.
 */
module Alerts {
  import opened Wrappers
  import opened Host
  import opened Config
  import opened DeviceRegistry
  import Authenticator

  const Ding: string := "ding"
  const Motion: string := "motion"
  const OnDemand: string := "on_demand"

  const DingDialog: string := "ring.ding"
  const MotionDialog: string := "ring.motion"
  const OnDemandDialog: string := "ring.on_demand"

  /** One active alert; a field the vendor left out raises when it is read. */
  datatype Alert = Alert(kind: Option<string>, description: Option<string>)

  /** How one poll ends: nothing to do, an alert announced, an exception
      caught while handling the alert at `index`, or an exception that leaves
      the poller (raised before the guarded part). */
  datatype PollEnd = Quiet | Acted(index: nat) | Caught(index: nat) | Uncaught

  /** The vendor calls of a poll that finds alerts: refresh, the emptiness
      test, and the list that is iterated. */
  const Polled: seq<Effect> := [UpdateDings, ActiveAlerts, ActiveAlerts]

  /** The user has enabled announcements for this kind of alert. */
  predicate Enabled(cfg: Config, kind: string) {
    || (kind == Ding && Truthy(cfg.dingAlerts))
    || (kind == Motion && Truthy(cfg.motionAlerts))
    || (kind == OnDemand && Truthy(cfg.onDemandAlerts))
  }

  /** The iteration stops at this alert: its kind cannot be read, or it is a
      recognised kind whose announcements are enabled. */
  predicate Stops(cfg: Config, a: Alert) {
    a.kind.None? || Enabled(cfg, a.kind.value)
  }

  /** Handling a stopping alert raises: a missing field, or the ding sound
      failing to play. */
  predicate Faulty(a: Alert, playbackOk: bool) {
    a.kind.None? || a.description.None? || (a.kind == Some(Ding) && !playbackOk)
  }

  /** There is something to poll, the sound path can be formed and a session exists. */
  predicate Ready(cfg: Config, registry: Registry, session: Option<Authenticator.Session>) {
    |registry| > 0 && cfg.dingSound.Text? && session.Some?
  }

  lemma PolledIsSilent()
    ensures Count(Polled, IsDialog) == 0 && Count(Polled, IsSound) == 0
  {
    assert Polled[1..][1..][1..] == [];
  }

  /** One poll: announces the first alert, in list order, whose kind is
      enabled, and nothing else. */
  method GetAlerts(cfg: Config, registry: Registry, session: Option<Authenticator.Session>,
                   alerts: seq<Alert>, playbackOk: bool)
    returns (end: PollEnd, effects: seq<Effect>)
    // no devices: no vendor call and no output
    ensures |registry| == 0 ==> end == Quiet && effects == []
    ensures end == Uncaught <==> |registry| > 0 && !(cfg.dingSound.Text? && session.Some?)
    ensures end == Uncaught ==> effects == []
    ensures Ready(cfg, registry, session) && alerts == [] ==> end == Quiet && effects == [UpdateDings, ActiveAlerts]
    // nothing qualifies: the poll ends without output
    ensures end == Quiet <==>
      |registry| == 0 || (Ready(cfg, registry, session) && forall j :: 0 <= j < |alerts| ==> !Stops(cfg, alerts[j]))
    ensures end == Quiet && |registry| > 0 ==> effects == (if alerts == [] then [UpdateDings, ActiveAlerts] else Polled)
    // the alert handled is the first that stops the iteration
    ensures end.Acted? || end.Caught? ==>
      && Ready(cfg, registry, session)
      && end.index < |alerts|
      && Stops(cfg, alerts[end.index])
      && (forall j :: 0 <= j < end.index ==> !Stops(cfg, alerts[j]))
    ensures end.Acted? ==> !Faulty(alerts[end.index], playbackOk)
    ensures end.Caught? ==> Faulty(alerts[end.index], playbackOk)
    // the sound plays to completion before the dialog naming the device
    ensures end.Acted? && alerts[end.index].kind == Some(Ding) ==>
      effects == Polled + [PlaySound(cfg.dingSound.text), SpeakDialog(DingDialog, DeviceField(alerts[end.index].description.value))]
    ensures end.Acted? && alerts[end.index].kind == Some(Motion) ==>
      effects == Polled + [SpeakDialog(MotionDialog, DeviceField(alerts[end.index].description.value))]
    ensures end.Acted? && alerts[end.index].kind == Some(OnDemand) ==>
      effects == Polled + [SpeakDialog(OnDemandDialog, DeviceField(alerts[end.index].description.value))]
    // a caught exception ends the poll with no output after it
    ensures end.Caught? ==>
      effects == Polled + (if alerts[end.index].kind == Some(Ding) && playbackOk then [PlaySound(cfg.dingSound.text)] else [])
    // at most one announcement per poll
    ensures Count(effects, IsDialog) <= 1 && Count(effects, IsSound) <= 1
  {
    if |registry| == 0 {
      return Quiet, [];
    }
    if !cfg.dingSound.Text? {
      return Uncaught, [];
    }
    var sound := cfg.dingSound.text;
    if session.None? {
      return Uncaught, [];
    }
    effects := [UpdateDings, ActiveAlerts];
    if alerts == [] {
      assert effects[1..][1..] == [];
      return Quiet, effects;
    }
    effects := Polled;
    PolledIsSilent();
    var i := 0;
    while i < |alerts|
      invariant 0 <= i <= |alerts|
      invariant effects == Polled
      invariant forall j :: 0 <= j < i ==> !Stops(cfg, alerts[j])
    {
      var alert := alerts[i];
      if alert.kind.None? {
        return Caught(i), effects;
      }
      var kind := alert.kind.value;
      if kind == Ding {
        if Truthy(cfg.dingAlerts) {
          if !playbackOk {
            return Caught(i), effects;
          }
          effects := effects + [PlaySound(sound)];
          CountAppend(Polled, [PlaySound(sound)], IsDialog);
          CountAppend(Polled, [PlaySound(sound)], IsSound);
          if alert.description.None? {
            return Caught(i), effects;
          }
          var output := [PlaySound(sound), SpeakDialog(DingDialog, DeviceField(alert.description.value))];
          effects := Polled + output;
          CountAppend(Polled, output, IsDialog);
          CountAppend(Polled, output, IsSound);
          return Acted(i), effects;
        }
      } else if kind == Motion {
        if Truthy(cfg.motionAlerts) {
          if alert.description.None? {
            return Caught(i), effects;
          }
          var output := [SpeakDialog(MotionDialog, DeviceField(alert.description.value))];
          effects := effects + output;
          CountAppend(Polled, output, IsDialog);
          CountAppend(Polled, output, IsSound);
          return Acted(i), effects;
        }
      } else if kind == OnDemand {
        if Truthy(cfg.onDemandAlerts) {
          if alert.description.None? {
            return Caught(i), effects;
          }
          var output := [SpeakDialog(OnDemandDialog, DeviceField(alert.description.value))];
          effects := effects + output;
          CountAppend(Polled, output, IsDialog);
          CountAppend(Polled, output, IsSound);
          return Acted(i), effects;
        }
      }
      i := i + 1;
    }
    return Quiet, effects;
  }
}
