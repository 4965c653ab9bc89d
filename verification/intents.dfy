/**
 * The device-discovery intent (`_handle_device_discovery` in __init__.py):
 * announces how many devices are known and, if the user says yes, reads
 * their names out. The user's spoken answer is an input.
 */
module Intents {
  import opened Wrappers
  import opened Host
  import opened DeviceRegistry

  const DiscoveryDialog: string := "ring.discovery"
  const ListQuestion: string := "ring.list"

  /** Lower-cases the ASCII letters of `s` (Python's `str.lower` on ASCII text). */
  function Lower(s: string): (t: string)
    ensures |t| == |s|
    ensures forall i :: 0 <= i < |s| ==> ('A' <= s[i] <= 'Z' ==> t[i] as int == s[i] as int + 32)
    ensures forall i :: 0 <= i < |s| ==> (!('A' <= s[i] <= 'Z') ==> t[i] == s[i])
  {
    seq(|s|, i requires 0 <= i < |s| => if 'A' <= s[i] <= 'Z' then (s[i] as int + 32) as char else s[i])
  }

  /** One spoken line per device, in registry order. */
  function ReadOut(registry: Registry): (effects: seq<Effect>)
    ensures |effects| == |registry|
    ensures forall i :: 0 <= i < |registry| ==> effects[i] == Speak(Lower(registry[i].name))
  {
    seq(|registry|, i requires 0 <= i < |registry| => Speak(Lower(registry[i].name)))
  }

  /** Speaks the device count only when there are devices, then asks whether
      to list them and, on "yes", speaks every name. */
  function HandleDeviceDiscovery(registry: Registry, answer: Option<string>): (effects: seq<Effect>)
    ensures registry == [] ==> effects == []
    ensures Count(effects, IsDialog) == (if registry == [] then 0 else 1)
    ensures registry != [] ==>
      |effects| >= 2
      && effects[0] == SpeakDialog(DiscoveryDialog, TotalField(|registry|))
      && effects[1] == AskYesNo(ListQuestion)
    // the count spoken is the number of distinct device names
    ensures Valid(registry) && registry != [] ==> effects[0].data == TotalField(|Keys(registry)|)
    ensures registry != [] && answer == Some("yes") ==>
      |effects| == 2 + |registry|
      && forall i :: 0 <= i < |registry| ==> effects[2 + i] == Speak(Lower(registry[i].name))
    ensures answer != Some("yes") ==> |effects| <= 2
  {
    if registry == [] then []
    else
      var head := [SpeakDialog(DiscoveryDialog, TotalField(|registry|)), AskYesNo(ListQuestion)];
      var names := if answer == Some("yes") then ReadOut(registry) else [];
      CountAppend(head, names, IsDialog);
      assert head[1..][1..] == [];
      assert Valid(registry) ==> |Keys(registry)| == |registry| by {
        if Valid(registry) { SizeIsKeyCount(registry); }
      }
      head + names
  }
}
