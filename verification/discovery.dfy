/**
 * Device discovery and device lookup (`discovery`, `check_device` and the
 * lookup part of `device_info` in utils.py). The vendor client's device
 * lists are inputs; the registry is rebuilt from them.
 */
module Discovery {
  import opened Wrappers
  import opened Host
  import opened DeviceRegistry
  import opened Authenticator

  const DiscoveryErrorDialog: string := "error.discovery"
  const DeviceErrorDialog: string := "error.device"

  /** A device object from the vendor client; reading the name or family of
      an `Unreadable` one raises. */
  datatype Device = Device(name: string, family: string) | Unreadable

  /** The three device lists the vendor client returns. */
  datatype DeviceLists = DeviceLists(doorbots: seq<Device>, chimes: seq<Device>, stickupCams: seq<Device>)

  /** The devices in the order discovery visits them. */
  function AllDevices(lists: DeviceLists): seq<Device> {
    lists.doorbots + lists.chimes + lists.stickupCams
  }

  /** The entries read before the first device whose attributes cannot be
      read: the exception ends the loop and keeps what was already added. */
  function Loaded(devices: seq<Device>): (es: seq<Entry>)
    ensures |es| <= |devices|
    ensures forall i :: 0 <= i < |es| ==> devices[i] == Device(es[i].name, es[i].family)
    ensures |es| < |devices| ==> devices[|es|].Unreadable?
  {
    if devices == [] then []
    else match devices[0]
      case Unreadable => []
      case Device(n, f) => [Entry(n, f)] + Loaded(devices[1..])
  }

  /** How discovery ends; `Uncaught` means an exception leaves it. */
  datatype DiscoveryEnd = Skipped | Rebuilt | Uncaught

  datatype DiscoveryRun = DiscoveryRun(end: DiscoveryEnd, registry: Registry, effects: seq<Effect>)

  /** Rebuilds the registry from the vendor's device lists when the token
      cache file exists, and reports an empty result with one dialog. */
  function Discover(registry: Registry, cacheFilePresent: bool, session: Option<Session>, lists: DeviceLists): (r: DiscoveryRun)
    ensures !cacheFilePresent ==> r == DiscoveryRun(Skipped, registry, [])
    // the session is missing: the first vendor call fails before the registry is touched
    ensures cacheFilePresent && session.None? ==> r == DiscoveryRun(Uncaught, registry, [])
    ensures r.end == Rebuilt <==> cacheFilePresent && session.Some?
    ensures r.end == Rebuilt ==>
      var es := Loaded(AllDevices(lists));
      && Valid(r.registry)
      && Keys(r.registry) == Keys(es)
      && Names(r.registry) == FirstOccurrences(Names(es))
      && (es != [] ==> r.registry != [] && r.registry[0].name == es[0].name)
      && (forall k :: Lookup(r.registry, k) == LastFamily(es, k))
      && r.effects == [UpdateData, ListDevices] + (if r.registry == [] then [SpeakDialog(DiscoveryErrorDialog, NoData)] else [])
  {
    if !cacheFilePresent then DiscoveryRun(Skipped, registry, [])
    else if session.None? then DiscoveryRun(Uncaught, registry, [])
    else
      var rebuilt := Build(Loaded(AllDevices(lists)));
      var effects := [UpdateData, ListDevices] + (if rebuilt == [] then [SpeakDialog(DiscoveryErrorDialog, NoData)] else []);
      DiscoveryRun(Rebuilt, rebuilt, effects)
  }

  /** The previous registry never leaks into a rebuilt one: two discoveries
      over the same device lists agree whatever the registry was before. */
  lemma DiscoveryReplacesRegistry(before1: Registry, before2: Registry, session: Session, lists: DeviceLists)
    ensures Discover(before1, true, Some(session), lists) == Discover(before2, true, Some(session), lists)
  {
  }

  /** No device in the list raises when its name or family is read. */
  predicate AllReadable(devices: seq<Device>) {
    forall i :: 0 <= i < |devices| ==> devices[i].Device?
  }

  /** When every device can be read, a name is a key of the rebuilt registry
      exactly when some device in doorbots ++ chimes ++ stickup_cams carries it. */
  lemma DiscoveredKeysAreDeviceNames(registry: Registry, session: Session, lists: DeviceLists, k: string)
    requires AllReadable(AllDevices(lists))
    ensures k in Keys(Discover(registry, true, Some(session), lists).registry) <==>
      exists i :: 0 <= i < |AllDevices(lists)| && AllDevices(lists)[i].name == k
  {
    var devices := AllDevices(lists);
    var es := Loaded(devices);
    assert |es| == |devices|;
    KeysIndex(es, k);
    if exists i :: 0 <= i < |devices| && devices[i].name == k {
      var i :| 0 <= i < |devices| && devices[i].name == k;
      assert es[i].name == k;
    }
  }

  /** When every device can be read, a device with no later device of the
      same name gives its family to its name in the rebuilt registry. */
  lemma DiscoveredFamilyIsLastDevice(registry: Registry, session: Session, lists: DeviceLists, i: int)
    requires AllReadable(AllDevices(lists))
    requires 0 <= i < |AllDevices(lists)|
    requires forall j :: i < j < |AllDevices(lists)| ==> AllDevices(lists)[j].name != AllDevices(lists)[i].name
    ensures Lookup(Discover(registry, true, Some(session), lists).registry, AllDevices(lists)[i].name)
      == Some(AllDevices(lists)[i].family)
  {
    var es := Loaded(AllDevices(lists));
    assert |es| == |AllDevices(lists)|;
    assert LastNamed(es, i);
    LastFamilyOfLastNamed(es, i);
  }

  /** The result of a device check: the device name found, and the effects. */
  datatype Check = Check(found: Option<string>, effects: seq<Effect>)

  /** The lookup loop as written: it walks the keys and, as soon as the
      requested name is anywhere in the registry, returns the key it is
      looking at, which is the first one. */
  function ScanAsWritten(rest: seq<Entry>, registry: Registry, name: string): (r: Option<string>)
    ensures r.Some? <==> rest != [] && name in Keys(registry)
    ensures r.Some? ==> r.value == rest[0].name
  {
    if rest == [] then None
    else if name in Keys(registry) then Some(rest[0].name)
    else ScanAsWritten(rest[1..], registry, name)
  }

  /** `check_device` as written: it finds a key exactly when the requested
      name is one, but the key it returns is the registry's first. */
  function CheckDeviceAsWritten(registry: Registry, name: string): (r: Check)
    ensures r.found.Some? <==> name in Keys(registry)
    ensures r.found.Some? ==> registry != [] && r.found.value == registry[0].name && r.effects == []
    ensures r.found.None? ==> r.effects == [SpeakDialog(DeviceErrorDialog, DeviceField(name))]
  {
    var found := ScanAsWritten(registry, registry, name);
    if found.Some? then Check(found, [])
    else Check(None, [SpeakDialog(DeviceErrorDialog, DeviceField(name))])
  }

  /** A registry with two devices on which the check, asked for the second
      device, answers with the first. */
  lemma CheckDeviceAsWrittenNamesAnotherDevice()
    ensures var registry := [Entry("Front Door", "doorbots"), Entry("Garage", "stickup_cams")];
      CheckDeviceAsWritten(registry, "Garage").found == Some("Front Door")
  {
    var registry := [Entry("Front Door", "doorbots"), Entry("Garage", "stickup_cams")];
    assert "Garage" in Keys(registry) by {
      KeysIndex(registry, "Garage");
      assert registry[1].name == "Garage";
    }
  }

  /** The same answer after a real discovery: the doorbell is discovered
      before the camera, so it is the first key and the check, asked for the
      camera, names the doorbell. */
  lemma DiscoveryThenCheckAsWrittenNamesAnotherDevice(session: Session)
    ensures var lists := DeviceLists([Device("Front Door", "doorbots")], [], [Device("Garage", "stickup_cams")]);
      var rebuilt := Discover([], true, Some(session), lists).registry;
      CheckDeviceAsWritten(rebuilt, "Garage").found == Some("Front Door")
  {
    var lists := DeviceLists([Device("Front Door", "doorbots")], [], [Device("Garage", "stickup_cams")]);
    var devices := AllDevices(lists);
    assert devices == [Device("Front Door", "doorbots"), Device("Garage", "stickup_cams")];
    assert AllReadable(devices);
    DiscoveredKeysAreDeviceNames([], session, lists, "Garage");
    assert devices[1].name == "Garage";
    var es := Loaded(devices);
    assert |es| == 2 && es[0].name == "Front Door";
  }

  /** The lookup loop comparing each key with the requested name. */
  function ScanFor(rest: seq<Entry>, name: string): (r: Option<string>)
    ensures r.Some? <==> name in Keys(rest)
    ensures r.Some? ==> r.value == name
  {
    if rest == [] then None
    else if rest[0].name == name then Some(rest[0].name)
    else ScanFor(rest[1..], name)
  }

  /** `check_device` as evidently intended: the requested name comes back
      exactly when it is a key; otherwise one dialog names it. */
  function CheckDevice(registry: Registry, name: string): (r: Check)
    ensures r.found.Some? <==> name in Keys(registry)
    ensures r.found.Some? ==> r.found.value == name && r.effects == []
    ensures r.found.None? ==> r.effects == [SpeakDialog(DeviceErrorDialog, DeviceField(name))]
  {
    var found := ScanFor(registry, name);
    if found.Some? then Check(found, [])
    else Check(None, [SpeakDialog(DeviceErrorDialog, DeviceField(name))])
  }

  /** The two checks agree exactly when the name is missing or is the first key. */
  lemma CheckDeviceAsWrittenAgreesOnlyOnFirstKey(registry: Registry, name: string)
    ensures CheckDeviceAsWritten(registry, name) == CheckDevice(registry, name) <==>
      name !in Keys(registry) || (registry != [] && registry[0].name == name)
  {
  }

  /** The device whose information is read, with its family (the vendor list
      the readout searches), and the effects up to the readout. */
  datatype InfoRun = InfoRun(target: Option<Entry>, effects: seq<Effect>)

  /** The lookup that starts `device_info`, as written on top of the check as
      written: a known name makes it read the registry's FIRST device (with
      that device's family) after a device refresh, unless that first key is
      falsy (empty), which ends it silently; an unknown name ends it after the
      check's dialog. */
  function DeviceInfoAsWritten(registry: Registry, name: string): (r: InfoRun)
    ensures r.target.Some? <==> name in Keys(registry) && registry != [] && registry[0].name != ""
    ensures r.target.Some? ==> r.target.value == registry[0] && r.effects == [UpdateDevices, ListDevices]
    ensures name !in Keys(registry) ==> r.effects == [SpeakDialog(DeviceErrorDialog, DeviceField(name))]
    ensures name in Keys(registry) && registry != [] && registry[0].name == "" ==> r.effects == []
  {
    var c := CheckDeviceAsWritten(registry, name);
    if c.found.None? || c.found.value == "" then InfoRun(None, c.effects)
    else
      var d := c.found.value;
      assert Lookup(registry, d) == Some(registry[0].family);
      InfoRun(Some(Entry(d, Lookup(registry, d).value)), [UpdateDevices, ListDevices])
  }

  /** Asked for the camera in a registry whose first device is the doorbell,
      `device_info` as written reads the doorbell. */
  lemma DeviceInfoAsWrittenReadsAnotherDevice()
    ensures var registry := [Entry("Front Door", "doorbots"), Entry("Garage", "stickup_cams")];
      DeviceInfoAsWritten(registry, "Garage").target == Some(Entry("Front Door", "doorbots"))
  {
    CheckDeviceAsWrittenNamesAnotherDevice();
  }

  /** The same lookup on top of the corrected check: the device read is the
      requested one, with its registered family, exactly when it is a
      non-empty key; an unknown name ends after the check's dialog and an
      empty name ends silently. */
  function DeviceInfo(registry: Registry, name: string): (r: InfoRun)
    ensures r.target.Some? <==> name in Keys(registry) && name != ""
    ensures r.target.Some? ==> r.target.value.name == name && Lookup(registry, name) == Some(r.target.value.family)
    ensures r.target.Some? ==> r.effects == [UpdateDevices, ListDevices]
    ensures name !in Keys(registry) ==> r.effects == [SpeakDialog(DeviceErrorDialog, DeviceField(name))]
    ensures name in Keys(registry) && name == "" ==> r.effects == []
  {
    var c := CheckDevice(registry, name);
    if c.found.None? || c.found.value == "" then InfoRun(None, c.effects)
    else
      var d := c.found.value;
      InfoRun(Some(Entry(d, Lookup(registry, d).value)), [UpdateDevices, ListDevices])
  }

  /** The two lookups read the same device exactly when the name is unknown
      or is the first key. */
  lemma DeviceInfoAsWrittenAgreesOnlyOnFirstKey(registry: Registry, name: string)
    ensures DeviceInfoAsWritten(registry, name) == DeviceInfo(registry, name) <==>
      name !in Keys(registry) || (registry != [] && registry[0].name == name)
  {
  }
}
