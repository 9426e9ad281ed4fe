/** The device registry of one client connection (`SidecarCore`) over the
    process-wide display manager of the operating system, which the model
    reduces to its visible state: the devices it currently reports, the name
    each device answers with, and the connect requests it has been sent. */
module Sidecar {

  /** An opaque reference to a device object owned by the display manager. */
  datatype Handle = Handle(id: nat)

  /** The shared display manager (`SidecarDisplayManager.sharedManager`). */
  class Manager {
    /** What `devices` answers now, in order. */
    var devices: seq<Handle>
    /** What each device answers to `name` now. */
    var names: Handle -> string
    /** Every `connectToDevice:completion:` request received, oldest first. */
    var connectLog: seq<Handle>

    constructor (devices: seq<Handle>, names: Handle -> string)
      ensures this.devices == devices && this.names == names && connectLog == []
    {
      this.devices := devices;
      this.names := names;
      connectLog := [];
    }

    /** The `devices` message. */
    method Devices() returns (ds: seq<Handle>)
      ensures ds == devices
    {
      ds := devices;
    }

    /** The devices attached or detached, or renamed, by the operating system: not a
        message the server sends, but how what the manager reports changes over time. */
    method Update(devices: seq<Handle>, names: Handle -> string)
      modifies this`devices, this`names
      ensures this.devices == devices && this.names == names
    {
      this.devices := devices;
      this.names := names;
    }

    /** The `connectToDevice:completion:` message: the request is recorded and the
        call returns at once; its completion is never observed. */
    method ConnectToDevice(device: Handle)
      modifies this`connectLog
      ensures connectLog == old(connectLog) + [device]
    {
      connectLog := connectLog + [device];
    }
  }

  /** One connection's registry: the manager and the device list of the last refresh. */
  class SidecarCore {
    const manager: Manager
    var deviceList: seq<Handle>

    /** `SidecarCore::new`: starts from an empty list and refreshes it at once. */
    constructor (manager: Manager)
      ensures this.manager == manager
      ensures deviceList == manager.devices
    {
      this.manager := manager;
      deviceList := [];
      new;
      Refresh();
    }

    /** `SidecarCore::refresh`: the list becomes the manager's current devices, in
        order; nothing of the previous list is kept. */
    method Refresh()
      modifies this`deviceList
      ensures deviceList == manager.devices
    {
      var devices := manager.Devices();
      deviceList := devices;
    }

    /** `SidecarCore::connect`: one connect request, for the device at `index` of
        the current list, which is left as it was. Indexing past the end panics in
        the source, so the index must be in range. */
    method Connect(index: nat)
      requires index < |deviceList|
      modifies manager`connectLog
      ensures manager.connectLog == old(manager.connectLog) + [deviceList[index]]
    {
      manager.ConnectToDevice(deviceList[index]);
    }
  }

  /** `.iter().enumerate().map(...)` over a device list: each position paired with
      the name of the device there. */
  function Enumerate(list: seq<Handle>, name: Handle -> string): seq<(nat, string)>
  {
    seq(|list|, i requires 0 <= i < |list| => (i, name(list[i])))
  }

  /** `.collect::<BTreeMap<_, _>>()`: the pairs inserted in order, a later pair
      replacing an earlier one with the same key. */
  function Collect(pairs: seq<(nat, string)>): map<nat, string>
  {
    if pairs == [] then map[]
    else Collect(pairs[..|pairs| - 1])[pairs[|pairs| - 1].0 := pairs[|pairs| - 1].1]
  }

  /** Collecting gives a map whose keys are exactly the pairs' keys, and each key
      maps to the value of the last pair with that key. */
  lemma {:induction false} CollectLastWins(pairs: seq<(nat, string)>)
    ensures Collect(pairs).Keys == set i | 0 <= i < |pairs| :: pairs[i].0
    ensures forall i :: 0 <= i < |pairs| && (forall j :: i < j < |pairs| ==> pairs[j].0 != pairs[i].0) ==>
      Collect(pairs)[pairs[i].0] == pairs[i].1
  {
    if pairs != [] {
      var init := pairs[..|pairs| - 1];
      var last := pairs[|pairs| - 1];
      CollectLastWins(init);
      assert forall i :: 0 <= i < |init| ==> init[i] == pairs[i];
      assert (set i | 0 <= i < |pairs| :: pairs[i].0) == (set i | 0 <= i < |init| :: init[i].0) + {last.0};
    }
  }

  /** Collecting pairs whose keys are their own positions gives a map from each
      position to its pair's value. */
  lemma {:induction false} CollectPositions(pairs: seq<(nat, string)>)
    requires forall i :: 0 <= i < |pairs| ==> pairs[i].0 == i
    ensures Collect(pairs).Keys == Positions(|pairs|)
    ensures forall i :: 0 <= i < |pairs| ==> Collect(pairs)[i] == pairs[i].1
  {
    if pairs != [] {
      var init := pairs[..|pairs| - 1];
      CollectPositions(init);
      assert Collect(pairs).Keys == Collect(init).Keys + {|pairs| - 1};
    }
  }

  /** The `/devices` answer before it is printed: position to current device name. */
  function DeviceMap(list: seq<Handle>, name: Handle -> string): (m: map<nat, string>)
    ensures m.Keys == Positions(|list|)
    ensures forall i :: 0 <= i < |list| ==> m[i] == name(list[i])
  {
    CollectPositions(Enumerate(list, name));
    Collect(Enumerate(list, name))
  }

  /** The answer has one entry per device, and two lists give the same answer
      exactly when they have the same length and the same names position by
      position. */
  lemma DeviceMapEqual(a: seq<Handle>, b: seq<Handle>, name: Handle -> string)
    ensures |DeviceMap(a, name)| == |a|
    ensures DeviceMap(a, name) == DeviceMap(b, name) <==>
      |a| == |b| && forall i :: 0 <= i < |a| ==> name(a[i]) == name(b[i])
  {
    assert |DeviceMap(a, name).Keys| == |a|;
    if DeviceMap(a, name) == DeviceMap(b, name) {
      assert |DeviceMap(b, name).Keys| == |b|;
      forall i | 0 <= i < |a| ensures name(a[i]) == name(b[i]) {
        assert DeviceMap(a, name)[i] == DeviceMap(b, name)[i];
      }
    }
  }

  /** The positions `0 .. n - 1`. */
  function Positions(n: nat): (ps: set<nat>)
    ensures forall k: nat :: k in ps <==> k < n
    ensures |ps| == n
  {
    if n == 0 then {} else Positions(n - 1) + {n - 1}
  }

  /** The list of two devices is taken; a third device appears and the second is
      renamed; listing before a refresh still shows two entries, with the
      new name, since names are asked for each time; after a refresh the list has
      three entries, all with their current names. */
  method NewDeviceSeenAfterRefresh() returns (first: map<nat, string>, stale: map<nat, string>, second: map<nat, string>)
    ensures first.Keys == {0, 1} && first[0] == "Studio Display" && first[1] == "iPad"
    ensures stale.Keys == {0, 1} && stale[0] == "Studio Display" && stale[1] == "iPad Pro"
    ensures second.Keys == {0, 1, 2} && second[0] == "Studio Display" && second[1] == "iPad Pro"
      && second[2] == "MacBook"
  {
    var display, tablet, laptop := Handle(0), Handle(1), Handle(2);
    var manager := new Manager([display, tablet], h => if h == display then "Studio Display" else "iPad");
    var core := new SidecarCore(manager);
    SmallPositions();
    first := DeviceMap(core.deviceList, manager.names);
    assert first[0] == "Studio Display" && first[1] == "iPad" by {
      assert core.deviceList[0] == display && core.deviceList[1] == tablet;
    }
    var renamed := h => if h == display then "Studio Display" else if h == tablet then "iPad Pro" else "MacBook";
    manager.Update([display, tablet, laptop], renamed);
    stale := DeviceMap(core.deviceList, renamed);
    assert stale[0] == "Studio Display" && stale[1] == "iPad Pro" by {
      assert core.deviceList[0] == display && core.deviceList[1] == tablet;
    }
    core.Refresh();
    second := DeviceMap(core.deviceList, renamed);
    assert second[0] == "Studio Display" && second[1] == "iPad Pro" && second[2] == "MacBook" by {
      assert core.deviceList[0] == display && core.deviceList[1] == tablet && core.deviceList[2] == laptop;
    }
  }

  /** Two connections share the manager but not their lists: refreshing one after the
      manager's devices change leaves the other's list as it was, and each connect
      goes to the device at the index in its own connection's list. */
  method Isolation() returns (one: seq<Handle>, other: seq<Handle>, log: seq<Handle>)
    ensures one == [Handle(1), Handle(0)] && other == [Handle(0)]
    ensures log == [Handle(1), Handle(0)]
  {
    var manager := new Manager([Handle(0)], h => "Studio Display");
    var a := new SidecarCore(manager);
    var b := new SidecarCore(manager);
    manager.Update([Handle(1), Handle(0)], h => if h == Handle(0) then "Studio Display" else "iPad");
    a.Refresh();
    a.Connect(0);
    b.Connect(0);
    one, other, log := a.deviceList, b.deviceList, manager.connectLog;
  }

  lemma SmallPositions()
    ensures Positions(2) == {0, 1} && Positions(3) == {0, 1, 2}
  {
  }
}
