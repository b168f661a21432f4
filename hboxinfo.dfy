/** `hbox_info`: what an hbox knows about one hbox (itself or a peer): its state, how to
    reach it, its name (the XMPP identity) and its UPnP devices, newest first. */
module Registry {
  import opened Wrappers
  import opened Seqs
  import opened Devices
  import opened CommInfos

  /** The value an `hbox_info` holds, with its devices as values. */
  datatype PeerRec = PeerRec(state: string, commInfo: CommInfo, devices: seq<DeviceRec>, name: string)

  /** The names of the devices, in list order. */
  function DeviceNames(ds: seq<DeviceRec>): seq<string> {
    Map(ds, (d: DeviceRec) => d.name)
  }

  /** `findUpnpDevice`: the position of the first device with that name. */
  function FindDevice(ds: seq<DeviceRec>, n: string): (r: Option<nat>)
    ensures r.Some? ==> r.value < |ds| && ds[r.value].name == n
    ensures r.Some? ==> forall i :: 0 <= i < r.value ==> ds[i].name != n
    ensures r.None? <==> forall i :: 0 <= i < |ds| ==> ds[i].name != n
  {
    var r := FirstIndex(DeviceNames(ds), n);
    if r.Some? then
      assert forall i :: 0 <= i < r.value ==> DeviceNames(ds)[..r.value][i] == ds[i].name;
      r
    else
      assert forall i :: 0 <= i < |ds| ==> DeviceNames(ds)[i] == ds[i].name;
      r
  }

  lemma FindDeviceIs(ds: seq<DeviceRec>, n: string, k: nat)
    requires k < |ds| && ds[k].name == n
    requires forall i :: 0 <= i < k ==> ds[i].name != n
    ensures FindDevice(ds, n) == Some(k)
  {
    assert n !in DeviceNames(ds)[..k] by {
      forall i | 0 <= i < k
        ensures DeviceNames(ds)[..k][i] != n
      {
        assert DeviceNames(ds)[..k][i] == ds[i].name;
      }
    }
    FirstIndexIs(DeviceNames(ds), n, k);
  }

  /** `removeUpnpDevice` on the list: drop the first device with that name, if any. */
  function RemoveDevice(ds: seq<DeviceRec>, n: string): seq<DeviceRec> {
    match FindDevice(ds, n)
    case None => ds
    case Some(k) => RemoveAt(ds, k)
  }

  /** Removing by name drops exactly one device when the name is listed, and nothing
      otherwise; the devices before the first match are untouched. */
  lemma RemoveDeviceDropsFirstOnly(ds: seq<DeviceRec>, n: string)
    ensures FindDevice(ds, n).None? ==> RemoveDevice(ds, n) == ds
    ensures FindDevice(ds, n).Some? ==> |RemoveDevice(ds, n)| == |ds| - 1
    ensures FindDevice(ds, n).Some? ==>
      RemoveDevice(ds, n) == ds[..FindDevice(ds, n).value] + ds[FindDevice(ds, n).value + 1..]
  {
  }

  /** The views of a list of device objects. */
  ghost function Views(ds: seq<UpnpDevice>): (vs: seq<DeviceRec>)
    reads set d | d in ds
    ensures |vs| == |ds| && forall i :: 0 <= i < |ds| ==> vs[i] == ds[i].View()
  {
    if |ds| == 0 then [] else [ds[0].View()] + Views(ds[1..])
  }

  /** The views of device objects none of which has changed are the same. */
  twostate lemma {:induction false} ViewsUnchanged(ds: seq<UpnpDevice>)
    requires forall d :: d in ds ==> unchanged(d)
    ensures Views(ds) == old(Views(ds))
  {
    if |ds| > 0 {
      assert forall d :: d in ds[1..] ==> d in ds;
      ViewsUnchanged(ds[1..]);
    }
  }

  lemma ViewsRemoveAt(ds: seq<UpnpDevice>, k: nat)
    requires k < |ds|
    ensures Views(RemoveAt(ds, k)) == RemoveAt(Views(ds), k)
  {
  }

  class HboxInfo {
    var state: string
    var commInfo: CommInfo
    var devices: seq<UpnpDevice>
    var name: string

    /** No device object is listed twice. */
    ghost predicate Valid()
      reads this
    {
      Distinct(devices)
    }

    ghost function View(): PeerRec
      reads this, set d | d in devices
    {
      PeerRec(state, commInfo, Views(devices), name)
    }

    /** `hbox_info()`: state INIT, no devices, default communication information. */
    constructor ()
      ensures Valid() && View() == PeerRec(Init, Default, [], "") && devices == []
    {
      state, commInfo, devices, name := Init, Default, [], "";
    }

    method SetState(s: string)
      modifies this
      ensures devices == old(devices) && View() == old(View()).(state := s)
    {
      state := s;
    }

    method SetName(n: string)
      modifies this
      ensures devices == old(devices) && View() == old(View()).(name := n)
    {
      name := n;
    }

    /** `setCommInfo` goes through `operator=`, so `isHip` comes out consistent with the
        HIP address and the LSI address already held is kept. */
    method SetCommInfo(ci: CommInfo)
      modifies this
      ensures devices == old(devices) && View() == old(View()).(commInfo := Assign(old(commInfo), ci))
      ensures HipConsistent(commInfo)
    {
      commInfo := Assign(commInfo, ci);
    }

    /** `addUpnpDevice`: insert at the front, without looking for the name. */
    method AddUpnpDevice(d: UpnpDevice)
      requires Valid() && d !in devices
      modifies this
      ensures Valid() && devices == [d] + old(devices)
      ensures View() == old(View()).(devices := [d.View()] + old(View().devices))
    {
      devices := [d] + devices;
    }

    /** `findUpnpDevice`: the first device with the name, `None` for NULL. */
    method FindUpnpDevice(n: string) returns (d: Option<UpnpDevice>)
      ensures FindDevice(View().devices, n).None? ==> d.None?
      ensures FindDevice(View().devices, n).Some? ==> d == Some(devices[FindDevice(View().devices, n).value])
    {
      var i := 0;
      while i < |devices|
        invariant 0 <= i <= |devices|
        invariant forall j :: 0 <= j < i ==> devices[j].name != n
      {
        if devices[i].name == n {
          return Some(devices[i]);
        }
        i := i + 1;
      }
      return None;
    }

    /** `contains`: some device has the name, exactly when `findUpnpDevice` is not NULL. */
    function Contains(n: string): (r: bool)
      reads this, set d | d in devices
      ensures r <==> FindDevice(View().devices, n).Some?
    {
      exists i :: 0 <= i < |devices| && devices[i].name == n
    }

    /** `removeUpnpDevice`: delete the first device with the name, which releases its
        listener, and drop it from the list. */
    method RemoveUpnpDevice(n: string) returns (removed: bool)
      requires Valid()
      modifies this, set d | d in devices
      ensures Valid()
      ensures removed <==> FindDevice(old(View().devices), n).Some?
      ensures View() == old(View()).(devices := RemoveDevice(old(View().devices), n))
      ensures removed ==> devices == RemoveAt(old(devices), FindDevice(old(View().devices), n).value)
      ensures removed ==> old(devices)[FindDevice(old(View().devices), n).value].server.None?
      ensures !removed ==> devices == old(devices)
    {
      var k := DeviceIndex(n);
      if k.None? {
        return false;
      }
      DeleteAt(k.value);
      return true;
    }

    /** `delete (*it)` and `erase(it)`: the device at `k` releases its listener and leaves
        the list; the other devices are untouched. */
    method DeleteAt(k: nat)
      requires Valid() && k < |devices|
      modifies this, devices[k]
      ensures Valid() && devices == RemoveAt(old(devices), k)
      ensures View() == old(View()).(devices := RemoveAt(old(View().devices), k))
      ensures old(devices)[k].server.None?
    {
      var gone := devices[k];
      var rest := RemoveAt(devices, k);
      ghost var restViews := Views(rest);
      assert restViews == RemoveAt(View().devices, k) by {
        ViewsRemoveAt(devices, k);
      }
      assert Distinct(rest) && gone !in rest by {
        DistinctRemoveAt(devices, k);
        RemoveAtDistinctDrops(devices, k);
      }
      label beforeDestroy:
      var _ := gone.Destroy();
      ViewsUnchanged@beforeDestroy(rest);
      devices := rest;
      assert View() == old(View()).(devices := restViews);
    }

    /** The search loop of `removeUpnpDevice`: the position of the first device with the
        name. */
    method DeviceIndex(n: string) returns (k: Option<nat>)
      ensures k == FindDevice(View().devices, n)
    {
      ghost var vs := Views(devices);
      var i := 0;
      while i < |devices|
        invariant 0 <= i <= |devices|
        invariant forall j :: 0 <= j < i ==> vs[j].name != n
      {
        if devices[i].name == n {
          FindDeviceIs(vs, n, i);
          return Some(i);
        }
        i := i + 1;
      }
      return None;
    }

    /** `~hbox_info`: every device is deleted (releasing its listener) and the list is
        emptied. */
    method Destroy()
      requires Valid()
      modifies this, set d | d in devices
      ensures devices == []
      ensures forall d :: d in old(devices) ==> d.server.None?
    {
      var i := 0;
      while i < |devices|
        invariant 0 <= i <= |devices| && devices == old(devices)
        invariant forall j :: 0 <= j < i ==> devices[j].server.None?
      {
        var _ := devices[i].Destroy();
        i := i + 1;
      }
      devices := [];
    }
  }
}
