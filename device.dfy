/** `upnp_service` and `upnp_device`: a UPnP device known to the hbox, local or relayed
    from a peer, with its services, its relay ports and the relay listener it owns. */
module Devices {
  import opened Wrappers
  import opened Seqs
  import opened ProxyServer

  datatype UpnpService = UpnpService(name: string, description: string)

  /** The one-argument `upnp_service(description)`: a service without a name. */
  function UnnamedService(description: string): (s: UpnpService)
    ensures s.name == "" && s.description == description
  {
    UpnpService("", description)
  }

  /** The names of the services, in list order. */
  function ServiceNames(ss: seq<UpnpService>): seq<string> {
    Map(ss, (s: UpnpService) => s.name)
  }

  /** `addUpnpService`: a service whose name is already listed is ignored; otherwise it is
      inserted at the front. */
  function AddService(ss: seq<UpnpService>, s: UpnpService): seq<UpnpService> {
    if s.name in ServiceNames(ss) then ss else [s] + ss
  }

  /** `removeUpnpService`: the first service with that name is erased. With no such
      service the source erases `end()`, which is undefined, hence the precondition. */
  function RemoveService(ss: seq<UpnpService>, name: string): seq<UpnpService>
    requires name in ServiceNames(ss)
  {
    RemoveAt(ss, FirstIndex(ServiceNames(ss), name).value)
  }

  lemma ServiceNamesOfPrepend(s: UpnpService, ss: seq<UpnpService>)
    ensures ServiceNames([s] + ss) == [s.name] + ServiceNames(ss)
  {
  }

  /** Adding keeps names unique, and afterwards exactly one service carries the name:
      the one that was there, or the new one at the front. */
  lemma AddServiceKeepsNamesDistinct(ss: seq<UpnpService>, s: UpnpService)
    requires Distinct(ServiceNames(ss))
    ensures Distinct(ServiceNames(AddService(ss, s)))
    ensures s.name in ServiceNames(AddService(ss, s))
    ensures s.name !in ServiceNames(ss) ==> AddService(ss, s) == [s] + ss
    ensures s.name in ServiceNames(ss) ==> AddService(ss, s) == ss
    ensures forall i, j :: 0 <= i < j < |AddService(ss, s)| ==>
      !(AddService(ss, s)[i].name == s.name && AddService(ss, s)[j].name == s.name)
  {
    ServiceNamesOfPrepend(s, ss);
    var r := AddService(ss, s);
    if s.name !in ServiceNames(ss) {
      assert ServiceNames(r) == [s.name] + ServiceNames(ss);
      forall i, j | 0 <= i < j < |r|
        ensures ServiceNames(r)[i] != ServiceNames(r)[j]
      {
        if i == 0 {
          assert ServiceNames(r)[j] == ServiceNames(ss)[j - 1];
        } else {
          assert ServiceNames(r)[i] == ServiceNames(ss)[i - 1];
          assert ServiceNames(r)[j] == ServiceNames(ss)[j - 1];
        }
      }
    }
    forall i, j | 0 <= i < j < |r|
      ensures !(r[i].name == s.name && r[j].name == s.name)
    {
      assert ServiceNames(r)[i] != ServiceNames(r)[j];
    }
  }

  /** With unique names, removing a service leaves none with that name and keeps the
      others in order. */
  lemma RemoveServiceRemovesName(ss: seq<UpnpService>, name: string)
    requires Distinct(ServiceNames(ss)) && name in ServiceNames(ss)
    ensures name !in ServiceNames(RemoveService(ss, name))
    ensures |RemoveService(ss, name)| == |ss| - 1
  {
    var k := FirstIndex(ServiceNames(ss), name).value;
    assert ServiceNames(RemoveService(ss, name)) == RemoveAt(ServiceNames(ss), k);
    RemoveFirstFromDistinct(ServiceNames(ss), name);
  }

  /** What a `upnp_device` holds. `server` is the relay listener it owns, recorded by the
      configuration it was created with. */
  datatype DeviceRec = DeviceRec(
    state: string,
    name: string,
    description: string,
    services: seq<UpnpService>,
    remotePort: int,
    localPort: int,
    ipAddress: string,
    isMediaServer: bool,
    server: Option<ListenerConfig>)

  const Init := "INIT"
  const Ready := "READY"

  /** `upnp_device(description)`: unnamed, not a media server, state INIT, both ports 0,
      no services, no listener. */
  function NewDevice(description: string): (d: DeviceRec)
    ensures d.state == Init && d.name == "" && d.description == description
    ensures d.services == [] && d.remotePort == 0 && d.localPort == 0
    ensures !d.isMediaServer && d.server.None?
  {
    DeviceRec(Init, "", description, [], 0, 0, "", false, None)
  }

  class UpnpDevice {
    var state: string
    var name: string
    var description: string
    var services: seq<UpnpService>
    var remotePort: int
    var localPort: int
    var ipAddress: string
    var isMediaServer: bool
    var server: Option<ListenerConfig>

    function View(): DeviceRec
      reads this
    {
      DeviceRec(state, name, description, services, remotePort, localPort, ipAddress, isMediaServer, server)
    }

    constructor (description: string)
      ensures View() == NewDevice(description)
    {
      state, name, this.description, services := Init, "", description, [];
      remotePort, localPort, ipAddress, isMediaServer, server := 0, 0, "", false, None;
    }

    /** `start`: the device is READY; doing it again changes nothing. */
    method Start()
      modifies this
      ensures View() == old(View()).(state := Ready)
    {
      state := Ready;
    }

    method SetState(s: string)
      modifies this
      ensures View() == old(View()).(state := s)
    {
      state := s;
    }

    method SetDeviceName(n: string)
      modifies this
      ensures View() == old(View()).(name := n)
    {
      name := n;
    }

    method SetDeviceDescription(d: string)
      modifies this
      ensures View() == old(View()).(description := d)
    {
      description := d;
    }

    method SetIpAddress(ip: string)
      modifies this
      ensures View() == old(View()).(ipAddress := ip)
    {
      ipAddress := ip;
    }

    method SetRemotePort(p: int)
      modifies this
      ensures View() == old(View()).(remotePort := p)
    {
      remotePort := p;
    }

    method SetLocalPort(p: int)
      modifies this
      ensures View() == old(View()).(localPort := p)
    {
      localPort := p;
    }

    method SetMediaServer(b: bool)
      modifies this
      ensures View() == old(View()).(isMediaServer := b)
    {
      isMediaServer := b;
    }

    method SetServer(s: Option<ListenerConfig>)
      modifies this
      ensures View() == old(View()).(server := s)
    {
      server := s;
    }

    /** `addUpnpService`: scan for the name; insert at the front only if it is new. */
    method AddUpnpService(s: UpnpService)
      modifies this
      ensures View() == old(View()).(services := AddService(old(services), s))
    {
      var i := 0;
      while i < |services|
        invariant 0 <= i <= |services|
        invariant s.name !in ServiceNames(services)[..i]
      {
        if services[i].name == s.name {
          return;
        }
        assert ServiceNames(services)[..i + 1] == ServiceNames(services)[..i] + [services[i].name];
        i := i + 1;
      }
      assert ServiceNames(services)[..i] == ServiceNames(services);
      services := [s] + services;
    }

    /** `removeUpnpService`: erase the first service with that name. */
    method RemoveUpnpService(n: string)
      requires n in ServiceNames(services)
      modifies this
      ensures View() == old(View()).(services := RemoveService(old(services), n))
    {
      var i := 0;
      while services[i].name != n
        invariant 0 <= i < |services|
        invariant n !in ServiceNames(services)[..i]
        invariant n in ServiceNames(services)[i..]
        decreases |services| - i
      {
        assert ServiceNames(services)[..i + 1] == ServiceNames(services)[..i] + [services[i].name];
        assert ServiceNames(services)[i..] == [services[i].name] + ServiceNames(services)[i + 1..];
        i := i + 1;
      }
      FirstIndexIs(ServiceNames(services), n, i);
      services := services[..i] + services[i + 1..];
    }

    /** `~upnp_device`: the listener the device owns, if any, is released with it. */
    method Destroy() returns (released: Option<ListenerConfig>)
      modifies this
      ensures released == old(server) && server.None?
    {
      released := server;
      server := None;
    }
  }
}
