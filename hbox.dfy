/** The `hbox` object: its own `hbox_info`, the peers it knows (newest first), the relay
    port counter and the six queues it shares with the XMPP client, the UPnP server and
    the UPnP control point. The `hbox_info`s and their devices are held as values; every
    handler is proved to do to them and to the queues exactly what `HboxSpec` says. */
module Orchestrator {
  import opened Wrappers
  import opened Strings
  import opened Seqs
  import opened Events
  import opened Queues
  import opened CommInfos
  import opened Devices
  import opened Registry
  import opened ProxyServer
  import opened ResourceUrls
  import opened HboxSpec

  /** NEW, and PORT for a media server: how an announcement starts. */
  function AnnouncementHead(peer: string, d: DeviceRec): seq<Event> {
    [Event("NEW", true, peer, NewPayload(d))]
    + (if d.isMediaServer then [Event("PORT", true, peer, PortPayload(d))] else [])
  }

  lemma AnnouncementParts(peer: string, d: DeviceRec, base: seq<Event>)
    ensures base + AnnouncementHead(peer, d) + ServiceEvents(peer, d.name, d.services)
              + [Event("START", true, peer, d.name)]
         == base + Announcement(peer, d)
  {
  }

  lemma ServiceEventsSnoc(peer: string, dn: string, ss: seq<UpnpService>, i: nat)
    requires i < |ss|
    ensures ServiceEvents(peer, dn, ss[..i + 1])
         == ServiceEvents(peer, dn, ss[..i]) + [Event("SERVICE", true, peer, ServicePayload(dn, ss[i]))]
  {
    assert ss[..i + 1][..i] == ss[..i];
  }

  /** How a handler that may hit undefined behaviour ends: `defined` tells whether the
      specification defines the run, and the state is then the one it gives; an undefined
      run stops before changing anything. */
  predicate Outcome(before: HboxView, after: HboxView, defined: bool, r: Option<HboxView>) {
    defined == r.Some? && after == (if defined then r.value else before)
  }

  lemma HostedServiceEventsSnoc(udn: string, ss: seq<UpnpService>, i: nat)
    requires i < |ss|
    ensures HostedServiceEvents(udn, ss[..i + 1])
         == HostedServiceEvents(udn, ss[..i]) + [Event("SERVICE", true, udn + "|" + ss[i].name, ss[i].description)]
  {
    assert ss[..i + 1][..i] == ss[..i];
  }

  class Hbox {
    /** `self_hbox` */
    var self: PeerRec
    /** `remote_hbox_es`, newest first */
    var remotes: seq<PeerRec>
    var maxPort: int
    /** `hbox_xmpp`, `hbox_upnpserver`, `hbox_upnpclient`: what the hbox sends */
    const toXmpp: BlockingQueue<Event>
    const toUpnpServer: BlockingQueue<Event>
    const toUpnpClient: BlockingQueue<Event>
    /** `xmpp_hbox`, `upnpserver_hbox`, `upnpclient_hbox`: what the hbox receives */
    const fromXmpp: BlockingQueue<Event>
    const fromUpnpServer: BlockingQueue<Event>
    const fromUpnpClient: BlockingQueue<Event>

    /** Six distinct, consistent queues. */
    ghost predicate Valid()
      reads this, toXmpp, toUpnpServer, toUpnpClient, fromXmpp, fromUpnpServer, fromUpnpClient
    {
      && toXmpp.Valid() && toUpnpServer.Valid() && toUpnpClient.Valid()
      && fromXmpp.Valid() && fromUpnpServer.Valid() && fromUpnpClient.Valid()
      && toXmpp != toUpnpServer && toXmpp != toUpnpClient && toXmpp != fromXmpp
      && toXmpp != fromUpnpServer && toXmpp != fromUpnpClient
      && toUpnpServer != toUpnpClient && toUpnpServer != fromXmpp
      && toUpnpServer != fromUpnpServer && toUpnpServer != fromUpnpClient
      && toUpnpClient != fromXmpp && toUpnpClient != fromUpnpServer && toUpnpClient != fromUpnpClient
      && fromXmpp != fromUpnpServer && fromXmpp != fromUpnpClient
      && fromUpnpServer != fromUpnpClient
    }

    ghost function View(): HboxView
      reads this, toXmpp, toUpnpServer, toUpnpClient, fromXmpp, fromUpnpServer, fromUpnpClient
    {
      HboxView(self, remotes, maxPort,
        toXmpp.data, toUpnpServer.data, toUpnpClient.data,
        fromXmpp.data, fromUpnpServer.data, fromUpnpClient.data)
    }

    /** `hbox()` followed by the part of `init` that stores the host's communication
        information. */
    constructor (selfInfo: CommInfo)
      ensures Valid() && View() == Initial(selfInfo)
    {
      self := PeerRec(Init, Assign(Default, selfInfo), [], "");
      remotes := [];
      maxPort := FirstRelayPort;
      toXmpp := new BlockingQueue<Event>();
      toUpnpServer := new BlockingQueue<Event>();
      toUpnpClient := new BlockingQueue<Event>();
      fromXmpp := new BlockingQueue<Event>();
      fromUpnpServer := new BlockingQueue<Event>();
      fromUpnpClient := new BlockingQueue<Event>();
    }

    /** `getHbox`: the position of the first peer with the name, `None` for NULL. */
    method GetHbox(n: string) returns (j: Option<nat>)
      ensures j == FindPeer(remotes, n)
    {
      var i := 0;
      while i < |remotes|
        invariant 0 <= i <= |remotes|
        invariant forall k :: 0 <= k < i ==> remotes[k].name != n
      {
        if remotes[i].name == n {
          FindPeerIs(remotes, n, i);
          return Some(i);
        }
        i := i + 1;
      }
      return None;
    }

    /** `addHbox`: the new peer goes to the front. */
    method AddHbox(p: PeerRec)
      modifies this
      ensures remotes == [p] + old(remotes) && self == old(self) && maxPort == old(maxPort)
    {
      remotes := [p] + remotes;
    }

    /** The events that announce device `d` to `peer`, pushed one by one onto `hbox_xmpp`:
        NEW, PORT for a media server, one SERVICE per service, START. */
    method Announce(peer: string, d: DeviceRec)
      requires Valid()
      modifies toXmpp
      ensures Valid() && toXmpp.data == old(toXmpp.data) + Announcement(peer, d)
    {
      ghost var base := toXmpp.data;
      toXmpp.Push(Event("NEW", true, peer, d.name + "|" + d.description));
      if d.isMediaServer {
        toXmpp.Push(Event("PORT", true, peer, d.name + "|" + IntToString(d.remotePort) + "|" + IntToString(d.localPort)));
      }
      ghost var head := toXmpp.data;
      assert head == base + AnnouncementHead(peer, d);
      var i := 0;
      while i < |d.services|
        invariant 0 <= i <= |d.services|
        invariant Valid() && toXmpp.data == head + ServiceEvents(peer, d.name, d.services[..i])
      {
        var s := d.services[i];
        toXmpp.Push(Event("SERVICE", true, peer, d.name + "|" + s.name + "|" + s.description));
        ServiceEventsSnoc(peer, d.name, d.services, i);
        i := i + 1;
      }
      assert d.services[..i] == d.services;
      toXmpp.Push(Event("START", true, peer, d.name));
      AnnouncementParts(peer, d, base);
    }

    /** The loop of `newNeighborHbox` over a copy of the local device list: every READY
        device is announced to the new peer. */
    method AnnounceReady(peer: string, devices: seq<DeviceRec>)
      requires Valid()
      modifies toXmpp
      ensures Valid() && toXmpp.data == old(toXmpp.data) + NeighborBurst(peer, devices)
    {
      ghost var base := toXmpp.data;
      var k := 0;
      while k < |devices|
        invariant 0 <= k <= |devices|
        invariant Valid() && toXmpp.data == base + NeighborBurst(peer, devices[..k])
      {
        if devices[k].state == Ready {
          Announce(peer, devices[k]);
        }
        assert devices[..k + 1][..k] == devices[..k];
        k := k + 1;
      }
      assert devices[..k] == devices;
    }

    /** `newNeighborHbox`. */
    method NewNeighborHbox(e: Event, lsi: Option<string>)
      requires Valid()
      modifies this, toXmpp
      ensures Valid() && View() == HboxSpec.NewNeighborHbox(old(View()), e, lsi)
    {
      var hello := Event("NEW", false, e.name, ToString(self.commInfo));
      if e.name == e.description {
        toXmpp.Push(hello);
        return;
      }
      var isNew := true;
      var i := 0;
      while i < |remotes|
        invariant 0 <= i <= |remotes|
        invariant isNew <==> forall k :: 0 <= k < i ==> remotes[k].name != e.name
      {
        if remotes[i].name == e.name {
          isNew := false;
          break;
        }
        i := i + 1;
      }
      if !isNew {
        return;
      }
      var ci := AssociateHip(Assign(Default, Parse(e.description)), lsi).1;
      AddHbox(PeerRec(Init, ci, [], e.name));
      toXmpp.Push(hello);
      AnnounceReady(e.name, self.devices);
    }

    /** `delNeighborHbox`: the first peer with the name is erased from the list. */
    method DelNeighborHbox(e: Event)
      requires Valid()
      modifies this
      ensures Valid() && View() == HboxSpec.DelNeighborHbox(old(View()), e)
    {
      var i := 0;
      while i < |remotes|
        invariant 0 <= i <= |remotes|
        invariant forall k :: 0 <= k < i ==> remotes[k].name != e.name
      {
        if remotes[i].name == e.name {
          FindPeerIs(remotes, e.name, i);
          remotes := RemoveAt(remotes, i);
          return;
        }
        i := i + 1;
      }
    }

    /** `newLocalUPnPDevice` and `newLocalMediaUPnPDevice`: a new device with the event's
        description and name (and the media-server flag) goes to the front. */
    method NewLocalUpnpDevice(e: Event, media: bool)
      requires Valid()
      modifies this
      ensures Valid() && View() == NewLocalDevice(old(View()), e, media)
    {
      var dev := NewDevice(e.description);
      dev := dev.(name := e.name);
      if media {
        dev := dev.(isMediaServer := true);
      }
      self := self.(devices := [dev] + self.devices);
    }

    /** `addNetworkInfoLocalUPnPDevice`. */
    method AddNetworkInfoLocalUpnpDevice(e: Event, listenerOk: bool) returns (defined: bool)
      requires Valid()
      modifies this
      ensures Valid() && Outcome(old(View()), View(), defined, AddNetworkInfoLocal(old(View()), e, listenerOk))
    {
      var (ip, port) := SplitFirst(e.description, '|');
      var k := FindDevice(self.devices, e.name);
      if k.None? {
        return false;
      }
      var d := self.devices[k.value];
      d := d.(ipAddress := ip, remotePort := Atoi(port), localPort := maxPort);
      maxPort := maxPort + 1;
      if listenerOk {
        d := d.(server := Some(ListenerConfig(maxPort - 1, ip, Atoi(port))));
      }
      self := self.(devices := self.devices[k.value := d]);
      return true;
    }

    /** `newLocalUPnPService`. */
    method NewLocalUpnpService(e: Event) returns (defined: bool)
      requires Valid()
      modifies this
      ensures Valid() && Outcome(old(View()), View(), defined, NewLocalService(old(View()), e))
    {
      var (dn, sn) := SplitFirst(e.name, '|');
      var k := FindDevice(self.devices, dn);
      if k.None? {
        return false;
      }
      var d := self.devices[k.value];
      d := d.(services := AddService(d.services, UpnpService(sn, e.description)));
      self := self.(devices := self.devices[k.value := d]);
      return true;
    }

    /** The loop of `startLocalUPnPDevice`: the device is announced to every peer, in
        list order. */
    method AnnounceToPeers(d: DeviceRec)
      requires Valid()
      modifies toXmpp
      ensures Valid() && toXmpp.data == old(toXmpp.data) + StartBurst(remotes, d)
    {
      ghost var base := toXmpp.data;
      var i := 0;
      while i < |remotes|
        invariant 0 <= i <= |remotes|
        invariant Valid() && toXmpp.data == base + StartBurst(remotes[..i], d)
      {
        Announce(remotes[i].name, d);
        assert remotes[..i + 1][..i] == remotes[..i];
        i := i + 1;
      }
      assert remotes[..i] == remotes;
    }

    /** `startLocalUPnPDevice`. */
    method StartLocalUpnpDevice(e: Event) returns (defined: bool)
      requires Valid()
      modifies this, toXmpp
      ensures Valid() && Outcome(old(View()), View(), defined, StartLocal(old(View()), e))
    {
      var k := FindDevice(self.devices, e.name);
      if k.None? {
        return false;
      }
      var d := self.devices[k.value].(state := Ready);
      self := self.(devices := self.devices[k.value := d]);
      AnnounceToPeers(d);
      return true;
    }

    /** The loop of `delLocalUPnPDevice`: every peer is sent a DEL, in list order. */
    method WithdrawFromPeers(n: string)
      requires Valid()
      modifies toXmpp
      ensures Valid() && toXmpp.data == old(toXmpp.data) + DelBurst(remotes, n)
    {
      ghost var base := toXmpp.data;
      var i := 0;
      while i < |remotes|
        invariant 0 <= i <= |remotes|
        invariant Valid() && toXmpp.data == base + DelBurst(remotes[..i], n)
      {
        toXmpp.Push(Event("DEL", true, remotes[i].name, n));
        assert remotes[..i + 1][..i] == remotes[..i];
        i := i + 1;
      }
      assert remotes[..i] == remotes;
    }

    /** `delLocalUPnPDevice`. */
    method DelLocalUpnpDevice(e: Event)
      requires Valid()
      modifies this, toXmpp
      ensures Valid() && View() == DelLocal(old(View()), e)
    {
      self := self.(devices := RemoveDevice(self.devices, e.name));
      WithdrawFromPeers(e.name);
    }

    /** `sendAction`: an action from the UPnP server goes to the XMPP client. */
    method SendAction(e: Event)
      requires Valid()
      modifies toXmpp
      ensures Valid() && View() == ForwardToXmpp(old(View()), e)
    {
      toXmpp.Push(e);
    }

    /** `sendActionResponse`: a response from the control point goes to the XMPP client. */
    method SendActionResponse(e: Event)
      requires Valid()
      modifies toXmpp
      ensures Valid() && View() == ForwardToXmpp(old(View()), e)
    {
      toXmpp.Push(e);
    }

    /** `newRemoteUPnPDevice`. */
    method NewRemoteUpnpDevice(e: Event) returns (defined: bool)
      requires Valid()
      modifies this
      ensures Valid() && Outcome(old(View()), View(), defined, NewRemote(old(View()), e))
    {
      var j := GetHbox(e.name);
      var (dn, dd) := SplitFirst(e.description, '|');
      var tagged := SaveSource(dd, e.name);
      if tagged.None? || j.None? {
        return false;
      }
      var p := remotes[j.value];
      if FindDevice(p.devices, dn).None? {
        var dev := NewDevice(tagged.value).(name := dn);
        remotes := remotes[j.value := p.(devices := [dev] + p.devices)];
      }
      return true;
    }

    /** `setRemoteUPnPDevicePort`. */
    method SetRemoteUpnpDevicePort(e: Event, listenerOk: bool) returns (defined: bool)
      requires Valid()
      modifies this
      ensures Valid() && Outcome(old(View()), View(), defined, SetRemotePort(old(View()), e, listenerOk))
    {
      var j := GetHbox(e.name);
      var (dn, _, rp) := ThreeFields(e.description, '|');
      if j.None? {
        return false;
      }
      var p := remotes[j.value];
      var k := FindDevice(p.devices, dn);
      if k.None? {
        return false;
      }
      var d := p.devices[k.value];
      var server := d.server;
      if listenerOk {
        server := Some(ListenerConfig(maxPort, ForwardAddress(p.commInfo), Atoi(rp)));
      }
      d := d.(localPort := maxPort, remotePort := Atoi(rp), server := server);
      remotes := remotes[j.value := p.(devices := p.devices[k.value := d])];
      maxPort := maxPort + 1;
      return true;
    }

    /** `newRemoteUPnPService`. */
    method NewRemoteUpnpService(e: Event) returns (defined: bool)
      requires Valid()
      modifies this
      ensures Valid() && Outcome(old(View()), View(), defined, NewRemoteService(old(View()), e))
    {
      var j := GetHbox(e.name);
      var (dn, sn, sd) := ThreeFields(e.description, '|');
      if j.None? {
        return false;
      }
      var p := remotes[j.value];
      var k := FindDevice(p.devices, dn);
      if k.None? {
        return false;
      }
      var d := p.devices[k.value];
      d := d.(services := AddService(d.services, UpnpService(sn, sd)));
      remotes := remotes[j.value := p.(devices := p.devices[k.value := d])];
      return true;
    }

    /** The events of `startRemoteUPnPDevice` for the local UPnP server: NEW, START, one
        SERVICE per service named `UDN|service`, RESTART. */
    method Host(udn: string, d: DeviceRec)
      requires Valid()
      modifies toUpnpServer
      ensures Valid() && toUpnpServer.data == old(toUpnpServer.data) + HostingBurst(udn, d)
    {
      toUpnpServer.Push(Event("NEW", true, d.name, d.description));
      toUpnpServer.Push(Event("START", true, d.name, d.name));
      HostServices(udn, d.services);
      toUpnpServer.Push(Event("RESTART", true, d.name, d.name));
    }

    /** The loop of `startRemoteUPnPDevice`: one SERVICE event per service, in order. */
    method HostServices(udn: string, ss: seq<UpnpService>)
      requires Valid()
      modifies toUpnpServer
      ensures Valid() && toUpnpServer.data == old(toUpnpServer.data) + HostedServiceEvents(udn, ss)
    {
      ghost var base := toUpnpServer.data;
      var i := 0;
      while i < |ss|
        invariant 0 <= i <= |ss|
        invariant Valid() && toUpnpServer.data == base + HostedServiceEvents(udn, ss[..i])
      {
        toUpnpServer.Push(Event("SERVICE", true, udn + "|" + ss[i].name, ss[i].description));
        HostedServiceEventsSnoc(udn, ss, i);
        i := i + 1;
      }
      assert ss[..i] == ss;
    }

    /** `startRemoteUPnPDevice`. */
    method StartRemoteUpnpDevice(e: Event) returns (defined: bool)
      requires Valid()
      modifies this, toUpnpServer
      ensures Valid() && Outcome(old(View()), View(), defined, StartRemote(old(View()), e))
    {
      var j := GetHbox(e.name);
      if j.None? {
        return false;
      }
      var p := remotes[j.value];
      var k := FindDevice(p.devices, e.description);
      if k.None? {
        return false;
      }
      if p.devices[k.value].state != Ready {
        var d := p.devices[k.value].(state := Ready);
        remotes := remotes[j.value := p.(devices := p.devices[k.value := d])];
        Host(e.description, d);
      }
      return true;
    }

    /** `delRemoteUPnPDevice`. */
    method DelRemoteUpnpDevice(e: Event) returns (defined: bool)
      requires Valid()
      modifies this
      ensures Valid() && Outcome(old(View()), View(), defined, DelRemote(old(View()), e))
    {
      var j := GetHbox(e.name);
      if j.None? {
        return false;
      }
      var p := remotes[j.value];
      remotes := remotes[j.value := p.(devices := RemoveDevice(p.devices, e.description))];
      return true;
    }

    /** `actionControlReceived`: an action from a peer goes to the UPnP control point. */
    method ActionControlReceived(e: Event)
      requires Valid()
      modifies toUpnpClient
      ensures Valid() && View() == HboxSpec.ActionControlReceived(old(View()), e)
    {
      toUpnpClient.Push(e);
    }

    /** `fixResourceURL`: the payload with its resource addresses pointed at the relay;
        `None` where the run is undefined. */
    method FixResourceUrl(e: Event) returns (r: Option<string>)
      ensures r == HboxSpec.FixResourceUrl(View(), e)
    {
      var udn := Split(e.description, '|')[0];
      var j := GetHbox(e.name);
      if j.None? {
        return None;
      }
      var k := FindDevice(remotes[j.value].devices, udn);
      if k.None? {
        return None;
      }
      var port := remotes[j.value].devices[k.value].localPort;
      if port == 0 || Find(e.description, "<res", 0).None? {
        return Some(e.description);
      }
      var ip := self.commInfo.ipAddress;
      if '<' in ip {
        return None;
      }
      RelayAddressNoTag(ip, port);
      r := RewriteResourceUrls(e.description, RelayAddress(ip, port));
    }

    /** `actionResponseReceived`. */
    method ActionResponseReceived(e: Event) returns (defined: bool)
      requires Valid()
      modifies toUpnpServer
      ensures Valid() && Outcome(old(View()), View(), defined, HboxSpec.ActionResponseReceived(old(View()), e))
    {
      var d := FixResourceUrl(e);
      if d.None? {
        return false;
      }
      toUpnpServer.Push(e.(description := d.value));
      return true;
    }

    /** The branch of `eventDispatching` for an event from the UPnP control point. */
    method HandleUpnpClient(e: Event, o: Oracles) returns (defined: bool)
      requires Valid()
      modifies this, toXmpp
      ensures Valid() && Outcome(old(View()), View(), defined, FromUpnpClient(old(View()), e, o))
    {
      defined := true;
      if e.IsUpnpInfo() {
        if e.command == "NEW" {
          NewLocalUpnpDevice(e, false);
        } else if e.command == "NEW_MEDIA" {
          NewLocalUpnpDevice(e, true);
        } else if e.command == "PORT" {
          defined := AddNetworkInfoLocalUpnpDevice(e, o.localListenerOk);
        } else if e.command == "START" {
          defined := StartLocalUpnpDevice(e);
        } else if e.command == "DEL" {
          DelLocalUpnpDevice(e);
        } else if e.command == "ACTION_RESPONSE" {
          SendActionResponse(e);
        }
      } else if e.command == "SERVICE" {
        defined := NewLocalUpnpService(e);
      }
    }

    /** The branch of `eventDispatching` for an event from the UPnP server. */
    method HandleUpnpServer(e: Event)
      requires Valid()
      modifies toXmpp
      ensures Valid() && View() == FromUpnpServer(old(View()), e)
    {
      if e.IsUpnpInfo() && e.command == "ACTION" {
        SendAction(e);
      }
    }

    /** The branch of `eventDispatching` for an event from the XMPP client. */
    method HandleXmpp(e: Event, o: Oracles) returns (defined: bool)
      requires Valid()
      modifies this, toXmpp, toUpnpServer, toUpnpClient
      ensures Valid() && Outcome(old(View()), View(), defined, FromXmpp(old(View()), e, o))
    {
      defined := true;
      if e.IsHboxInfo() {
        if e.command == "NEW" {
          NewNeighborHbox(e, o.lsi);
        } else if e.command == "DEL" {
          DelNeighborHbox(e);
        }
      } else if e.command == "NEW" {
        defined := NewRemoteUpnpDevice(e);
      } else if e.command == "PORT" {
        defined := SetRemoteUpnpDevicePort(e, o.remoteListenerOk);
      } else if e.command == "SERVICE" {
        defined := NewRemoteUpnpService(e);
      } else if e.command == "START" {
        defined := StartRemoteUpnpDevice(e);
      } else if e.command == "DEL" {
        defined := DelRemoteUpnpDevice(e);
      } else if e.command == "ACTION" {
        ActionControlReceived(e);
      } else if e.command == "ACTION_RESPONSE" {
        defined := ActionResponseReceived(e);
      }
    }

    /** One round of `eventDispatching`: one event at most from each of the three
        incoming queues, in the order control point, UPnP server, XMPP; the pause between
        rounds is not modelled. */
    method DispatchRound(o: Oracles) returns (defined: bool)
      requires Valid()
      modifies this, toXmpp, toUpnpServer, toUpnpClient, fromUpnpClient, fromUpnpServer, fromXmpp
      ensures Valid()
      ensures defined == DispatchOnce(old(View()), o).Some?
      ensures defined ==> View() == DispatchOnce(old(View()), o).value
    {
      var ok, temp := fromUpnpClient.Pop(DefaultEvent);
      if ok {
        defined := HandleUpnpClient(temp, o);
        if !defined {
          return;
        }
      }
      ok, temp := fromUpnpServer.Pop(temp);
      if ok {
        HandleUpnpServer(temp);
      }
      ok, temp := fromXmpp.Pop(temp);
      defined := true;
      if ok {
        defined := HandleXmpp(temp, o);
      }
    }
  }
}
