/** Properties of the orchestrator's handlers: what each round of dispatching may take
    and drop, the invariant on relay ports and peer names, the shape of the announcement
    bursts, the payload round trips between two hboxes, and the rewriting of resource
    addresses. */
module HboxProperties {
  import opened Wrappers
  import opened Strings
  import opened Seqs
  import opened Events
  import opened CommInfos
  import opened Devices
  import opened Registry
  import opened ProxyServer
  import opened HboxSpec

  // ---------------------------------------------------------------------------------
  // Dispatching

  function Rest(q: seq<Event>): seq<Event> {
    if |q| == 0 then q else q[1..]
  }

  lemma FromUpnpClientKeepsInbound(v: HboxView, e: Event, o: Oracles)
    requires FromUpnpClient(v, e, o).Some?
    ensures var w := FromUpnpClient(v, e, o).value;
      w.fromUpnpClient == v.fromUpnpClient && w.fromUpnpServer == v.fromUpnpServer && w.fromXmpp == v.fromXmpp
  {
  }

  lemma FromXmppKeepsInbound(v: HboxView, e: Event, o: Oracles)
    requires FromXmpp(v, e, o).Some?
    ensures var w := FromXmpp(v, e, o).value;
      w.fromUpnpClient == v.fromUpnpClient && w.fromUpnpServer == v.fromUpnpServer && w.fromXmpp == v.fromXmpp
  {
    var w := FromXmpp(v, e, o).value;
    if e.IsHboxInfo() {
      if e.command == "NEW" {
        assert w == NewNeighborHbox(v, e, o.lsi);
      }
    } else if e.command == "NEW" {
      assert w == NewRemote(v, e).value;
    } else if e.command == "PORT" {
      assert w == SetRemotePort(v, e, o.remoteListenerOk).value;
    } else if e.command == "SERVICE" {
      assert w == NewRemoteService(v, e).value;
    } else if e.command == "START" {
      assert w == StartRemote(v, e).value;
    } else if e.command == "ACTION_RESPONSE" {
      assert w == ActionResponseReceived(v, e).value;
    }
  }

  /** A round takes at most one event from each inbound queue, and adds nothing to them. */
  lemma DispatchTakesAtMostOne(v: HboxView, o: Oracles)
    requires DispatchOnce(v, o).Some?
    ensures DispatchOnce(v, o).value.fromUpnpClient == Rest(v.fromUpnpClient)
    ensures DispatchOnce(v, o).value.fromUpnpServer == Rest(v.fromUpnpServer)
    ensures DispatchOnce(v, o).value.fromXmpp == Rest(v.fromXmpp)
  {
    var v1 := v;
    if |v.fromUpnpClient| > 0 {
      v1 := v.(fromUpnpClient := v.fromUpnpClient[1..]);
      FromUpnpClientKeepsInbound(v1, v.fromUpnpClient[0], o);
      v1 := FromUpnpClient(v1, v.fromUpnpClient[0], o).value;
    }
    var v2 := v1;
    if |v1.fromUpnpServer| > 0 {
      v2 := FromUpnpServer(v1.(fromUpnpServer := v1.fromUpnpServer[1..]), v1.fromUpnpServer[0]);
    }
    if |v2.fromXmpp| > 0 {
      FromXmppKeepsInbound(v2.(fromXmpp := v2.fromXmpp[1..]), v2.fromXmpp[0], o);
    }
  }

  /** With all three inbound queues empty a round changes nothing. */
  lemma IdleRound(v: HboxView, o: Oracles)
    requires v.fromUpnpClient == [] && v.fromUpnpServer == [] && v.fromXmpp == []
    ensures DispatchOnce(v, o) == Some(v)
  {
  }

  predicate XmppCommand(e: Event) {
    if e.IsHboxInfo() then e.command in {"NEW", "DEL"}
    else e.command in {"NEW", "PORT", "SERVICE", "START", "DEL", "ACTION", "ACTION_RESPONSE"}
  }

  predicate ControlPointCommand(e: Event) {
    if e.IsUpnpInfo() then e.command in {"NEW", "NEW_MEDIA", "PORT", "START", "DEL", "ACTION_RESPONSE"}
    else e.command == "SERVICE"
  }

  /** An event whose level and command match no branch is dropped without effect. */
  lemma UnknownEventsDropped(v: HboxView, e: Event, o: Oracles)
    ensures !XmppCommand(e) ==> FromXmpp(v, e, o) == Some(v)
    ensures !ControlPointCommand(e) ==> FromUpnpClient(v, e, o) == Some(v)
    ensures !(e.IsUpnpInfo() && e.command == "ACTION") ==> FromUpnpServer(v, e) == v
  {
  }

  /** A SERVICE event from the control point counts only at the hbox level. */
  lemma LocalServiceIsHboxLevel(v: HboxView, e: Event, o: Oracles)
    requires e.command == "SERVICE"
    ensures e.upnpInfo ==> FromUpnpClient(v, e, o) == Some(v)
    ensures !e.upnpInfo ==> FromUpnpClient(v, e, o) == NewLocalService(v, e)
  {
  }

  // ---------------------------------------------------------------------------------
  // The registry invariant: relay ports and peer names

  /** Every relay port handed out so far lies in [54400, maxPort). */
  predicate PortsBelow(ds: seq<DeviceRec>, m: int) {
    forall i :: 0 <= i < |ds| ==> ds[i].localPort == 0 || FirstRelayPort <= ds[i].localPort < m
  }

  predicate Good(v: HboxView) {
    && v.maxPort >= FirstRelayPort
    && PortsBelow(v.self.devices, v.maxPort)
    && (forall j :: 0 <= j < |v.remotes| ==> PortsBelow(v.remotes[j].devices, v.maxPort))
    && Distinct(PeerNames(v.remotes))
  }

  lemma InitialGood(ci: CommInfo)
    ensures Good(Initial(ci))
  {
  }

  lemma PortsBelowRemoveDevice(ds: seq<DeviceRec>, n: string, m: int)
    requires PortsBelow(ds, m)
    ensures PortsBelow(RemoveDevice(ds, n), m)
  {
    if FindDevice(ds, n).Some? {
      var r := RemoveDevice(ds, n);
      var k := FindDevice(ds, n).value;
      forall i | 0 <= i < |r|
        ensures r[i].localPort == 0 || FirstRelayPort <= r[i].localPort < m
      {
        if i < k { assert r[i] == ds[i]; } else { assert r[i] == ds[i + 1]; }
      }
    }
  }

  lemma PeerNamesUpdate(ps: seq<PeerRec>, j: nat, p: PeerRec)
    requires j < |ps| && p.name == ps[j].name
    ensures PeerNames(ps[j := p]) == PeerNames(ps)
  {
  }

  /** Replacing one peer's record by one with the same name and ports in range keeps the
      invariant. */
  lemma GoodUpdatePeer(v: HboxView, w: HboxView, j: nat, p: PeerRec)
    requires Good(v) && j < |v.remotes| && p.name == v.remotes[j].name
    requires w.self == v.self && w.remotes == v.remotes[j := p]
    requires w.maxPort >= v.maxPort && PortsBelow(p.devices, w.maxPort)
    ensures Good(w)
  {
    PeerNamesUpdate(v.remotes, j, p);
  }

  lemma GoodRaise(v: HboxView, m: int)
    requires Good(v) && m >= v.maxPort
    ensures Good(v.(maxPort := m))
  {
  }

  lemma NewNeighborGood(v: HboxView, e: Event, lsi: Option<string>)
    requires Good(v)
    ensures Good(NewNeighborHbox(v, e, lsi)) && NewNeighborHbox(v, e, lsi).maxPort == v.maxPort
  {
    if e.name != e.description && FindPeer(v.remotes, e.name).None? {
      var w := NewNeighborHbox(v, e, lsi);
      assert PeerNames(w.remotes) == [e.name] + PeerNames(v.remotes);
      assert e.name !in PeerNames(v.remotes);
    }
  }

  lemma DelNeighborGood(v: HboxView, e: Event)
    requires Good(v)
    ensures Good(DelNeighborHbox(v, e)) && DelNeighborHbox(v, e).maxPort == v.maxPort
  {
    match FindPeer(v.remotes, e.name)
    case None =>
    case Some(j) =>
      var w := DelNeighborHbox(v, e);
      assert PeerNames(w.remotes) == RemoveAt(PeerNames(v.remotes), j);
      DistinctRemoveAt(PeerNames(v.remotes), j);
      forall i | 0 <= i < |w.remotes|
        ensures PortsBelow(w.remotes[i].devices, w.maxPort)
      {
        if i < j { assert w.remotes[i] == v.remotes[i]; } else { assert w.remotes[i] == v.remotes[i + 1]; }
      }
  }

  /** A handler that rewrites only the host's own devices (ports in range) keeps the
      invariant. */
  lemma SelfHandlerGood(v: HboxView, w: HboxView)
    requires Good(v) && w.remotes == v.remotes && w.maxPort >= v.maxPort
    requires PortsBelow(w.self.devices, w.maxPort)
    ensures Good(w)
  {
    assert forall j :: 0 <= j < |w.remotes| ==> PortsBelow(w.remotes[j].devices, v.maxPort);
  }

  lemma FromUpnpClientGood(v: HboxView, e: Event, o: Oracles)
    requires Good(v) && FromUpnpClient(v, e, o).Some?
    ensures Good(FromUpnpClient(v, e, o).value) && FromUpnpClient(v, e, o).value.maxPort >= v.maxPort
  {
    var w := FromUpnpClient(v, e, o).value;
    if e.IsUpnpInfo() && e.command == "DEL" {
      PortsBelowRemoveDevice(v.self.devices, e.name, v.maxPort);
      SelfHandlerGood(v, w);
    } else if e.IsUpnpInfo() && e.command == "PORT" {
      assert w == AddNetworkInfoLocal(v, e, o.localListenerOk).value;
      SelfHandlerGood(v, w);
    } else if e.IsUpnpInfo() && e.command == "START" {
      assert w == StartLocal(v, e).value;
      SelfHandlerGood(v, w);
    } else if !e.IsUpnpInfo() && e.command == "SERVICE" {
      assert w == NewLocalService(v, e).value;
      SelfHandlerGood(v, w);
    }
  }

  /** A handler that rewrites one peer's record (same name, ports in range) keeps the
      invariant. */
  lemma PeerHandlerGood(v: HboxView, w: HboxView, j: nat)
    requires Good(v) && j < |v.remotes| && w.self == v.self && w.maxPort >= v.maxPort
    requires |w.remotes| == |v.remotes| && w.remotes == v.remotes[j := w.remotes[j]]
    requires w.remotes[j].name == v.remotes[j].name && PortsBelow(w.remotes[j].devices, w.maxPort)
    ensures Good(w)
  {
    GoodUpdatePeer(v, w, j, w.remotes[j]);
  }

  lemma NewRemoteGood(v: HboxView, e: Event)
    requires Good(v) && NewRemote(v, e).Some?
    ensures Good(NewRemote(v, e).value) && NewRemote(v, e).value.maxPort == v.maxPort
  {
    var w := NewRemote(v, e).value;
    if w != v {
      PeerHandlerGood(v, w, FindPeer(v.remotes, e.name).value);
    }
  }

  lemma SetRemotePortGood(v: HboxView, e: Event, ok: bool)
    requires Good(v) && SetRemotePort(v, e, ok).Some?
    ensures Good(SetRemotePort(v, e, ok).value) && SetRemotePort(v, e, ok).value.maxPort == v.maxPort + 1
  {
    var w := SetRemotePort(v, e, ok).value;
    var j := FindPeer(v.remotes, e.name).value;
    assert PortsBelow(v.remotes[j].devices, v.maxPort);
    PeerHandlerGood(v, w, j);
  }

  lemma NewRemoteServiceGood(v: HboxView, e: Event)
    requires Good(v) && NewRemoteService(v, e).Some?
    ensures Good(NewRemoteService(v, e).value) && NewRemoteService(v, e).value.maxPort == v.maxPort
  {
    var j := FindPeer(v.remotes, e.name).value;
    assert PortsBelow(v.remotes[j].devices, v.maxPort);
    PeerHandlerGood(v, NewRemoteService(v, e).value, j);
  }

  lemma StartRemoteGood(v: HboxView, e: Event)
    requires Good(v) && StartRemote(v, e).Some?
    ensures Good(StartRemote(v, e).value) && StartRemote(v, e).value.maxPort == v.maxPort
  {
    var j := FindPeer(v.remotes, e.name).value;
    assert PortsBelow(v.remotes[j].devices, v.maxPort);
    PeerHandlerGood(v, StartRemote(v, e).value, j);
  }

  lemma DelRemoteGood(v: HboxView, e: Event)
    requires Good(v) && DelRemote(v, e).Some?
    ensures Good(DelRemote(v, e).value) && DelRemote(v, e).value.maxPort == v.maxPort
  {
    var j := FindPeer(v.remotes, e.name).value;
    PortsBelowRemoveDevice(v.remotes[j].devices, e.description, v.maxPort);
    PeerHandlerGood(v, DelRemote(v, e).value, j);
  }

  lemma FromXmppGood(v: HboxView, e: Event, o: Oracles)
    requires Good(v) && FromXmpp(v, e, o).Some?
    ensures Good(FromXmpp(v, e, o).value) && FromXmpp(v, e, o).value.maxPort >= v.maxPort
  {
    if e.IsHboxInfo() {
      if e.command == "NEW" {
        NewNeighborGood(v, e, o.lsi);
      } else if e.command == "DEL" {
        DelNeighborGood(v, e);
      }
    } else if e.command == "NEW" {
      NewRemoteGood(v, e);
    } else if e.command == "PORT" {
      SetRemotePortGood(v, e, o.remoteListenerOk);
    } else if e.command == "SERVICE" {
      NewRemoteServiceGood(v, e);
    } else if e.command == "START" {
      StartRemoteGood(v, e);
    } else if e.command == "DEL" {
      DelRemoteGood(v, e);
    }
  }

  /** Every round keeps the invariant, and the port counter never goes down. */
  lemma DispatchKeepsGood(v: HboxView, o: Oracles)
    requires Good(v) && DispatchOnce(v, o).Some?
    ensures Good(DispatchOnce(v, o).value)
    ensures DispatchOnce(v, o).value.maxPort >= v.maxPort
  {
    var v1 := v;
    if |v.fromUpnpClient| > 0 {
      v1 := v.(fromUpnpClient := v.fromUpnpClient[1..]);
      FromUpnpClientGood(v1, v.fromUpnpClient[0], o);
      v1 := FromUpnpClient(v1, v.fromUpnpClient[0], o).value;
    }
    var v2 := v1;
    if |v1.fromUpnpServer| > 0 {
      v2 := FromUpnpServer(v1.(fromUpnpServer := v1.fromUpnpServer[1..]), v1.fromUpnpServer[0]);
    }
    if |v2.fromXmpp| > 0 {
      FromXmppGood(v2.(fromXmpp := v2.fromXmpp[1..]), v2.fromXmpp[0], o);
    }
  }

  /** A local PORT event gives its device the counter's value, which no other device holds,
      and moves the counter on by one. */
  lemma LocalPortIsFresh(v: HboxView, e: Event, ok: bool)
    requires Good(v) && AddNetworkInfoLocal(v, e, ok).Some?
    ensures var w := AddNetworkInfoLocal(v, e, ok).value;
      var k := FindDevice(v.self.devices, e.name).value;
      && w.maxPort == v.maxPort + 1
      && w.self.devices[k].localPort == v.maxPort >= FirstRelayPort
      && (forall i :: 0 <= i < |w.self.devices| && i != k ==> w.self.devices[i].localPort != v.maxPort)
      && (forall j, i :: 0 <= j < |w.remotes| && 0 <= i < |w.remotes[j].devices| ==>
            w.remotes[j].devices[i].localPort != v.maxPort)
  {
    var w := AddNetworkInfoLocal(v, e, ok).value;
    forall j, i | 0 <= j < |w.remotes| && 0 <= i < |w.remotes[j].devices|
      ensures w.remotes[j].devices[i].localPort != v.maxPort
    {
      assert PortsBelow(v.remotes[j].devices, v.maxPort);
    }
  }

  /** The same for a PORT event from a peer. */
  lemma RemotePortIsFresh(v: HboxView, e: Event, ok: bool)
    requires Good(v) && SetRemotePort(v, e, ok).Some?
    ensures var w := SetRemotePort(v, e, ok).value;
      var j := FindPeer(v.remotes, e.name).value;
      var k := FindDevice(v.remotes[j].devices, ThreeFields(e.description, '|').0).value;
      && w.maxPort == v.maxPort + 1
      && w.remotes[j].devices[k].localPort == v.maxPort >= FirstRelayPort
      && (forall i :: 0 <= i < |w.self.devices| ==> w.self.devices[i].localPort != v.maxPort)
      && (forall j', i :: 0 <= j' < |w.remotes| && 0 <= i < |w.remotes[j'].devices| && (j', i) != (j, k) ==>
            w.remotes[j'].devices[i].localPort != v.maxPort)
  {
    var w := SetRemotePort(v, e, ok).value;
    var j := FindPeer(v.remotes, e.name).value;
    forall j', i | 0 <= j' < |w.remotes| && 0 <= i < |w.remotes[j'].devices| && (j', i) != (j, FindDevice(v.remotes[j].devices, ThreeFields(e.description, '|').0).value)
      ensures w.remotes[j'].devices[i].localPort != v.maxPort
    {
      assert PortsBelow(v.remotes[j'].devices, v.maxPort);
      assert w.remotes[j'].devices[i].localPort == v.remotes[j'].devices[i].localPort;
    }
  }

  // ---------------------------------------------------------------------------------
  // newNeighborHbox

  /** A presence naming ourselves back: one hbox-level NEW with our information, nothing
      else. */
  lemma NewNeighborLoopback(v: HboxView, e: Event, lsi: Option<string>)
    requires e.name == e.description
    ensures var w := NewNeighborHbox(v, e, lsi);
      && w.self == v.self && w.remotes == v.remotes && w.maxPort == v.maxPort
      && w.toXmpp == v.toXmpp + [Event("NEW", false, e.name, ToString(v.self.commInfo))]
      && w.toUpnpServer == v.toUpnpServer && w.toUpnpClient == v.toUpnpClient
  {
  }

  /** A peer that is already known changes nothing. */
  lemma NewNeighborKnown(v: HboxView, e: Event, lsi: Option<string>)
    requires e.name != e.description && e.name in PeerNames(v.remotes)
    ensures NewNeighborHbox(v, e, lsi) == v
  {
  }

  /** A new peer: exactly one record is added, at the front, holding the addresses its
      presence carried; it is sent our information and then the local READY devices. */
  lemma NewNeighborUnknown(v: HboxView, e: Event, lsi: Option<string>)
    requires e.name != e.description && e.name !in PeerNames(v.remotes)
    ensures var w := NewNeighborHbox(v, e, lsi);
      var ci := Parse(e.description);
      && |w.remotes| == |v.remotes| + 1 && w.remotes[1..] == v.remotes
      && w.remotes[0].name == e.name && w.remotes[0].state == Init && w.remotes[0].devices == []
      && w.remotes[0].commInfo.ipAddress == ci.ipAddress
      && w.remotes[0].commInfo.hipAddress == ci.hipAddress
      && HipConsistent(w.remotes[0].commInfo)
      && FindPeer(w.remotes, e.name) == Some(0)
      && w.toXmpp == v.toXmpp + [Event("NEW", false, e.name, ToString(v.self.commInfo))]
                              + NeighborBurst(e.name, v.self.devices)
      && w.self == v.self && w.maxPort == v.maxPort
      && w.toUpnpServer == v.toUpnpServer && w.toUpnpClient == v.toUpnpClient
      && w.fromXmpp == v.fromXmpp && w.fromUpnpServer == v.fromUpnpServer
      && w.fromUpnpClient == v.fromUpnpClient
  {
    assert FindPeer(v.remotes, e.name).None?;
    var w := NewNeighborHbox(v, e, lsi);
    FindPeerIs(w.remotes, e.name, 0);
  }

  /** What we send a peer is what it records about us: the address we advertise and our
      HIP address come back out of the NEW presence it receives. */
  lemma HelloRoundTrip(v: HboxView, ours: CommInfo, name: string, lsi: Option<string>)
    requires ';' !in AdvertisedIp(ours) && ';' !in ours.hipAddress
    requires name != ToString(ours) && name !in PeerNames(v.remotes)
    ensures var w := NewNeighborHbox(v, Event("NEW", false, name, ToString(ours)), lsi);
      && w.remotes[0].commInfo.ipAddress == AdvertisedIp(ours)
      && w.remotes[0].commInfo.hipAddress == ours.hipAddress
      && w.remotes[0].commInfo.isHip == (|ours.hipAddress| > 0)
  {
    NewNeighborUnknown(v, Event("NEW", false, name, ToString(ours)), lsi);
    ParseToString(ours);
  }

  /** Removing a peer by name: with distinct names, none with that name is left, and the
      list shrinks by one exactly when the peer was there. */
  lemma DelNeighborRemovesPeer(v: HboxView, e: Event)
    requires Distinct(PeerNames(v.remotes))
    ensures var w := DelNeighborHbox(v, e);
      && e.name !in PeerNames(w.remotes)
      && |w.remotes| == (if e.name in PeerNames(v.remotes) then |v.remotes| - 1 else |v.remotes|)
      && w.self == v.self && w.toXmpp == v.toXmpp
  {
    var w := DelNeighborHbox(v, e);
    match FindPeer(v.remotes, e.name)
    case None =>
    case Some(j) =>
      assert PeerNames(w.remotes) == RemoveAt(PeerNames(v.remotes), j);
      assert FirstIndex(PeerNames(v.remotes), e.name) == Some(j) by {
        FirstIndexIs(PeerNames(v.remotes), e.name, j);
      }
      RemoveFirstFromDistinct(PeerNames(v.remotes), e.name);
  }

  // ---------------------------------------------------------------------------------
  // The shape of the bursts

  /** How many events carry the command. */
  function Count(evs: seq<Event>, c: string): nat {
    if |evs| == 0 then 0 else (if evs[0].command == c then 1 else 0) + Count(evs[1..], c)
  }

  lemma {:induction false} CountAppend(a: seq<Event>, b: seq<Event>, c: string)
    ensures Count(a + b, c) == Count(a, c) + Count(b, c)
  {
    if |a| > 0 {
      assert (a + b)[1..] == a[1..] + b;
      CountAppend(a[1..], b, c);
    } else {
      assert a + b == b;
    }
  }

  lemma {:induction false} ServiceEventsCount(peer: string, dn: string, ss: seq<UpnpService>, c: string)
    ensures Count(ServiceEvents(peer, dn, ss), c) == if c == "SERVICE" then |ss| else 0
  {
    if |ss| > 0 {
      ServiceEventsCount(peer, dn, ss[..|ss| - 1], c);
      var last := [Event("SERVICE", true, peer, ServicePayload(dn, ss[|ss| - 1]))];
      CountAppend(ServiceEvents(peer, dn, ss[..|ss| - 1]), last, c);
    }
  }

  /** An announcement starts with NEW and ends with START; it holds one NEW, one START,
      one PORT exactly for a media server and one SERVICE per service, all addressed to
      the peer at the device level. */
  lemma AnnouncementShape(peer: string, d: DeviceRec)
    ensures var a := Announcement(peer, d);
      && |a| == 2 + (if d.isMediaServer then 1 else 0) + |d.services|
      && a[0] == Event("NEW", true, peer, NewPayload(d))
      && a[|a| - 1] == Event("START", true, peer, d.name)
      && Count(a, "NEW") == 1 && Count(a, "START") == 1
      && Count(a, "PORT") == (if d.isMediaServer then 1 else 0)
      && Count(a, "SERVICE") == |d.services|
      && forall i :: 0 <= i < |a| ==> a[i].name == peer && a[i].upnpInfo
  {
    var head := [Event("NEW", true, peer, NewPayload(d))];
    var port := if d.isMediaServer then [Event("PORT", true, peer, PortPayload(d))] else [];
    var svc := ServiceEvents(peer, d.name, d.services);
    var tail := [Event("START", true, peer, d.name)];
    forall c | c in {"NEW", "START", "PORT", "SERVICE"}
      ensures Count(Announcement(peer, d), c) ==
        (if c == "NEW" || c == "START" then 1 else if c == "PORT" then (if d.isMediaServer then 1 else 0) else |d.services|)
    {
      CountAppend(head, port, c);
      CountAppend(head + port, svc, c);
      CountAppend(head + port + svc, tail, c);
      ServiceEventsCount(peer, d.name, d.services, c);
    }
  }

  /** How many devices are READY. */
  function ReadyCount(ds: seq<DeviceRec>): nat {
    if |ds| == 0 then 0
    else ReadyCount(ds[..|ds| - 1]) + (if ds[|ds| - 1].state == Ready then 1 else 0)
  }

  /** A new peer hears of each READY device once (one NEW and one START per device) and
      of no other; every event goes to that peer at the device level. */
  lemma {:induction false} NeighborBurstAnnouncesReady(peer: string, ds: seq<DeviceRec>)
    ensures Count(NeighborBurst(peer, ds), "START") == ReadyCount(ds)
    ensures Count(NeighborBurst(peer, ds), "NEW") == ReadyCount(ds)
    ensures forall ev :: ev in NeighborBurst(peer, ds) ==> ev.name == peer && ev.upnpInfo
  {
    if |ds| > 0 {
      var d := ds[|ds| - 1];
      var init := NeighborBurst(peer, ds[..|ds| - 1]);
      var last := if d.state == Ready then Announcement(peer, d) else [];
      NeighborBurstAnnouncesReady(peer, ds[..|ds| - 1]);
      AnnouncementShape(peer, d);
      CountAppend(init, last, "START");
      CountAppend(init, last, "NEW");
    }
  }

  /** How many peers carry the name. */
  function PeersNamed(ps: seq<PeerRec>, n: string): nat {
    if |ps| == 0 then 0
    else PeersNamed(ps[..|ps| - 1], n) + (if ps[|ps| - 1].name == n then 1 else 0)
  }

  /** How many events carry the command and go to `n`. */
  function CountTo(evs: seq<Event>, c: string, n: string): nat {
    if |evs| == 0 then 0 else (if evs[0].command == c && evs[0].name == n then 1 else 0) + CountTo(evs[1..], c, n)
  }

  lemma {:induction false} CountToAppend(a: seq<Event>, b: seq<Event>, c: string, n: string)
    ensures CountTo(a + b, c, n) == CountTo(a, c, n) + CountTo(b, c, n)
  {
    if |a| > 0 {
      assert (a + b)[1..] == a[1..] + b;
      CountToAppend(a[1..], b, c, n);
    } else {
      assert a + b == b;
    }
  }

  lemma {:induction false} AnnouncementStartsOnce(peer: string, d: DeviceRec, n: string)
    ensures CountTo(Announcement(peer, d), "START", n) == if peer == n then 1 else 0
  {
    var head := [Event("NEW", true, peer, NewPayload(d))];
    var port := if d.isMediaServer then [Event("PORT", true, peer, PortPayload(d))] else [];
    var svc := ServiceEvents(peer, d.name, d.services);
    var tail := [Event("START", true, peer, d.name)];
    CountToAppend(head, port, "START", n);
    CountToAppend(head + port, svc, "START", n);
    CountToAppend(head + port + svc, tail, "START", n);
    assert CountTo(svc, "START", n) == 0 by {
      ServiceEventsCount(peer, d.name, d.services, "START");
      CountToBelowCount(svc, "START", n);
    }
  }

  lemma {:induction false} CountToBelowCount(evs: seq<Event>, c: string, n: string)
    ensures CountTo(evs, c, n) <= Count(evs, c)
  {
    if |evs| > 0 {
      CountToBelowCount(evs[1..], c, n);
    }
  }

  /** Starting a local device sends each peer its announcement: every peer gets exactly
      one START for it (one per peer record carrying the name). */
  lemma {:induction false} StartBurstReachesEveryPeer(ps: seq<PeerRec>, d: DeviceRec, n: string)
    ensures CountTo(StartBurst(ps, d), "START", n) == PeersNamed(ps, n)
  {
    if |ps| > 0 {
      StartBurstReachesEveryPeer(ps[..|ps| - 1], d, n);
      CountToAppend(StartBurst(ps[..|ps| - 1], d), Announcement(ps[|ps| - 1].name, d), "START", n);
      AnnouncementStartsOnce(ps[|ps| - 1].name, d, n);
    }
  }

  // ---------------------------------------------------------------------------------
  // Local devices

  /** Starting a local device makes it READY and touches nothing else in the registry;
      starting it again leaves the registry as it is (though the peers are told again). */
  lemma StartLocalMarksReady(v: HboxView, e: Event)
    requires StartLocal(v, e).Some?
    ensures var w := StartLocal(v, e).value;
      var k := FindDevice(v.self.devices, e.name).value;
      && w.self.devices == v.self.devices[k := v.self.devices[k].(state := Ready)]
      && w.remotes == v.remotes && w.maxPort == v.maxPort
      && FindDevice(w.self.devices, e.name) == Some(k)
      && StartLocal(w, e).Some? && StartLocal(w, e).value.self == w.self
  {
    var w := StartLocal(v, e).value;
    var k := FindDevice(v.self.devices, e.name).value;
    FindDeviceIs(w.self.devices, e.name, k);
  }

  /** Deleting a local device sends a DEL to every peer, in list order, whether or not
      the device was found. */
  lemma DelLocalNotifiesEveryPeer(v: HboxView, e: Event)
    ensures var w := DelLocal(v, e);
      && |w.toXmpp| == |v.toXmpp| + |v.remotes|
      && w.toXmpp[..|v.toXmpp|] == v.toXmpp
      && (forall i :: 0 <= i < |v.remotes| ==> w.toXmpp[|v.toXmpp| + i] == Event("DEL", true, v.remotes[i].name, e.name))
      && w.self.devices == RemoveDevice(v.self.devices, e.name)
  {
    var w := DelLocal(v, e);
    forall i | 0 <= i < |v.remotes|
      ensures w.toXmpp[|v.toXmpp| + i] == Event("DEL", true, v.remotes[i].name, e.name)
    {
      assert w.toXmpp[|v.toXmpp| + i] == DelBurst(v.remotes, e.name)[i];
    }
  }

  /** A local PORT payload `ip|port` (with no `|` in the address) gives the device that
      address, that remote port, the next relay port, and a listener from the relay port to
      `ip:port` when creating it succeeds. */
  lemma LocalPortPayload(v: HboxView, n: string, host: string, port: int, ok: bool)
    requires '|' !in host && FindDevice(v.self.devices, n).Some?
    ensures var k := FindDevice(v.self.devices, n).value;
      var r := AddNetworkInfoLocal(v, Event("PORT", true, n, host + "|" + IntToString(port)), ok);
      && r.Some?
      && r.value.self.devices[k].ipAddress == host
      && r.value.self.devices[k].remotePort == port
      && r.value.self.devices[k].localPort == v.maxPort
      && r.value.self.devices[k].server ==
           (if ok then Some(ListenerConfig(v.maxPort, host, port)) else v.self.devices[k].server)
  {
    SplitFirstOf(host, '|', IntToString(port));
    AtoiIntToString(port);
  }

  // ---------------------------------------------------------------------------------
  // Relayed devices: what a peer's announcement becomes here

  /** The PORT event of an announcement: the relayed device takes the announcing device's
      relay port as its remote port, and its own listener forwards to the peer (its LSI
      under HIP, its IP otherwise) on that port. */
  lemma AnnouncedPort(v: HboxView, sender: string, d: DeviceRec, ok: bool)
    requires '|' !in d.name
    requires FindPeer(v.remotes, sender).Some?
    requires FindDevice(v.remotes[FindPeer(v.remotes, sender).value].devices, d.name).Some?
    ensures var j := FindPeer(v.remotes, sender).value;
      var k := FindDevice(v.remotes[j].devices, d.name).value;
      var r := SetRemotePort(v, Event("PORT", true, sender, PortPayload(d)), ok);
      && r.Some?
      && r.value.remotes[j].devices[k].remotePort == d.localPort
      && r.value.remotes[j].devices[k].localPort == v.maxPort
      && (ok ==> r.value.remotes[j].devices[k].server ==
                   Some(ListenerConfig(v.maxPort, ForwardAddress(v.remotes[j].commInfo), d.localPort)))
  {
    IntToStringChars(d.remotePort, '|');
    ThreeFieldsOf(d.name, IntToString(d.remotePort), IntToString(d.localPort), '|');
    AtoiIntToString(d.localPort);
  }

  /** The NEW event of an announcement adds the device under its own name, its description
      tagged with the sender, unless the peer already lists a device so named. */
  lemma AnnouncedDevice(v: HboxView, sender: string, d: DeviceRec)
    requires '|' !in d.name && Find(d.description, UdnClose, 0).Some?
    requires FindPeer(v.remotes, sender).Some?
    ensures var j := FindPeer(v.remotes, sender).value;
      var r := NewRemote(v, Event("NEW", true, sender, NewPayload(d)));
      && r.Some?
      && (FindDevice(v.remotes[j].devices, d.name).None? ==>
            r.value.remotes[j].devices ==
              [NewDevice(SaveSource(d.description, sender).value).(name := d.name)] + v.remotes[j].devices)
      && (FindDevice(v.remotes[j].devices, d.name).Some? ==> r.value == v)
  {
    SplitFirstOf(d.name, '|', d.description);
  }

  /** A SERVICE event of an announcement adds exactly the announced service to the
      relayed device. */
  lemma AnnouncedService(v: HboxView, sender: string, dn: string, s: UpnpService)
    requires '|' !in dn && '|' !in s.name
    requires FindPeer(v.remotes, sender).Some?
    requires FindDevice(v.remotes[FindPeer(v.remotes, sender).value].devices, dn).Some?
    ensures var j := FindPeer(v.remotes, sender).value;
      var k := FindDevice(v.remotes[j].devices, dn).value;
      var r := NewRemoteService(v, Event("SERVICE", true, sender, ServicePayload(dn, s)));
      && r.Some?
      && r.value.remotes[j].devices[k].services == AddService(v.remotes[j].devices[k].services, s)
  {
    ThreeFieldsOf(dn, s.name, s.description, '|');
  }

  /** Adding a relayed device twice is adding it once. */
  lemma NewRemoteIdempotent(v: HboxView, e: Event)
    requires NewRemote(v, e).Some?
    ensures NewRemote(NewRemote(v, e).value, e) == NewRemote(v, e)
  {
    var w := NewRemote(v, e).value;
    var (dn, dd) := SplitFirst(e.description, '|');
    var j := FindPeer(v.remotes, e.name).value;
    if w != v {
      FindPeerIs(w.remotes, e.name, j);
      FindDeviceIs(w.remotes[j].devices, dn, 0);
    }
  }

  /** A repeated START of a relayed device emits nothing and changes nothing. */
  lemma StartRemoteIdempotent(v: HboxView, e: Event)
    requires StartRemote(v, e).Some?
    ensures StartRemote(StartRemote(v, e).value, e) == StartRemote(v, e)
  {
    var w := StartRemote(v, e).value;
    var j := FindPeer(v.remotes, e.name).value;
    var k := FindDevice(v.remotes[j].devices, e.description).value;
    if w != v {
      FindPeerIs(w.remotes, e.name, j);
      FindDeviceIs(w.remotes[j].devices, e.description, k);
    }
  }

  /** Starting a relayed device that is not READY hands it to the UPnP server as NEW,
      START, one SERVICE per service (named `UDN|service`), RESTART. */
  lemma StartRemoteHandsOver(v: HboxView, e: Event)
    requires StartRemote(v, e).Some?
    ensures var j := FindPeer(v.remotes, e.name).value;
      var k := FindDevice(v.remotes[j].devices, e.description).value;
      var d := v.remotes[j].devices[k];
      var w := StartRemote(v, e).value;
      && w.remotes[j].devices[k].state == Ready
      && (d.state == Ready ==> w == v)
      && (d.state != Ready ==>
            && |w.toUpnpServer| == |v.toUpnpServer| + 3 + |d.services|
            && w.toUpnpServer[|v.toUpnpServer|] == Event("NEW", true, e.description, d.description)
            && w.toUpnpServer[|v.toUpnpServer| + 1] == Event("START", true, e.description, e.description)
            && (forall i :: 0 <= i < |d.services| ==>
                  w.toUpnpServer[|v.toUpnpServer| + 2 + i] ==
                    Event("SERVICE", true, e.description + "|" + d.services[i].name, d.services[i].description))
            && w.toUpnpServer[|w.toUpnpServer| - 1] == Event("RESTART", true, e.description, e.description))
  {
    var j := FindPeer(v.remotes, e.name).value;
    var k := FindDevice(v.remotes[j].devices, e.description).value;
    var d := v.remotes[j].devices[k];
    if d.state != Ready {
      var w := StartRemote(v, e).value;
      var hs := HostedServiceEvents(e.description, d.services);
      forall i | 0 <= i < |d.services|
        ensures w.toUpnpServer[|v.toUpnpServer| + 2 + i] ==
                  Event("SERVICE", true, e.description + "|" + d.services[i].name, d.services[i].description)
      {
        assert w.toUpnpServer[|v.toUpnpServer| + 2 + i] == hs[i];
      }
    }
  }

  /** `<UPC>jid</UPC>` lands right after the first `</UDN>`: the text before and after is
      kept, and that `</UDN>` is still the first. */
  lemma SaveSourceAfterUdn(description: string, jid: string)
    requires Find(description, UdnClose, 0).Some?
    ensures var p := Find(description, UdnClose, 0).value;
      var tag := "<UPC>" + jid + "</UPC>";
      var t := SaveSource(description, jid);
      && t.Some?
      && |t.value| == |description| + |tag|
      && t.value[..p + 6] == description[..p + 6]
      && t.value[p + 6..p + 6 + |tag|] == tag
      && t.value[p + 6 + |tag|..] == description[p + 6..]
      && Find(t.value, UdnClose, 0) == Some(p)
  {
    var p := Find(description, UdnClose, 0).value;
    var tag := "<UPC>" + jid + "</UPC>";
    var t := SaveSource(description, jid).value;
    assert t[..p + 6] == description[..p + 6];
    assert t[p..p + 6] == description[p..p + 6] == UdnClose;
    forall k | 0 <= k < p
      ensures !OccursAt(t, UdnClose, k)
    {
      assert t[k..k + 6] == description[k..k + 6];
      assert !OccursAt(description, UdnClose, k);
    }
    FindAt(t, UdnClose, 0, p);
  }

  /** Without `</UDN>` the tag goes in at offset 5, and a description shorter than that
      makes the insertion throw. */
  lemma SaveSourceWithoutUdn(description: string, jid: string)
    requires Find(description, UdnClose, 0).None?
    ensures |description| < 5 ==> SaveSource(description, jid).None?
    ensures var tag := "<UPC>" + jid + "</UPC>";
      |description| >= 5 ==> SaveSource(description, jid) == Some(description[..5] + tag + description[5..])
  {
  }

  // ---------------------------------------------------------------------------------
  // fixResourceURL

  /** A device without a relay port leaves the response as it is. */
  lemma FixResourceUrlWithoutRelay(v: HboxView, e: Event)
    requires FindPeer(v.remotes, e.name).Some?
    requires var p := v.remotes[FindPeer(v.remotes, e.name).value];
      FindDevice(p.devices, Split(e.description, '|')[0]).Some? &&
      p.devices[FindDevice(p.devices, Split(e.description, '|')[0]).value].localPort == 0
    ensures FixResourceUrl(v, e) == Some(e.description)
  {
  }

}
