/** What the `hbox` orchestrator does with one event, as a function of what it holds: its
    own `hbox_info`, the peers it knows (newest first), the `maxPort` counter and the six
    queues. A handler result of `None` stands for a run the source does not define: a NULL
    `hbox_info` or `upnp_device` dereferenced, or an exception nobody catches. Each of those
    happens before the handler changes anything. */
module HboxSpec {
  import opened Wrappers
  import opened Strings
  import opened Seqs
  import opened Events
  import opened CommInfos
  import opened Devices
  import opened Registry
  import opened ProxyServer
  import opened ResourceUrls

  /** The first relay port handed out (`maxPort` in the constructor). */
  const FirstRelayPort := 54400

  datatype HboxView = HboxView(
    self: PeerRec,
    remotes: seq<PeerRec>,
    maxPort: int,
    toXmpp: seq<Event>,          // hbox_xmpp
    toUpnpServer: seq<Event>,    // hbox_upnpserver
    toUpnpClient: seq<Event>,    // hbox_upnpclient
    fromXmpp: seq<Event>,        // xmpp_hbox
    fromUpnpServer: seq<Event>,  // upnpserver_hbox
    fromUpnpClient: seq<Event>)  // upnpclient_hbox

  /** What the operating system answers during one dispatch round: the LSI address
      `findLsi` reports when a HIP association succeeds, and whether creating the relay
      listener for a local or a remote PORT event succeeds (it can throw). */
  datatype Oracles = Oracles(lsi: Option<string>, localListenerOk: bool, remoteListenerOk: bool)

  /** The orchestrator as the constructor and `init` leave it: relay ports start at 54400,
      no peers, no devices, empty queues, and the host's communication information stored
      through `setCommInfo`. */
  function Initial(selfInfo: CommInfo): (v: HboxView)
    ensures v.maxPort == FirstRelayPort && v.remotes == [] && v.self.devices == []
    ensures v.self.state == Init && HipConsistent(v.self.commInfo)
    ensures v.toXmpp == v.toUpnpServer == v.toUpnpClient == []
    ensures v.fromXmpp == v.fromUpnpServer == v.fromUpnpClient == []
  {
    HboxView(PeerRec(Init, Assign(Default, selfInfo), [], ""), [], FirstRelayPort, [], [], [], [], [], [])
  }

  /** The names of the peers, in list order. */
  function PeerNames(ps: seq<PeerRec>): seq<string> {
    Map(ps, (p: PeerRec) => p.name)
  }

  /** `getHbox`: the position of the first peer with that name; `None` for NULL. */
  function FindPeer(ps: seq<PeerRec>, n: string): (r: Option<nat>)
    ensures r.Some? ==> r.value < |ps| && ps[r.value].name == n
    ensures r.Some? ==> forall i :: 0 <= i < r.value ==> ps[i].name != n
    ensures r.None? <==> forall i :: 0 <= i < |ps| ==> ps[i].name != n
  {
    var r := FirstIndex(PeerNames(ps), n);
    if r.Some? then
      assert forall i :: 0 <= i < r.value ==> PeerNames(ps)[..r.value][i] == ps[i].name;
      r
    else
      assert forall i :: 0 <= i < |ps| ==> PeerNames(ps)[i] == ps[i].name;
      r
  }

  lemma FindPeerIs(ps: seq<PeerRec>, n: string, k: nat)
    requires k < |ps| && ps[k].name == n
    requires forall i :: 0 <= i < k ==> ps[i].name != n
    ensures FindPeer(ps, n) == Some(k)
  {
    assert n !in PeerNames(ps)[..k] by {
      forall i | 0 <= i < k
        ensures PeerNames(ps)[..k][i] != n
      {
        assert PeerNames(ps)[..k][i] == ps[i].name;
      }
    }
    FirstIndexIs(PeerNames(ps), n, k);
  }

  // ---------------------------------------------------------------------------------
  // Payloads and event bursts

  function NewPayload(d: DeviceRec): string {
    d.name + "|" + d.description
  }

  function PortPayload(d: DeviceRec): string {
    d.name + "|" + IntToString(d.remotePort) + "|" + IntToString(d.localPort)
  }

  function ServicePayload(deviceName: string, s: UpnpService): string {
    deviceName + "|" + s.name + "|" + s.description
  }

  /** One SERVICE event per service, in list order, all addressed to `peer`. */
  function ServiceEvents(peer: string, deviceName: string, ss: seq<UpnpService>): (evs: seq<Event>)
    ensures |evs| == |ss|
    ensures forall i :: 0 <= i < |ss| ==> evs[i] == Event("SERVICE", true, peer, ServicePayload(deviceName, ss[i]))
  {
    if |ss| == 0 then []
    else ServiceEvents(peer, deviceName, ss[..|ss| - 1]) + [Event("SERVICE", true, peer, ServicePayload(deviceName, ss[|ss| - 1]))]
  }

  /** How a device is announced to a peer: NEW `name|description`, PORT
      `name|remotePort|localPort` for a media server only, one SERVICE per service, START. */
  function Announcement(peer: string, d: DeviceRec): seq<Event> {
    [Event("NEW", true, peer, NewPayload(d))]
    + (if d.isMediaServer then [Event("PORT", true, peer, PortPayload(d))] else [])
    + ServiceEvents(peer, d.name, d.services)
    + [Event("START", true, peer, d.name)]
  }

  /** What a new peer is sent about the local devices: the announcements of the READY ones,
      one device after the other, in list order. */
  function NeighborBurst(peer: string, ds: seq<DeviceRec>): seq<Event> {
    if |ds| == 0 then []
    else
      var d := ds[|ds| - 1];
      NeighborBurst(peer, ds[..|ds| - 1]) + (if d.state == Ready then Announcement(peer, d) else [])
  }

  /** What the peers are sent when a local device starts: its announcement, peer by peer. */
  function StartBurst(ps: seq<PeerRec>, d: DeviceRec): seq<Event> {
    if |ps| == 0 then []
    else StartBurst(ps[..|ps| - 1], d) + Announcement(ps[|ps| - 1].name, d)
  }

  /** What the peers are sent when a local device goes away: one DEL each. */
  function DelBurst(ps: seq<PeerRec>, n: string): (evs: seq<Event>)
    ensures |evs| == |ps|
    ensures forall i :: 0 <= i < |ps| ==> evs[i] == Event("DEL", true, ps[i].name, n)
  {
    if |ps| == 0 then [] else DelBurst(ps[..|ps| - 1], n) + [Event("DEL", true, ps[|ps| - 1].name, n)]
  }

  /** The SERVICE events that describe a relayed device's services to the local UPnP
      server; each is named `UDN|service`. */
  function HostedServiceEvents(udn: string, ss: seq<UpnpService>): (evs: seq<Event>)
    ensures |evs| == |ss|
    ensures forall i :: 0 <= i < |ss| ==> evs[i] == Event("SERVICE", true, udn + "|" + ss[i].name, ss[i].description)
  {
    if |ss| == 0 then []
    else HostedServiceEvents(udn, ss[..|ss| - 1]) + [Event("SERVICE", true, udn + "|" + ss[|ss| - 1].name, ss[|ss| - 1].description)]
  }

  /** What the UPnP server is told when a relayed device starts: NEW, START, its services,
      then RESTART of the hosting device. */
  function HostingBurst(udn: string, d: DeviceRec): seq<Event> {
    [Event("NEW", true, d.name, d.description), Event("START", true, d.name, d.name)]
    + HostedServiceEvents(udn, d.services)
    + [Event("RESTART", true, d.name, d.name)]
  }

  // ---------------------------------------------------------------------------------
  // String rewriting

  const UdnClose := "</UDN>"

  /** `saveSourceHboxToDescription`: `<UPC>jid</UPC>` goes right after the first `</UDN>`.
      Without one, `find` gives -1 and the insertion lands at offset 5; a description
      shorter than that makes `insert` throw. */
  function SaveSource(description: string, jid: string): Option<string> {
    var tag := "<UPC>" + jid + "</UPC>";
    match Find(description, UdnClose, 0)
    case Some(p) => Some(description[..p + 6] + tag + description[p + 6..])
    case None => if |description| >= 5 then Some(description[..5] + tag + description[5..]) else None
  }

  /** `fixResourceURL`: the device is the one named by the first `|` field of the payload
      at the peer that sent it; with a local port of 0 the payload stays as it is. */
  function FixResourceUrl(v: HboxView, e: Event): Option<string> {
    var udn := Split(e.description, '|')[0];
    match FindPeer(v.remotes, e.name)
    case None => None
    case Some(j) =>
      match FindDevice(v.remotes[j].devices, udn)
      case None => None
      case Some(k) =>
        var port := v.remotes[j].devices[k].localPort;
        if port == 0 || Find(e.description, "<res", 0).None? then Some(e.description)
        else if '<' in v.self.commInfo.ipAddress then None
        else RewriteRes(e.description, RelayAddress(v.self.commInfo.ipAddress, port), 0)
  }

  // ---------------------------------------------------------------------------------
  // The handlers

  /** `newNeighborHbox`. A presence whose name and description agree is the peer asking
      for our information: we send it. A known peer changes nothing. A new peer is added at
      the front with the communication information parsed from the description, is sent
      ours, is associated over HIP, and is told about every READY local device. */
  function NewNeighborHbox(v: HboxView, e: Event, lsi: Option<string>): HboxView {
    var hello := Event("NEW", false, e.name, ToString(v.self.commInfo));
    if e.name == e.description then v.(toXmpp := v.toXmpp + [hello])
    else if FindPeer(v.remotes, e.name).Some? then v
    else
      var ci := AssociateHip(Assign(Default, Parse(e.description)), lsi).1;
      v.(remotes := [PeerRec(Init, ci, [], e.name)] + v.remotes,
         toXmpp := v.toXmpp + [hello] + NeighborBurst(e.name, v.self.devices))
  }

  /** `delNeighborHbox`, as intended: the first peer with the name goes, with its devices. */
  function DelNeighborHbox(v: HboxView, e: Event): HboxView {
    match FindPeer(v.remotes, e.name)
    case None => v
    case Some(j) => v.(remotes := RemoveAt(v.remotes, j))
  }

  /** `newLocalUPnPDevice` and `newLocalMediaUPnPDevice`: a fresh device at the front. */
  function NewLocalDevice(v: HboxView, e: Event, media: bool): HboxView {
    var d := NewDevice(e.description).(name := e.name, isMediaServer := media);
    v.(self := v.self.(devices := [d] + v.self.devices))
  }

  /** `addNetworkInfoLocalUPnPDevice`: the payload `ip|port` gives the address and the
      remote port; the device takes the next relay port, and a listener on it forwards to
      `ip:port` unless creating it fails. */
  function AddNetworkInfoLocal(v: HboxView, e: Event, listenerOk: bool): Option<HboxView> {
    match FindDevice(v.self.devices, e.name)
    case None => None
    case Some(k) =>
      var (ip, port) := SplitFirst(e.description, '|');
      var d := v.self.devices[k];
      var d' := d.(ipAddress := ip, remotePort := Atoi(port), localPort := v.maxPort,
                   server := if listenerOk then Some(ListenerConfig(v.maxPort, ip, Atoi(port))) else d.server);
      Some(v.(self := v.self.(devices := v.self.devices[k := d']), maxPort := v.maxPort + 1))
  }

  /** `newLocalUPnPService`: the name is `device|service`. */
  function NewLocalService(v: HboxView, e: Event): Option<HboxView> {
    var (dn, sn) := SplitFirst(e.name, '|');
    match FindDevice(v.self.devices, dn)
    case None => None
    case Some(k) =>
      var d := v.self.devices[k];
      var d' := d.(services := AddService(d.services, UpnpService(sn, e.description)));
      Some(v.(self := v.self.(devices := v.self.devices[k := d'])))
  }

  /** `startLocalUPnPDevice`: the device becomes READY and every peer is told about it. */
  function StartLocal(v: HboxView, e: Event): Option<HboxView> {
    match FindDevice(v.self.devices, e.name)
    case None => None
    case Some(k) =>
      var d' := v.self.devices[k].(state := Ready);
      Some(v.(self := v.self.(devices := v.self.devices[k := d']),
              toXmpp := v.toXmpp + StartBurst(v.remotes, d')))
  }

  /** `delLocalUPnPDevice`: the device goes, and every peer is sent a DEL, found or not. */
  function DelLocal(v: HboxView, e: Event): HboxView {
    v.(self := v.self.(devices := RemoveDevice(v.self.devices, e.name)),
       toXmpp := v.toXmpp + DelBurst(v.remotes, e.name))
  }

  /** `sendAction` and `sendActionResponse`: the event goes to the XMPP client as it is. */
  function ForwardToXmpp(v: HboxView, e: Event): HboxView {
    v.(toXmpp := v.toXmpp + [e])
  }

  /** `newRemoteUPnPDevice`: the payload is `device|description`; the description is
      tagged with the sender and the device added unless the peer already has one so named. */
  function NewRemote(v: HboxView, e: Event): Option<HboxView> {
    var (dn, dd) := SplitFirst(e.description, '|');
    match SaveSource(dd, e.name)
    case None => None
    case Some(tagged) =>
      match FindPeer(v.remotes, e.name)
      case None => None
      case Some(j) =>
        var p := v.remotes[j];
        if FindDevice(p.devices, dn).Some? then Some(v)
        else
          var d := NewDevice(tagged).(name := dn);
          Some(v.(remotes := v.remotes[j := p.(devices := [d] + p.devices)]))
  }

  /** The address a relay for a peer's device forwards to: its LSI under HIP, its IP
      otherwise. */
  function ForwardAddress(ci: CommInfo): string {
    if ci.isHip then ci.lsiAddress else ci.ipAddress
  }

  /** `setRemoteUPnPDevicePort`: the payload is `device|serverPort|remotePort`; the device
      takes the next relay port and the third field as its remote port, and a listener on
      the relay port forwards to the peer. */
  function SetRemotePort(v: HboxView, e: Event, listenerOk: bool): Option<HboxView> {
    match FindPeer(v.remotes, e.name)
    case None => None
    case Some(j) =>
      var p := v.remotes[j];
      var (dn, _, rp) := ThreeFields(e.description, '|');
      match FindDevice(p.devices, dn)
      case None => None
      case Some(k) =>
        var d := p.devices[k];
        var cfg := ListenerConfig(v.maxPort, ForwardAddress(p.commInfo), Atoi(rp));
        var d' := d.(localPort := v.maxPort, remotePort := Atoi(rp),
                     server := if listenerOk then Some(cfg) else d.server);
        Some(v.(remotes := v.remotes[j := p.(devices := p.devices[k := d'])], maxPort := v.maxPort + 1))
  }

  /** `newRemoteUPnPService`: the payload is `device|service|description`. */
  function NewRemoteService(v: HboxView, e: Event): Option<HboxView> {
    match FindPeer(v.remotes, e.name)
    case None => None
    case Some(j) =>
      var p := v.remotes[j];
      var (dn, sn, sd) := ThreeFields(e.description, '|');
      match FindDevice(p.devices, dn)
      case None => None
      case Some(k) =>
        var d := p.devices[k];
        var d' := d.(services := AddService(d.services, UpnpService(sn, sd)));
        Some(v.(remotes := v.remotes[j := p.(devices := p.devices[k := d'])]))
  }

  /** `startRemoteUPnPDevice`: a relayed device that is not READY yet becomes READY and is
      handed to the local UPnP server; a READY one is left alone. */
  function StartRemote(v: HboxView, e: Event): Option<HboxView> {
    match FindPeer(v.remotes, e.name)
    case None => None
    case Some(j) =>
      var p := v.remotes[j];
      match FindDevice(p.devices, e.description)
      case None => None
      case Some(k) =>
        var d := p.devices[k];
        if d.state == Ready then Some(v)
        else
          var d' := d.(state := Ready);
          Some(v.(remotes := v.remotes[j := p.(devices := p.devices[k := d'])],
                  toUpnpServer := v.toUpnpServer + HostingBurst(e.description, d')))
  }

  /** `delRemoteUPnPDevice`: the peer drops its first device with the name. */
  function DelRemote(v: HboxView, e: Event): Option<HboxView> {
    match FindPeer(v.remotes, e.name)
    case None => None
    case Some(j) =>
      var p := v.remotes[j];
      Some(v.(remotes := v.remotes[j := p.(devices := RemoveDevice(p.devices, e.description))]))
  }

  /** `actionControlReceived`: the event goes to the UPnP client as it is. */
  function ActionControlReceived(v: HboxView, e: Event): HboxView {
    v.(toUpnpClient := v.toUpnpClient + [e])
  }

  /** `actionResponseReceived`: the payload has its resource addresses pointed at the relay
      and goes to the UPnP server. */
  function ActionResponseReceived(v: HboxView, e: Event): Option<HboxView> {
    match FixResourceUrl(v, e)
    case None => None
    case Some(d) => Some(v.(toUpnpServer := v.toUpnpServer + [e.(description := d)]))
  }

  // ---------------------------------------------------------------------------------
  // Dispatching

  /** An event from the UPnP control point. */
  function FromUpnpClient(v: HboxView, e: Event, o: Oracles): Option<HboxView> {
    if e.IsUpnpInfo() then
      if e.command == "NEW" then Some(NewLocalDevice(v, e, false))
      else if e.command == "NEW_MEDIA" then Some(NewLocalDevice(v, e, true))
      else if e.command == "PORT" then AddNetworkInfoLocal(v, e, o.localListenerOk)
      else if e.command == "START" then StartLocal(v, e)
      else if e.command == "DEL" then Some(DelLocal(v, e))
      else if e.command == "ACTION_RESPONSE" then Some(ForwardToXmpp(v, e))
      else Some(v)
    else if e.command == "SERVICE" then NewLocalService(v, e)
    else Some(v)
  }

  /** An event from the UPnP server. */
  function FromUpnpServer(v: HboxView, e: Event): HboxView {
    if e.IsUpnpInfo() && e.command == "ACTION" then ForwardToXmpp(v, e) else v
  }

  /** An event from the XMPP client. */
  function FromXmpp(v: HboxView, e: Event, o: Oracles): Option<HboxView> {
    if e.IsHboxInfo() then
      if e.command == "NEW" then Some(NewNeighborHbox(v, e, o.lsi))
      else if e.command == "DEL" then Some(DelNeighborHbox(v, e))
      else Some(v)
    else if e.command == "NEW" then NewRemote(v, e)
    else if e.command == "PORT" then SetRemotePort(v, e, o.remoteListenerOk)
    else if e.command == "SERVICE" then NewRemoteService(v, e)
    else if e.command == "START" then StartRemote(v, e)
    else if e.command == "DEL" then DelRemote(v, e)
    else if e.command == "ACTION" then Some(ActionControlReceived(v, e))
    else if e.command == "ACTION_RESPONSE" then ActionResponseReceived(v, e)
    else Some(v)
  }

  /** One round of `eventDispatching`: at most one event from the control point, then at
      most one from the UPnP server, then at most one from XMPP. */
  function DispatchOnce(v: HboxView, o: Oracles): Option<HboxView> {
    var v1 :=
      if |v.fromUpnpClient| == 0 then Some(v)
      else FromUpnpClient(v.(fromUpnpClient := v.fromUpnpClient[1..]), v.fromUpnpClient[0], o);
    match v1
    case None => None
    case Some(w1) =>
      var w2 :=
        if |w1.fromUpnpServer| == 0 then w1
        else FromUpnpServer(w1.(fromUpnpServer := w1.fromUpnpServer[1..]), w1.fromUpnpServer[0]);
      if |w2.fromXmpp| == 0 then Some(w2)
      else FromXmpp(w2.(fromXmpp := w2.fromXmpp[1..]), w2.fromXmpp[0], o)
  }
}
