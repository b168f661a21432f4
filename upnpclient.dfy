/** The UPnP control point side (`upnp_client`): which local devices are relayed and the
    event burst that announces one to the orchestrator, the withdrawal of a device, the
    media server's address, the names of the collected services, and the reply to an
    action a peer asks a local device to run. CyberLink's device objects become
    `LocalDevice` records; HTTP fetches and the action call are oracle inputs. */
module ControlPoint {
  import opened Wrappers
  import opened Strings
  import opened Events
  import opened Devices
  import opened Queues
  import opened ActionPayloads

  /** What the control point learns about a device on the local network. */
  datatype LocalDevice = LocalDevice(
    friendlyName: string, udn: string, isRoot: bool, deviceType: string,
    location: string, scpdUrls: seq<string>)

  /** The filter of `deviceAdded`: root devices only, and neither an hbox's own device nor a
      BubbleUPnP renderer. */
  predicate Relayable(d: LocalDevice) {
    d.isRoot && d.friendlyName != "HBOX Device" && !Contains(d.friendlyName, "BubbleUPNP")
  }

  /** The filter of `deviceRemoved`: root devices that are not an hbox's own. */
  predicate Withdrawable(d: LocalDevice) {
    d.isRoot && d.friendlyName != "HBOX Device"
  }

  /** `isMediaServer`: the device type mentions `MediaServer`. */
  function IsMediaServer(deviceType: string): (r: bool)
    ensures r <==> Contains(deviceType, "MediaServer")
  {
    Find(deviceType, "MediaServer", 0).Some?
  }

  /** `findMediaServerNetInfo`: the third `/`-separated piece of the location, split at
      `:`, as `host|port`; `None` where the source indexes past the pieces. */
  function MediaServerNetInfo(location: string): (r: Option<string>)
    ensures r.Some? ==> '|' in r.value
  {
    var parts := Split(location, '/');
    if |parts| < 3 then None
    else
      var hostPort := Split(parts[2], ':');
      if |hostPort| < 2 then None
      else
        assert (hostPort[0] + "|" + hostPort[1])[|hostPort[0]|] == '|';
        Some(hostPort[0] + "|" + hostPort[1])
  }

  /** From a location `scheme//host:port/path` the address is `host|port`, and the
      orchestrator's split at the first `|` gets host and port back. */
  lemma MediaServerNetInfoOf(scheme: string, host: string, port: string, path: string)
    requires '/' !in scheme && '/' !in host && '/' !in port
    requires ':' !in host && ':' !in port && '|' !in host
    ensures MediaServerNetInfo(scheme + "//" + host + ":" + port + "/" + path) == Some(host + "|" + port)
    ensures SplitFirst(host + "|" + port, '|') == (host, port)
  {
    var hostPort := host + [':'] + port;
    assert '/' !in hostPort;
    var rest2 := hostPort + ['/'] + path;
    var rest1 := "" + ['/'] + rest2;
    var location := scheme + ['/'] + rest1;
    assert scheme + "//" + host + ":" + port + "/" + path == location;
    SplitAfterPiece(hostPort, '/', path);
    SplitAfterPiece("", '/', rest2);
    SplitAfterPiece(scheme, '/', rest1);
    assert Split(location, '/')[2] == hostPort;
    SplitAfterPiece(host, ':', port);
    SplitPiece(port, ':');
    assert Split(hostPort, ':') == [host, port];
    assert host + "|" + port == host + ['|'] + port;
    SplitFirstOf(host, '|', port);
  }

  // ---------------------------------------------------------------------------------
  // Service description paths

  /** The character a C string holds at `i`: its terminating NUL at the end. */
  function CharAt(s: string, i: nat): char {
    if i < |s| then s[i] else '\0'
  }

  /** A service description path the HTTP request can use as it is: rooted at `/`, or an
      absolute `http:` address. */
  predicate Rooted(p: string) {
    (|p| > 0 && p[0] == '/') || (|p| >= 5 && p[..5] == "http:")
  }

  /** The test of `collectServices` as written: every comparison joined by `&&`, so a `/`
      is added only when no single character matches its place in `/` or `http:`. */
  predicate NeedsSlashAsWritten(scpd: string) {
    CharAt(scpd, 0) != '/' && CharAt(scpd, 0) != 'h' && CharAt(scpd, 1) != 't'
    && CharAt(scpd, 2) != 't' && CharAt(scpd, 3) != 'p' && CharAt(scpd, 4) != ':'
  }

  /** The path `collectServices` requests, as written. */
  function ScpdPathAsWritten(scpd: string): (p: string)
    ensures p == scpd || p == "/" + scpd
  {
    if NeedsSlashAsWritten(scpd) then "/" + scpd else scpd
  }

  /** A relative path whose second letter is `t` is requested without its `/`. */
  lemma ScpdPathAsWrittenMissesSlash()
    ensures !Rooted("stats.xml") && ScpdPathAsWritten("stats.xml") == "stats.xml"
    ensures !Rooted(ScpdPathAsWritten("stats.xml"))
  {
    assert "stats.xml"[..5] == "stats";
    assert CharAt("stats.xml", 1) == 't';
  }

  /** The path as intended: a `/` in front of anything that is neither rooted nor an
      `http:` address, and everything else as it is. */
  function ScpdPath(scpd: string): (p: string)
    ensures Rooted(p)
    ensures Rooted(scpd) ==> p == scpd
    ensures !Rooted(scpd) ==> p == "/" + scpd
  {
    if Rooted(scpd) then scpd else "/" + scpd
  }

  /** The buffer `collectServices` declares holds the URL and its NUL only; the bytes
      `strcpy` writes are the path and its NUL. */
  function ScpdBufferAsWritten(scpd: string): nat {
    |scpd| + 1
  }

  /** With the `/` added the copy writes one byte past the buffer. */
  lemma ScpdBufferOverflow(scpd: string)
    requires NeedsSlashAsWritten(scpd)
    ensures |ScpdPathAsWritten(scpd)| + 1 > ScpdBufferAsWritten(scpd)
  {
  }

  /** A buffer with room for the added `/`. */
  function ScpdBuffer(scpd: string): (n: nat)
    ensures |ScpdPath(scpd)| + 1 <= n
  {
    |scpd| + 2
  }

  /** The services of `collectServices`: one per description that could be fetched, named
      `UDN|path`, in the device's order. */
  function Collected(udn: string, scpdUrls: seq<string>, fetched: seq<Option<string>>): (ss: seq<UpnpService>)
    requires |fetched| == |scpdUrls|
    ensures |ss| <= |scpdUrls|
    ensures forall k :: 0 <= k < |ss| ==>
      |ss[k].name| > |udn| && ss[k].name[..|udn| + 1] == udn + "|" && Rooted(ss[k].name[|udn| + 1..])
  {
    if |scpdUrls| == 0 then []
    else
      var n := |scpdUrls| - 1;
      var name := udn + "|" + ScpdPath(scpdUrls[n]);
      assert name[..|udn| + 1] == udn + "|" && name[|udn| + 1..] == ScpdPath(scpdUrls[n]);
      Collected(udn, scpdUrls[..n], fetched[..n])
      + (if fetched[n].Some? then [UpnpService(name, fetched[n].value)] else [])
  }

  /** The positions of the descriptions that could be fetched, in increasing order. */
  function FetchedPositions(fetched: seq<Option<string>>): (ps: seq<nat>)
    ensures forall k :: 0 <= k < |ps| ==> ps[k] < |fetched| && fetched[ps[k]].Some?
    ensures forall k, l :: 0 <= k < l < |ps| ==> ps[k] < ps[l]
    ensures forall i :: 0 <= i < |fetched| && fetched[i].Some? ==> i in ps
  {
    if |fetched| == 0 then []
    else
      var n := |fetched| - 1;
      var ps := FetchedPositions(fetched[..n]);
      assert forall k :: 0 <= k < |ps| ==> fetched[..n][ps[k]] == fetched[ps[k]];
      assert forall i :: 0 <= i < n ==> fetched[..n][i] == fetched[i];
      ps + (if fetched[n].Some? then [n] else [])
  }

  /** Each fetched description becomes exactly one service, in the order of the URLs: the
      k-th service comes from the k-th fetched position, is named after that URL's path and
      holds the fetched content. */
  lemma {:induction false} CollectedAtPositions(udn: string, scpdUrls: seq<string>, fetched: seq<Option<string>>)
    requires |fetched| == |scpdUrls|
    ensures var ss, ps := Collected(udn, scpdUrls, fetched), FetchedPositions(fetched);
      && |ss| == |ps|
      && forall k :: 0 <= k < |ss| ==>
        && fetched[ps[k]] == Some(ss[k].description)
        && ss[k].name == udn + "|" + ScpdPath(scpdUrls[ps[k]])
  {
    if |scpdUrls| > 0 {
      var n := |scpdUrls| - 1;
      CollectedAtPositions(udn, scpdUrls[..n], fetched[..n]);
      var ss0, ps0 := Collected(udn, scpdUrls[..n], fetched[..n]), FetchedPositions(fetched[..n]);
      var ss, ps := Collected(udn, scpdUrls, fetched), FetchedPositions(fetched);
      assert ss[..|ss0|] == ss0 && ps[..|ps0|] == ps0;
      forall k | 0 <= k < |ss0|
        ensures fetched[ps[k]] == Some(ss[k].description)
        ensures ss[k].name == udn + "|" + ScpdPath(scpdUrls[ps[k]])
      {
        assert ss[k] == ss0[k] && ps[k] == ps0[k];
        assert fetched[..n][ps0[k]] == fetched[ps0[k]];
        assert scpdUrls[..n][ps0[k]] == scpdUrls[ps0[k]];
      }
    }
  }

  /** When every description could be fetched, the services are the URLs' in order. */
  lemma AllFetchedCollected(udn: string, scpdUrls: seq<string>, fetched: seq<Option<string>>)
    requires |fetched| == |scpdUrls|
    requires forall i :: 0 <= i < |fetched| ==> fetched[i].Some?
    ensures var ss := Collected(udn, scpdUrls, fetched);
      && |ss| == |scpdUrls|
      && forall i :: 0 <= i < |ss| ==> ss[i] == UpnpService(udn + "|" + ScpdPath(scpdUrls[i]), fetched[i].value)
  {
    CollectedAtPositions(udn, scpdUrls, fetched);
    AllPositions(fetched);
  }

  /** With every fetch successful, the k-th fetched position is k. */
  lemma {:induction false} AllPositions(fetched: seq<Option<string>>)
    requires forall i :: 0 <= i < |fetched| ==> fetched[i].Some?
    ensures var ps := FetchedPositions(fetched);
      |ps| == |fetched| && forall k :: 0 <= k < |ps| ==> ps[k] == k
  {
    if |fetched| > 0 {
      var n := |fetched| - 1;
      var ps0 := FetchedPositions(fetched[..n]);
      assert |ps0| == n && forall k :: 0 <= k < n ==> ps0[k] == k by {
        assert forall i :: 0 <= i < n ==> fetched[..n][i].Some?;
        AllPositions(fetched[..n]);
      }
      var ps := FetchedPositions(fetched);
      assert ps == ps0 + [n] by {
        assert fetched[n].Some?;
      }
      forall k | 0 <= k < |ps|
        ensures ps[k] == k
      {
        if k < n {
          assert ps[k] == ps0[k];
        }
      }
    }
  }

  /** A fetched description is collected under its device and path: the orchestrator's split
      of the name at the first `|` recovers both. */
  lemma CollectedNameSplits(udn: string, scpd: string)
    requires '|' !in udn
    ensures SplitFirst(udn + "|" + ScpdPath(scpd), '|') == (udn, ScpdPath(scpd))
  {
    assert udn + "|" + ScpdPath(scpd) == udn + ['|'] + ScpdPath(scpd);
    SplitFirstOf(udn, '|', ScpdPath(scpd));
  }

  /** `collectServices`, with the outcome of each description fetch given: `None` where
      the request failed. */
  method CollectServices(udn: string, scpdUrls: seq<string>, fetched: seq<Option<string>>)
    returns (services: seq<UpnpService>)
    requires |fetched| == |scpdUrls|
    ensures services == Collected(udn, scpdUrls, fetched)
  {
    services := [];
    var i := 0;
    while i < |scpdUrls|
      invariant 0 <= i <= |scpdUrls|
      invariant services == Collected(udn, scpdUrls[..i], fetched[..i])
    {
      var scpd := ScpdPath(scpdUrls[i]);
      if fetched[i].Some? {
        services := services + [UpnpService(udn + "|" + scpd, fetched[i].value)];
      }
      assert scpdUrls[..i + 1][..i] == scpdUrls[..i] && fetched[..i + 1][..i] == fetched[..i];
      i := i + 1;
    }
    assert scpdUrls[..i] == scpdUrls && fetched[..i] == fetched;
  }

  // ---------------------------------------------------------------------------------
  // Announcing and withdrawing devices

  /** One hbox-level SERVICE event per collected service. */
  function ServiceEvents(ss: seq<UpnpService>): (evs: seq<Event>)
    ensures |evs| == |ss|
    ensures forall i :: 0 <= i < |ss| ==> evs[i] == Event("SERVICE", false, ss[i].name, ss[i].description)
  {
    if |ss| == 0 then [] else ServiceEvents(ss[..|ss| - 1]) + [Event("SERVICE", false, ss[|ss| - 1].name, ss[|ss| - 1].description)]
  }

  /** The opening of an announcement: NEW_MEDIA and PORT `ip|port` for a media server, NEW
      for anything else. */
  function AnnouncementHead(d: LocalDevice, description: string): seq<Event>
    requires IsMediaServer(d.deviceType) ==> MediaServerNetInfo(d.location).Some?
  {
    if IsMediaServer(d.deviceType) then
      [Event("NEW_MEDIA", true, d.udn, description), Event("PORT", true, d.udn, MediaServerNetInfo(d.location).value)]
    else [Event("NEW", true, d.udn, description)]
  }

  /** What `deviceAdded` pushes: nothing for a filtered or already announced device, else
      the head, the services, then START. */
  function AddedEvents(roots: set<string>, d: LocalDevice, description: string, fetched: seq<Option<string>>): seq<Event>
    requires |fetched| == |d.scpdUrls|
    requires IsMediaServer(d.deviceType) ==> MediaServerNetInfo(d.location).Some?
  {
    if !Relayable(d) || d.udn in roots then []
    else AnnouncementHead(d, description) + ServiceEvents(Collected(d.udn, d.scpdUrls, fetched))
         + [Event("START", true, d.udn, d.udn)]
  }

  function AddedRoots(roots: set<string>, d: LocalDevice): set<string> {
    if Relayable(d) then roots + {d.udn} else roots
  }

  function RemovedRoots(roots: set<string>, d: LocalDevice): set<string> {
    if Withdrawable(d) then roots - {d.udn} else roots
  }

  /** What `deviceRemoved` pushes: one DEL, for an announced device that passes the filter. */
  function RemovedEvents(roots: set<string>, d: LocalDevice): seq<Event> {
    if Withdrawable(d) && d.udn in roots then [Event("DEL", true, d.udn, d.udn)] else []
  }

  /** An announcement opens with NEW_MEDIA and PORT or with NEW, carries one hbox-level
      SERVICE per collected service, and closes with START. */
  lemma AnnouncementOrder(roots: set<string>, d: LocalDevice, description: string, fetched: seq<Option<string>>)
    requires |fetched| == |d.scpdUrls|
    requires IsMediaServer(d.deviceType) ==> MediaServerNetInfo(d.location).Some?
    requires Relayable(d) && d.udn !in roots
    ensures var evs := AddedEvents(roots, d, description, fetched);
      var h := if IsMediaServer(d.deviceType) then 2 else 1;
      var n := |Collected(d.udn, d.scpdUrls, fetched)|;
      && |evs| == h + n + 1
      && evs[0].command == (if h == 2 then "NEW_MEDIA" else "NEW") && evs[0].description == description
      && (h == 2 ==> evs[1].command == "PORT")
      && (forall i :: h <= i < h + n ==> evs[i].command == "SERVICE" && evs[i].IsHboxInfo())
      && evs[|evs| - 1] == Event("START", true, d.udn, d.udn)
  {
    var evs := AddedEvents(roots, d, description, fetched);
    var head := AnnouncementHead(d, description);
    var ss := Collected(d.udn, d.scpdUrls, fetched);
    assert evs == head + ServiceEvents(ss) + [Event("START", true, d.udn, d.udn)];
    forall i | |head| <= i < |head| + |ss|
      ensures evs[i].command == "SERVICE" && evs[i].IsHboxInfo()
    {
      assert evs[i] == ServiceEvents(ss)[i - |head|];
    }
  }

  /** A device is announced once: after the first `deviceAdded` a second one pushes nothing
      and leaves the set of announced devices as it is. */
  lemma AddedOnce(roots: set<string>, d: LocalDevice, description: string, fetched: seq<Option<string>>)
    requires |fetched| == |d.scpdUrls|
    requires IsMediaServer(d.deviceType) ==> MediaServerNetInfo(d.location).Some?
    ensures AddedEvents(AddedRoots(roots, d), d, description, fetched) == []
    ensures AddedRoots(AddedRoots(roots, d), d) == AddedRoots(roots, d)
  {
  }

  /** A withdrawn device is announced again when it comes back. */
  lemma RemovedThenAddedAgain(roots: set<string>, d: LocalDevice, description: string, fetched: seq<Option<string>>)
    requires |fetched| == |d.scpdUrls|
    requires IsMediaServer(d.deviceType) ==> MediaServerNetInfo(d.location).Some?
    requires Relayable(d) && d.udn in roots
    ensures RemovedEvents(roots, d) == [Event("DEL", true, d.udn, d.udn)]
    ensures AddedEvents(RemovedRoots(roots, d), d, description, fetched) != []
  {
  }

  class UpnpClient {
    /** The UDNs of the root devices announced so far. */
    var rootDevices: set<string>
    /** The queue to the orchestrator (`upnpclient_hbox`). */
    const toHbox: BlockingQueue<Event>

    ghost predicate Valid()
      reads this, toHbox
    {
      toHbox.Valid()
    }

    constructor (q: BlockingQueue<Event>)
      requires q.Valid()
      ensures Valid() && rootDevices == {} && toHbox == q
    {
      rootDevices := {};
      toHbox := q;
    }

    /** `deviceAdded`, with the fetched device description and the outcome of each service
        description fetch given; a media server's location must hold `host:port`. */
    method DeviceAdded(d: LocalDevice, description: string, fetched: seq<Option<string>>)
      requires Valid() && |fetched| == |d.scpdUrls|
      requires IsMediaServer(d.deviceType) ==> MediaServerNetInfo(d.location).Some?
      modifies this, toHbox
      ensures Valid() && rootDevices == AddedRoots(old(rootDevices), d)
      ensures toHbox.data == old(toHbox.data) + AddedEvents(old(rootDevices), d, description, fetched)
    {
      if d.isRoot && d.friendlyName != "HBOX Device" && Find(d.friendlyName, "BubbleUPNP", 0).None? {
        var size := |rootDevices|;
        if d.udn in rootDevices {
          assert rootDevices + {d.udn} == rootDevices;
        } else {
          assert |rootDevices + {d.udn}| == size + 1;
        }
        rootDevices := rootDevices + {d.udn};
        if size != |rootDevices| {
          Announce(d, description, fetched);
        }
      }
    }

    /** The announcement of `deviceAdded` for a device seen for the first time. */
    method Announce(d: LocalDevice, description: string, fetched: seq<Option<string>>)
      requires Valid() && |fetched| == |d.scpdUrls|
      requires IsMediaServer(d.deviceType) ==> MediaServerNetInfo(d.location).Some?
      modifies toHbox
      ensures Valid()
      ensures toHbox.data == old(toHbox.data) + AnnouncementHead(d, description)
        + ServiceEvents(Collected(d.udn, d.scpdUrls, fetched)) + [Event("START", true, d.udn, d.udn)]
    {
      if IsMediaServer(d.deviceType) {
        toHbox.Push(Event("NEW_MEDIA", true, d.udn, description));
        var netInfo := MediaServerNetInfo(d.location).value;
        toHbox.Push(Event("PORT", true, d.udn, netInfo));
      } else {
        toHbox.Push(Event("NEW", true, d.udn, description));
      }
      var services := CollectServices(d.udn, d.scpdUrls, fetched);
      PushServices(services);
      toHbox.Push(Event("START", true, d.udn, d.udn));
    }

    /** The service loop of `deviceAdded`. */
    method PushServices(ss: seq<UpnpService>)
      requires Valid()
      modifies toHbox
      ensures Valid() && toHbox.data == old(toHbox.data) + ServiceEvents(ss)
    {
      ghost var base := toHbox.data;
      var i := 0;
      while i < |ss|
        invariant 0 <= i <= |ss|
        invariant Valid() && toHbox.data == base + ServiceEvents(ss[..i])
      {
        toHbox.Push(Event("SERVICE", false, ss[i].name, ss[i].description));
        assert ss[..i + 1][..i] == ss[..i];
        i := i + 1;
      }
      assert ss[..i] == ss;
    }

    /** `deviceRemoved`. */
    method DeviceRemoved(d: LocalDevice)
      requires Valid()
      modifies this, toHbox
      ensures Valid() && rootDevices == RemovedRoots(old(rootDevices), d)
      ensures toHbox.data == old(toHbox.data) + RemovedEvents(old(rootDevices), d)
    {
      if d.isRoot && d.friendlyName != "HBOX Device" {
        if d.udn in rootDevices {
          rootDevices := rootDevices - {d.udn};
          toHbox.Push(Event("DEL", true, d.udn, d.udn));
        }
      }
    }

    /** `onMessage`: an ACTION event is run by `invokeAction`; everything else is ignored.
        `defined` is false where the source runs into undefined behaviour. */
    method OnMessage(e: Event, udns: seq<string>, call: Option<ActionCall>) returns (defined: bool)
      requires Valid()
      modifies toHbox
      ensures Valid()
      ensures defined == !(e.IsUpnpInfo() && e.command == "ACTION" && InvokeAction(e, udns, call).Undefined?)
      ensures e.IsUpnpInfo() && e.command == "ACTION" && InvokeAction(e, udns, call).Reply?
        ==> toHbox.data == old(toHbox.data) + [InvokeAction(e, udns, call).event]
      ensures !(e.IsUpnpInfo() && e.command == "ACTION" && InvokeAction(e, udns, call).Reply?)
        ==> toHbox.data == old(toHbox.data)
    {
      defined := true;
      if e.IsUpnpInfo() && e.command == "ACTION" {
        var r := InvokeActionLoop(e, udns, call);
        match r
        case Silent =>
        case Undefined => defined := false;
        case Reply(ev) => toHbox.Push(ev);
      }
    }
  }

  // ---------------------------------------------------------------------------------
  // Running an action for a peer

  /** What running the action on the device tells: the UDN of the device that owns it,
      whether the control request succeeded, and the output arguments. `None` stands for
      `getAction` returning NULL. */
  datatype ActionCall = ActionCall(ownerUdn: string, succeeded: bool, outputs: seq<Arg>)

  datatype Reply = Silent | Undefined | Reply(event: Event)

  /** `invokeAction`: no reply without a local device of that UDN; otherwise the action
      named in the second field runs with the argument pairs from the third field on, and
      its response goes back to the requesting peer. */
  function InvokeAction(e: Event, udns: seq<string>, call: Option<ActionCall>): (r: Reply)
    ensures r.Reply? ==> r.event.command == "ACTION_RESPONSE" && r.event.IsUpnpInfo() && r.event.name == e.name
  {
    var fields := Split(e.description, '|');
    if fields[0] !in udns then Silent
    else if |fields| < 2 || call.None? || DecodePairs(fields, 2).None? then Undefined
    else
      var c := call.value;
      Reply(Event("ACTION_RESPONSE", true, e.name, ActionResponse(c.ownerUdn, fields[1], c.succeeded, c.outputs)))
  }

  /** The device loop of `invokeAction`: the first device with the UDN is used. */
  method InvokeActionLoop(e: Event, udns: seq<string>, call: Option<ActionCall>) returns (r: Reply)
    ensures r == InvokeAction(e, udns, call)
  {
    var fields := Split(e.description, '|');
    var i := 0;
    while i < |udns|
      invariant 0 <= i <= |udns|
      invariant fields[0] !in udns[..i]
    {
      if fields[0] == udns[i] {
        if |fields| < 2 || call.None? || DecodePairs(fields, 2).None? {
          return Undefined;
        }
        var c := call.value;
        return Reply(Event("ACTION_RESPONSE", true, e.name, ActionResponse(c.ownerUdn, fields[1], c.succeeded, c.outputs)));
      }
      assert udns[..i + 1] == udns[..i] + [udns[i]];
      i := i + 1;
    }
    assert udns[..i] == udns;
    return Silent;
  }

  /** A request built by a peer's virtual device for a local device is answered, to that
      peer, with the action's name and outcome. */
  lemma RequestAnswered(peer: string, udn: string, action: string, args: seq<Arg>, udns: seq<string>, c: ActionCall)
    requires Plain(udn) && Plain(action) && PlainArgs(args) && udn in udns
    ensures InvokeAction(Event("ACTION", true, peer, ActionRequest(udn, action, args)), udns, Some(c))
         == Reply(Event("ACTION_RESPONSE", true, peer, ActionResponse(c.ownerUdn, action, c.succeeded, c.outputs)))
  {
    RequestFields(udn, action, args);
    DecodeEncode([udn, action], args);
  }
}
