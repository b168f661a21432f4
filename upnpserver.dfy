/** The UPnP server side (`upnp_server`): the aggregate description that hosts every
    relayed device as an embedded device of one virtual root device, the port that virtual
    device is published on, the target of a service description, the action request a
    virtual device sends and the action response it reads back, and `search_and_replace`.
    CyberLink's device objects, the description file on disk and the condition variable
    are not modelled; what they hand over is a parameter. */
module UpnpServer {
  import opened Wrappers
  import opened Strings
  import opened Events
  import opened ActionPayloads

  /** The virtual root device is first published on this port. */
  const FirstPort := 15010
  /** Each re-creation of the virtual device moves it this many ports up. */
  const PortStep := 10

  const ScpdTag := "<SCPDURL>"

  // ---------------------------------------------------------------------------------
  // Service description addresses

  /** The address after a `<SCPDURL>` tag at `i` is usable as it is: it is rooted at `/`
      or is an absolute `http://` address. */
  predicate AddressedAt(s: string, i: nat) {
    (i + 7 <= |s| && s[i..i + 7] == "http://") || (i < |s| && s[i] == '/')
  }

  /** Every `<SCPDURL>` tag of `s` before `upTo` is followed by a usable address. */
  predicate AddressedBefore(s: string, upTo: nat) {
    forall q :: 0 <= q < upTo && OccursAt(s, ScpdTag, q) ==> AddressedAt(s, q + 9)
  }

  /** Every `<SCPDURL>` tag of `s` is followed by a usable address. */
  predicate AllAddressed(s: string) {
    forall q :: 0 <= q <= |s| && OccursAt(s, ScpdTag, q) ==> AddressedAt(s, q + 9)
  }

  /** `s` with a `/` at `i`. */
  function InsertSlash(s: string, i: nat): (t: string)
    requires i <= |s|
    ensures |t| == |s| + 1 && t[..i] == s[..i] && t[i] == '/' && t[i + 1..] == s[i..]
  {
    s[..i] + "/" + s[i..]
  }

  /** The loop of `newEmbeddedDevice` over the `<SCPDURL>` tags from `from` on: a `/` is
      inserted right after each tag whose address is neither rooted nor `http://`. The
      next search starts after the tag (the source starts it one character after the
      tag's `<`, which finds the same tag: none can start inside `<SCPDURL>`). */
  function FixScpd(s: string, from: nat): string
    decreases |s| - from
  {
    match Find(s, ScpdTag, from)
    case None => s
    case Some(p) => FixScpd(FixAt(s, p), p + 9)
  }

  /** No tag starts inside a tag: only its first character is a `<`. */
  lemma NoTagInsideTag(s: string, p: nat, q: nat)
    requires OccursAt(s, ScpdTag, p) && p < q < p + 9
    ensures !OccursAt(s, ScpdTag, q)
  {
    assert s[q] == s[p..p + 9][q - p];
    if q + 9 <= |s| {
      assert s[q..q + 9][0] == s[q];
    }
  }

  /** Searching one character after a tag finds what searching after the whole tag finds. */
  lemma NextTagSearch(s: string, p: nat)
    requires OccursAt(s, ScpdTag, p)
    ensures Find(s, ScpdTag, p + 1) == Find(s, ScpdTag, p + 9)
  {
    forall q | p + 1 <= q < p + 9
      ensures !OccursAt(s, ScpdTag, q)
    {
      NoTagInsideTag(s, p, q);
    }
    FindSkip(s, ScpdTag, p + 1, p + 9);
  }

  /** A usable address after a tag lies before any later tag: it holds no `<`. */
  lemma AddressBeforeNextTag(s: string, q: nat, p: nat)
    requires OccursAt(s, ScpdTag, q) && OccursAt(s, ScpdTag, p) && q < p
    requires AddressedAt(s, q + 9)
    ensures q + 9 < p && (s[q + 9] == '/' || q + 16 <= p)
  {
    assert s[p] == '<' by { assert s[p..p + 9][0] == s[p]; }
    if p < q + 9 {
      NoTagInsideTag(s, q, p);
    }
    if s[q + 9] != '/' {
      forall i | q + 9 <= i < q + 16 && i < |s|
        ensures s[i] != '<'
      {
        assert s[i] == s[q + 9..q + 16][i - q - 9];
      }
    }
  }

  /** The step of the loop at the tag at `p`. */
  function FixAt(s: string, p: nat): (t: string)
    requires p + 9 <= |s|
    ensures |t| >= |s| && t[..p + 9] == s[..p + 9]
  {
    if AddressedAt(s, p + 9) then s else InsertSlash(s, p + 9)
  }

  /** A tag before `p` whose address is usable keeps it through the step at `p`. */
  lemma FixAtKeepsEarlier(s: string, q: nat, p: nat)
    requires OccursAt(s, ScpdTag, q) && OccursAt(s, ScpdTag, p) && q < p
    requires AddressedAt(s, q + 9)
    ensures OccursAt(FixAt(s, p), ScpdTag, q) && AddressedAt(FixAt(s, p), q + 9)
  {
    var t := FixAt(s, p);
    AddressBeforeNextTag(s, q, p);
    assert t[q..q + 9] == s[q..q + 9] by { assert t[..p + 9] == s[..p + 9]; }
    if s[q + 9] == '/' {
      assert t[q + 9] == s[q + 9] by { assert t[..p + 9] == s[..p + 9]; }
    } else {
      assert t[q + 9..q + 16] == s[q + 9..q + 16] by { assert t[..p + 9] == s[..p + 9]; }
    }
  }

  /** One step of the loop keeps every tag before the resumed search addressed. */
  lemma FixScpdStep(s: string, from: nat, p: nat)
    requires AddressedBefore(s, from)
    requires Find(s, ScpdTag, from) == Some(p)
    ensures AddressedBefore(FixAt(s, p), p + 9)
  {
    var t := FixAt(s, p);
    assert OccursAt(t, ScpdTag, p) by { assert t[p..p + 9] == s[p..p + 9]; }
    assert AddressedAt(t, p + 9);
    forall q | 0 <= q < p + 9 && OccursAt(t, ScpdTag, q)
      ensures AddressedAt(t, q + 9)
    {
      if q < p {
        assert OccursAt(s, ScpdTag, q) by {
          assert t[..p + 9] == s[..p + 9];
          assert t[q..q + 9] == s[q..q + 9];
        }
        assert q < from;
        FixAtKeepsEarlier(s, q, p);
      } else if q > p {
        NoTagInsideTag(t, p, q);
      }
    }
  }

  /** With no tag left after `from`, a string addressed before `from` is addressed. */
  lemma NoTagLeft(s: string, from: nat)
    requires AddressedBefore(s, from)
    requires Find(s, ScpdTag, from).None?
    ensures AllAddressed(s)
  {
    forall q | 0 <= q <= |s| && OccursAt(s, ScpdTag, q)
      ensures AddressedAt(s, q + 9)
    {
      assert q < from;
    }
  }

  /** After the loop every `<SCPDURL>` tag is followed by a rooted or `http://` address. */
  lemma {:induction false} FixScpdAddressed(s: string, from: nat)
    requires AddressedBefore(s, from)
    ensures AllAddressed(FixScpd(s, from))
    decreases |s| - from
  {
    var r := Find(s, ScpdTag, from);
    if r.None? {
      NoTagLeft(s, from);
    } else {
      var p := r.value;
      FixScpdStep(s, from, p);
      FixScpdAddressed(FixAt(s, p), p + 9);
    }
  }

  /** A description whose tags are all addressed already is left as it is. */
  lemma {:induction false} FixScpdKeepsAddressed(s: string, from: nat)
    requires AllAddressed(s)
    ensures FixScpd(s, from) == s
    decreases |s| - from
  {
    match Find(s, ScpdTag, from)
    case None =>
    case Some(p) =>
      FixScpdKeepsAddressed(s, p + 9);
  }

  /** Fixing the addresses twice is fixing them once. */
  lemma FixScpdIdempotent(s: string)
    ensures FixScpd(FixScpd(s, 0), 0) == FixScpd(s, 0)
  {
    FixScpdAddressed(s, 0);
    FixScpdKeepsAddressed(FixScpd(s, 0), 0);
  }

  // ---------------------------------------------------------------------------------
  // The aggregate description

  /** Where the device section goes: right after the first `<deviceList>`. Without one,
      `npos + 12` wraps around to 11. */
  function InsertionPoint(total: string): nat {
    match Find(total, "<deviceList>", 0)
    case Some(k) => k + 12
    case None => 11
  }

  /** The device section of a description: from the first `<device>` up to the following
      `</root>`, or to the end without one; `None` without `<device>`, where `substr`
      throws. */
  function DeviceSection(desc: string): (r: Option<string>)
  {
    match Find(desc, "<device>", 0)
    case None => None
    case Some(b) =>
      match Find(desc, "</root>", b)
      case None => Some(desc[b..])
      case Some(e) => Some(desc[b..e])
  }

  /** `totalDescription` with `section` inserted; `None` where the insertion point lies
      past the end and `insert` throws. */
  function Embed(total: string, section: string): (r: Option<string>)
    ensures r.Some? <==> InsertionPoint(total) <= |total|
    ensures r.Some? ==> var at := InsertionPoint(total);
      && |r.value| == |total| + |section|
      && r.value[..at] == total[..at]
      && r.value[at..at + |section|] == section
      && r.value[at + |section|..] == total[at..]
  {
    var at := InsertionPoint(total);
    if at <= |total| then Some(total[..at] + section + total[at..]) else None
  }

  /** The aggregate description after `newEmbeddedDevice`: unchanged for a description
      without `<SCPDURL>` (the root device is deleted all the same, see `Server`);
      otherwise the addresses are fixed and the device section goes into the aggregate
      description. `None` where the source throws. */
  function EmbeddedDescription(total: string, desc: string): Option<string> {
    if Find(desc, ScpdTag, 0).None? then Some(total)
    else
      match DeviceSection(FixScpd(desc, 0))
      case None => None
      case Some(section) => Embed(total, section)
  }

  /** Inserting keeps the first `<deviceList>` where it was. */
  lemma EmbedKeepsDeviceList(total: string, section: string, k: nat)
    requires Find(total, "<deviceList>", 0) == Some(k)
    ensures Embed(total, section).Some?
    ensures Find(Embed(total, section).value, "<deviceList>", 0) == Some(k)
  {
    var r := Embed(total, section).value;
    assert r[..k + 12] == total[..k + 12];
    assert r[k..k + 12] == total[k..k + 12];
    forall j | 0 <= j < k
      ensures !OccursAt(r, "<deviceList>", j)
    {
      assert !OccursAt(total, "<deviceList>", j);
      assert r[j..j + 12] == r[..k + 12][j..j + 12];
      assert total[j..j + 12] == total[..k + 12][j..j + 12];
    }
    FindAt(r, "<deviceList>", 0, k);
  }

  /** The newest device comes first: embedding two sections one after the other puts the
      second right after `<deviceList>`, followed by the first. */
  lemma NewestFirst(total: string, first: string, second: string, k: nat)
    requires Find(total, "<deviceList>", 0) == Some(k)
    ensures Embed(total, first).Some?
    ensures var once := Embed(total, first).value;
      && Embed(once, second).Some?
      && Embed(once, second).value == total[..k + 12] + second + first + total[k + 12..]
  {
    EmbedKeepsDeviceList(total, first, k);
    var once := Embed(total, first).value;
    assert once == total[..k + 12] + first + total[k + 12..];
    assert once[..k + 12] == total[..k + 12];
    assert once[k + 12..] == first + total[k + 12..];
  }

  // ---------------------------------------------------------------------------------
  // Services and actions

  /** `newEmbeddedService`: the event's name is split at its first `|` into the UDN of the
      embedded device and the service description's address. */
  function EmbeddedServiceTarget(e: Event): (string, string) {
    SplitFirst(e.name, '|')
  }

  /** The name a hosted service is announced under, `UDN|address`, comes apart into the
      UDN and the address when the UDN holds no `|`. */
  lemma EmbeddedServiceTargetOf(udn: string, address: string, description: string)
    requires '|' !in udn
    ensures EmbeddedServiceTarget(Event("SERVICE", true, udn + "|" + address, description)) == (udn, address)
  {
    assert udn + "|" + address == udn + ['|'] + address;
    SplitFirstOf(udn, '|', address);
  }

  /** `virtual_upnp::actionControlReceived`: an action on a virtual device goes to the hbox
      that hosts the real one (the device's UPC field) as an ACTION event. */
  function ActionEvent(upc: string, udn: string, action: string, args: seq<Arg>): (e: Event)
    ensures e.IsUpnpInfo() && e.command == "ACTION" && e.name == upc
  {
    Event("ACTION", true, upc, ActionRequest(udn, action, args))
  }

  datatype ResponseOutcome = NoMatch | Failed | Arguments(args: seq<Arg>) | Undefined

  /** `actionResponseReceived`: a response for no embedded device is ignored; `false` in
      the third field sets no arguments; otherwise the pairs from the fourth field on are
      the output arguments. `actionFound` says whether `getAction` finds the action;
      `Undefined` is where the source indexes past the fields, or dereferences the missing
      action to set an argument. */
  function ActionResponseReceived(e: Event, childUdns: seq<string>, actionFound: bool): ResponseOutcome {
    var f := Split(e.description, '|');
    if f[0] !in childUdns then NoMatch
    else if |f| < 3 then Undefined
    else if f[2] == "false" then Failed
    else
      match DecodePairs(f, 3)
      case None => Undefined
      case Some(args) => if !actionFound && |args| > 0 then Undefined else Arguments(args)
  }

  /** What the control point side replies reaches the virtual device intact: a failure as a
      failure, and a success with exactly its output arguments. */
  lemma ResponseRoundTrip(peer: string, udn: string, action: string, succeeded: bool, outputs: seq<Arg>, childUdns: seq<string>)
    requires Plain(udn) && Plain(action) && PlainArgs(outputs) && udn in childUdns
    ensures ActionResponseReceived(Event("ACTION_RESPONSE", true, peer, ActionResponse(udn, action, succeeded, outputs)), childUdns, true)
         == if succeeded then Arguments(outputs) else Failed
  {
    ResponseFields(udn, action, succeeded, outputs);
    if succeeded {
      DecodeEncode([udn, action, "true"], outputs);
    }
  }

  // ---------------------------------------------------------------------------------
  // search_and_replace

  /** `search_and_replace` for a replacement shorter than the pattern: replace the first
      occurrence and search again from the start, until there is none. */
  function ReplaceAll(s: string, pattern: string, replacement: string): (r: string)
    requires |replacement| < |pattern|
    ensures !Contains(r, pattern)
    decreases |s|
  {
    match Find(s, pattern, 0)
    case None => s
    case Some(p) => ReplaceAll(s[..p] + replacement + s[p + |pattern|..], pattern, replacement)
  }

  /** Why the source's loop need not end: a replacement that holds the pattern leaves an
      occurrence behind, so the rescan from the start always finds one. */
  lemma ReplacementKeepsPattern(s: string, pattern: string, replacement: string, p: nat, k: nat)
    requires OccursAt(s, pattern, p) && OccursAt(replacement, pattern, k)
    ensures OccursAt(s[..p] + replacement + s[p + |pattern|..], pattern, p + k)
  {
    var t := s[..p] + replacement + s[p + |pattern|..];
    assert t[p..p + |replacement|] == replacement;
    assert t[p + k..p + k + |pattern|] == replacement[k..k + |pattern|];
  }

  /** `search_and_replace` on the caller's string. */
  method SearchAndReplace(str: string, pattern: string, replacement: string) returns (r: string)
    requires |replacement| < |pattern|
    ensures r == ReplaceAll(str, pattern, replacement)
  {
    r := str;
    var start := Find(r, pattern, 0);
    while start.Some?
      invariant start == Find(r, pattern, 0)
      invariant ReplaceAll(r, pattern, replacement) == ReplaceAll(str, pattern, replacement)
      decreases |r|
    {
      r := r[..start.value] + replacement + r[start.value + |pattern|..];
      start := Find(r, pattern, 0);
    }
  }

  // ---------------------------------------------------------------------------------
  // The server object

  /** What the `server` pointer designates: the virtual root device published on a port,
      or an object already deleted. */
  datatype RootDevice = Published(port: int) | Deleted

  class Server {
    /** The aggregate description of the virtual root device. */
    var totalDescription: string
    /** The port the virtual root device was last published on. */
    var startport: int
    /** The virtual root device behind `server`. */
    var root: RootDevice

    /** The constructor: the default description file's content (given), and the root
        device published on the first port, 15000 stepped once. */
    constructor (defaultDescription: string)
      ensures totalDescription == defaultDescription && startport == FirstPort
      ensures root == Published(FirstPort)
    {
      totalDescription := defaultDescription;
      var port := 15000;
      port := port + PortStep;
      startport := port;
      root := Published(startport);
    }

    /** `newEmbeddedDevice`: the root device is deleted first, on every call, whether or
        not the description is then used. `defined` is false where the run is undefined:
        the root was already deleted, so it is deleted twice, or the source throws; a
        throw leaves the description as it was. */
    method NewEmbeddedDevice(e: Event) returns (defined: bool)
      modifies this
      ensures startport == old(startport) && root == Deleted
      ensures defined == (old(root).Published? && EmbeddedDescription(old(totalDescription), e.description).Some?)
      ensures totalDescription == if EmbeddedDescription(old(totalDescription), e.description).Some?
                                  then EmbeddedDescription(old(totalDescription), e.description).value
                                  else old(totalDescription)
    {
      defined := root.Published?;
      root := Deleted;
      var deviceDesc := e.description;
      var pos := Find(deviceDesc, ScpdTag, 0);
      if pos.None? {
        return;
      }
      deviceDesc := FixScpdUrls(deviceDesc);
      var section := DeviceSection(deviceDesc);
      if section.None? {
        return false;
      }
      var at := InsertionPoint(totalDescription);
      if at > |totalDescription| {
        return false;
      }
      totalDescription := totalDescription[..at] + section.value + totalDescription[at..];
    }

    /** `startEmbeddedDevice`: when the description file can be written the virtual device
        is re-created on the next port (the step happens even if CyberLink then rejects the
        description, and `server` is then left as it was). */
    method StartEmbeddedDevice(fileWritten: bool, accepted: bool) returns (port: Option<int>)
      modifies this
      ensures totalDescription == old(totalDescription)
      ensures fileWritten ==> startport == old(startport) + PortStep && port == Some(startport)
      ensures !fileWritten ==> startport == old(startport) && port.None?
      ensures root == if fileWritten && accepted then Published(startport) else old(root)
    {
      port := None;
      if fileWritten {
        startport := startport + PortStep;
        port := Some(startport);
        if accepted {
          root := Published(startport);
        }
      }
    }
  }

  /** The hosting of one device as the orchestrator sends it, NEW then START, republishes
      the root device when the file is written and accepted. */
  method HostOnce(defaultDescription: string, e: Event) returns (s: Server, defined: bool)
    ensures defined == EmbeddedDescription(defaultDescription, e.description).Some?
    ensures s.root == Published(FirstPort + PortStep)
  {
    s := new Server(defaultDescription);
    defined := s.NewEmbeddedDevice(e);
    var _ := s.StartEmbeddedDevice(true, true);
  }

  /** A description file that cannot be written leaves `server` pointing at the deleted
      device, and the next NEW deletes it a second time. */
  method UnwrittenThenNew(defaultDescription: string, e1: Event, e2: Event) returns (s: Server, defined: bool)
    ensures s.root == Deleted && !defined
  {
    s := new Server(defaultDescription);
    var _ := s.NewEmbeddedDevice(e1);
    var _ := s.StartEmbeddedDevice(false, false);
    defined := s.NewEmbeddedDevice(e2);
  }

  /** What one pass of the address loop needs: the search resumed one character after
      the tag continues the specification's search after the tag. */
  lemma FixUrlStep(s: string, from: nat, p: nat)
    requires Find(s, ScpdTag, from) == Some(p)
    ensures FixScpd(s, from) == FixScpd(FixAt(s, p), p + 9)
    ensures Find(FixAt(s, p), ScpdTag, p + 1) == Find(FixAt(s, p), ScpdTag, p + 9)
  {
    var t := FixAt(s, p);
    assert OccursAt(t, ScpdTag, p) by { assert t[..p + 9][p..p + 9] == s[..p + 9][p..p + 9]; }
    NextTagSearch(t, p);
  }

  /** The address loop of `newEmbeddedDevice`. */
  method FixScpdUrls(desc: string) returns (r: string)
    ensures r == FixScpd(desc, 0)
  {
    r := desc;
    var pos := Find(r, ScpdTag, 0);
    ghost var from: nat := 0;
    while pos.Some?
      invariant pos == Find(r, ScpdTag, from)
      invariant FixScpd(r, from) == FixScpd(desc, 0)
      decreases |r| - from
    {
      var p := pos.value;
      FixUrlStep(r, from, p);
      r := FixAt(r, p);
      pos := Find(r, ScpdTag, p + 1);
      from := p + 9;
    }
  }
}
