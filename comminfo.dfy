/** `communication_info`: how an hbox can be reached. The parts that ask the operating
    system (`init`, `findIpAddress`, `findHit`, `findRelayAddress`, `findLsi`, the system
    calls of `associateHip`) are not modelled; their outcome is a parameter. */
module CommInfos {
  import opened Wrappers
  import opened Strings

  datatype CommInfo = CommInfo(
    ipAddress: string,
    hipAddress: string,
    lsiAddress: string,
    hipRelayAddress: string,
    isBehindNAT: bool,
    isBehindFirewall: bool,
    isHipRelay: bool,
    isHip: bool,
    isTeredo: bool,
    capability: int)

  /** The flag `isHip` says exactly whether a HIP address is known. */
  predicate HipConsistent(ci: CommInfo) {
    ci.isHip <==> |ci.hipAddress| > 0
  }

  /** `communication_info()`: no addresses, every flag off, capability 0. */
  const Default := CommInfo("", "", "", "", false, false, false, false, false, 0)

  const IpKey := "ipAddress="
  const HipKey := "hipAddress="

  /** A key found at `k` is not followed by a `;` inside the key itself. */
  lemma SemicolonAfterKey(s: string, key: string, k: nat, q: nat)
    requires ';' !in key && OccursAt(s, key, k)
    requires k <= q && OccursAt(s, ";", q)
    ensures k + |key| <= q
  {
    assert s[q..q + 1][0] == s[q] == ';';
    forall i | k <= i < k + |key|
      ensures s[i] == key[i - k]
    {
      assert s[k..k + |key|][i - k] == s[i];
    }
  }

  /** One step of the parsing constructor: search `key` from `from` (`None` = `npos`), then
      the next `;`; the value is what lies between. The second component is where the
      search position is left: on the `;`, or `npos` when either search failed. */
  function Field(s: string, key: string, from: Option<nat>): (r: (string, Option<nat>))
    requires ';' !in key
    ensures r.1.Some? ==> r.1.value < |s| && s[r.1.value] == ';'
  {
    if from.None? then ("", None)
    else match Find(s, key, from.value)
      case None => ("", None)
      case Some(p1) =>
        match Find(s, ";", p1)
        case None => ("", None)
        case Some(p2) =>
          SemicolonAfterKey(s, key, p1, p2);
          assert s[p2..p2 + 1] == ";";
          (s[p1 + |key|..p2], Some(p2))
  }

  /** `communication_info(const string&)`: reads `ipAddress=` and then `hipAddress=` from
      the text. The remaining members are left unset by the source; they are taken as the
      defaults here. */
  function Parse(comm: string): (ci: CommInfo)
    ensures HipConsistent(ci)
    ensures ci.lsiAddress == "" && ci.hipRelayAddress == "" && !ci.isHipRelay && ci.capability == 0
  {
    var (ip, pos) := Field(comm, IpKey, Some(0));
    var (hip, _) := Field(comm, HipKey, pos);
    Default.(ipAddress := ip, hipAddress := hip, isHip := |hip| > 0)
  }

  /** The address advertised to peers: the relay's when behind a HIP relay. */
  function AdvertisedIp(ci: CommInfo): string {
    if ci.isHipRelay then ci.hipRelayAddress else ci.ipAddress
  }

  /** `toString`: `comminfo;ipAddress=X;hipAddress=H;`. */
  function ToString(ci: CommInfo): string {
    Text(AdvertisedIp(ci), ci.hipAddress)
  }

  /** The text `toString` writes for the advertised address `x` and the HIP address `h`. */
  function Text(x: string, h: string): string {
    "comminfo;" + IpKey + x + ";" + HipKey + h + ";"
  }

  /** `s` has the shape of the text `toString` writes for `x` and `h`. */
  predicate Shaped(s: string, x: string, h: string) {
    && |s| == 9 + 10 + |x| + 1 + 11 + |h| + 1
    && s[..9] == "comminfo;"
    && s[9..19] == IpKey
    && s[19..19 + |x|] == x
    && var p := 19 + |x|;
    && s[p] == ';'
    && s[p + 1..p + 12] == HipKey
    && s[p + 12..p + 12 + |h|] == h
    && s[p + 12 + |h|] == ';'
  }

  /** The text, split into its pieces, for the round-trip proof. */
  lemma TextShape(x: string, h: string)
    ensures Shaped(Text(x, h), x, h)
  {
  }

  /** `Field` on text of the shape `..key v;..`, with the key first found at `k`. */
  lemma FieldAt(s: string, key: string, from: nat, k: nat, v: string)
    requires ';' !in key && ';' !in v
    requires from <= k && k + |key| + |v| < |s|
    requires s[k..k + |key|] == key && s[k + |key|..k + |key| + |v|] == v
    requires s[k + |key| + |v|] == ';'
    requires forall j :: from <= j < k ==> !OccursAt(s, key, j)
    ensures Field(s, key, Some(from)) == (v, Some(k + |key| + |v|))
  {
    FindAt(s, key, from, k);
    var q := k + |key| + |v|;
    forall j | k <= j < q
      ensures !OccursAt(s, ";", j)
    {
      OccursAtChar(s, ';', j);
      if j < k + |key| {
        assert s[j] == s[k..k + |key|][j - k];
      } else {
        assert s[j] == s[k + |key|..q][j - k - |key|];
      }
    }
    OccursAtChar(s, ';', q);
    FindAt(s, ";", k, q);
  }

  /** `Field` for the IP key, searched from the start of the text. */
  lemma IpFieldAt(s: string, x: string, h: string)
    requires ';' !in x && Shaped(s, x, h)
    ensures Field(s, IpKey, Some(0)) == (x, Some(19 + |x|))
  {
    forall j | 0 <= j < 9
      ensures !OccursAt(s, IpKey, j)
    {
      assert s[j] == s[..9][j];
      if j + 1 < 9 {
        assert s[j + 1] == s[..9][j + 1];
      }
    }
    FieldAt(s, IpKey, 0, 9, x);
  }

  /** `Field` for the HIP key, searched from the `;` that ends the IP field. */
  lemma HipFieldAt(s: string, x: string, h: string)
    requires ';' !in h && Shaped(s, x, h)
    ensures Field(s, HipKey, Some(19 + |x|)) == (h, Some(19 + |x| + 12 + |h|))
  {
    var p := 19 + |x|;
    assert !OccursAt(s, HipKey, p) by {
      assert s[p..p + 11][0] == ';';
    }
    assert forall j :: p <= j < p + 1 ==> !OccursAt(s, HipKey, j);
    FieldAt(s, HipKey, p, p + 1, h);
  }

  /** Parsing a text of the `toString` shape recovers both addresses. */
  lemma ParseShaped(s: string, x: string, h: string)
    requires ';' !in x && ';' !in h && Shaped(s, x, h)
    ensures Parse(s).ipAddress == x && Parse(s).hipAddress == h
  {
    IpFieldAt(s, x, h);
    HipFieldAt(s, x, h);
  }

  /** Parsing what `ToString` wrote recovers the advertised address and the HIP address
      (and so `isHip`), provided neither contains a `;`. */
  lemma ParseToString(ci: CommInfo)
    requires ';' !in AdvertisedIp(ci) && ';' !in ci.hipAddress
    ensures Parse(ToString(ci)).ipAddress == AdvertisedIp(ci)
    ensures Parse(ToString(ci)).hipAddress == ci.hipAddress
    ensures Parse(ToString(ci)).isHip == (|ci.hipAddress| > 0)
  {
    TextShape(AdvertisedIp(ci), ci.hipAddress);
    ParseShaped(ToString(ci), AdvertisedIp(ci), ci.hipAddress);
  }

  /** The copy constructor: everything but the LSI address, with `isHip` recomputed. */
  function Copy(other: CommInfo): (ci: CommInfo)
    ensures HipConsistent(ci)
    ensures ci.lsiAddress == ""
    ensures ci.(lsiAddress := other.lsiAddress, isHip := other.isHip) == other
  {
    other.(lsiAddress := "", isHip := |other.hipAddress| > 0)
  }

  /** `operator=`: as the copy constructor, but the target keeps its own LSI address. */
  function Assign(target: CommInfo, other: CommInfo): (ci: CommInfo)
    ensures HipConsistent(ci)
    ensures ci.lsiAddress == target.lsiAddress
    ensures ci.(lsiAddress := other.lsiAddress, isHip := other.isHip) == other
  {
    other.(lsiAddress := target.lsiAddress, isHip := |other.hipAddress| > 0)
  }

  /** Assignment and copying agree on everything except the LSI address. */
  lemma AssignIsCopyKeepingLsi(target: CommInfo, other: CommInfo)
    ensures Assign(target, other) == Copy(other).(lsiAddress := target.lsiAddress)
  {
  }

  /** The setters touch one field each, so they can break `HipConsistent`, which only
      construction and assignment restore. */
  lemma SettersDoNotRestoreHip(ci: CommInfo, h: string)
    requires HipConsistent(ci) && |h| > 0 && |ci.hipAddress| == 0
    ensures !HipConsistent(ci.(hipAddress := h))
    ensures !HipConsistent(ci.(isHip := true))
    ensures HipConsistent(Assign(ci, ci.(hipAddress := h)))
  {
  }

  /** `associateHip(remote)`: without the remote's HIP and IP addresses it gives up before
      any system call. Otherwise the outcome of the OS-level association is the parameter
      `lsi`: `None` when it failed, `Some(a)` when it succeeded and `findLsi` answered `a`,
      which is then stored as the remote's LSI address. */
  function AssociateHip(remote: CommInfo, lsi: Option<string>): (r: (bool, CommInfo))
    ensures |remote.hipAddress| == 0 || |remote.ipAddress| == 0 ==> r == (false, remote)
    ensures r.0 <==> |remote.hipAddress| > 0 && |remote.ipAddress| > 0 && lsi.Some?
    ensures r.1 == if r.0 then remote.(lsiAddress := lsi.value) else remote
  {
    if |remote.hipAddress| == 0 || |remote.ipAddress| == 0 then (false, remote)
    else if lsi.None? then (false, remote)
    else (true, remote.(lsiAddress := lsi.value))
  }
}
