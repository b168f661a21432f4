/** The string loop of `fixResourceURL`: in an action response relayed from a peer, the
    address of every `<res>` resource on the peer's media server is replaced by the
    address of the local relay that forwards to it. */
module ResourceUrls {
  import opened Wrappers
  import opened Strings

  /** What one round of the loop of `fixResourceURL` finds from a search position on: no
      `<res` left, an element whose address cannot be located, or the address `s[h..e]`
      that runs from `http://` up to the first `/` after the scheme. After each `<res`
      come the first `>`, then the first `http://`, then that `/`. `Broken`: a `>` or
      `http://` is missing (the search then continues from `npos`, which is not
      modelled) or no `/` follows (`substr(npos)` throws). */
  datatype Next = NoMore | Broken | Address(h: nat, e: nat)

  function NextAddress(s: string, from: nat): (n: Next)
    ensures n.Address? ==> from <= n.h && n.h + 7 <= n.e < |s|
  {
    match Find(s, "<res", from)
    case None => NoMore
    case Some(r) => AddressAfter(s, r)
  }

  /** What follows a `<res` at `r`. */
  function AddressAfter(s: string, r: nat): (n: Next)
    ensures n.Address? ==> r <= n.h && n.h + 7 <= n.e < |s|
  {
    match Find(s, ">", r)
    case None => Broken
    case Some(g) =>
      match Find(s, "http://", g)
      case None => Broken
      case Some(h) =>
        match Find(s, "/", h + 7)
        case None => Broken
        case Some(e) => Address(h, e)
  }

  /** The address `s[h..e]` replaced by `final`. */
  function Splice(s: string, h: nat, e: nat, final: string): (t: string)
    requires h <= e <= |s|
    ensures |t| == |s| - (e - h) + |final|
    ensures t[..h] == s[..h] && t[h..h + |final|] == final && t[h + |final|..] == s[e..]
  {
    s[..h] + final + s[e..]
  }

  /** Where the search for the next `<res` effectively resumes after a splice: at the old
      offset `e` of the `/`, or right after `final` when `final` is longer than what it
      replaced (it holds no `<` after its scheme, so nothing is found inside it). */
  function Resume(h: nat, e: nat, final: string): nat {
    if e > h + |final| then e else h + |final|
  }

  /** The loop of `fixResourceURL`, from one search position on: each located address
      becomes `final`, and the search goes on after it. */
  function RewriteRes(s: string, final: string, from: nat): Option<string>
    decreases |s| - from
  {
    match NextAddress(s, from)
    case NoMore => Some(s)
    case Broken => None
    case Address(h, e) => RewriteRes(Splice(s, h, e, final), final, Resume(h, e, final))
  }

  /** The relay address of a device as seen from here: `http://selfIP:localPort`. */
  function RelayAddress(selfIp: string, localPort: int): string {
    "http://" + selfIp + ":" + IntToString(localPort)
  }

  /** A relay address for an IP without `<` holds no `<` after its scheme. */
  lemma RelayAddressNoTag(selfIp: string, localPort: int)
    requires '<' !in selfIp
    ensures var final := RelayAddress(selfIp, localPort);
      forall i :: 7 <= i < |final| ==> final[i] != '<'
  {
    var final := RelayAddress(selfIp, localPort);
    IntToStringChars(localPort, '<');
    forall i | 7 <= i < |final|
      ensures final[i] != '<'
    {
      if i < 7 + |selfIp| {
        assert final[i] == selfIp[i - 7];
      } else if i > 7 + |selfIp| {
        assert final[i] == IntToString(localPort)[i - 8 - |selfIp|];
      }
    }
  }

  /** No `<res` from `from` on: nothing to rewrite. */
  lemma RewriteResNone(s: string, final: string, from: nat)
    requires forall k :: from <= k ==> !OccursAt(s, "<res", k)
    ensures RewriteRes(s, final, from) == Some(s)
  {
  }

  /** The first `<res` is at `r` when no `<` comes before it, and the first `>` after it
      is the first one past the tag name. */
  lemma ResTagAt(s: string, r: nat, g: nat)
    requires r + 4 <= g < |s| && s[r..r + 4] == "<res" && s[g] == '>'
    requires forall j :: 0 <= j < r ==> s[j] != '<'
    requires forall j :: r + 4 <= j < g ==> s[j] != '>'
    ensures Find(s, "<res", 0) == Some(r) && Find(s, ">", r) == Some(g)
  {
    forall k | 0 <= k < r
      ensures !OccursAt(s, "<res", k)
    {
      assert s[k..k + 4][0] == s[k];
    }
    FindAt(s, "<res", 0, r);
    forall j | r <= j < r + 4
      ensures s[j] != '>'
    {
      assert s[j] == s[r..r + 4][j - r];
    }
    FindCharAt(s, '>', r, g);
  }

  /** Right after the `>` at `g`, `http://` runs up to the first `/` at `e`. */
  lemma AddressAt(s: string, g: nat, e: nat)
    requires g + 8 <= e < |s| && s[g] == '>' && s[g + 1..g + 8] == "http://" && s[e] == '/'
    requires forall j :: g + 8 <= j < e ==> s[j] != '/'
    ensures Find(s, "http://", g) == Some(g + 1) && Find(s, "/", g + 8) == Some(e)
  {
    assert !OccursAt(s, "http://", g) by {
      assert s[g..g + 7][0] == s[g];
    }
    FindAt(s, "http://", g, g + 1);
    FindCharAt(s, '/', g + 8, e);
  }

  /** A match in the suffix from `base` is a match in the whole text, `base` further on. */
  lemma OccursSuffix(t: string, base: nat, p: string, x: nat)
    requires base <= |t|
    ensures OccursAt(t, p, base + x) <==> OccursAt(t[base..], p, x)
  {
    if base + x + |p| <= |t| {
      assert t[base + x..base + x + |p|] == t[base..][x..x + |p|];
    }
  }

  /** An address located from `from` with no `<res` in the text after it: that one
      address is replaced. */
  lemma RewriteResLast(s: string, final: string, from: nat, h: nat, e: nat)
    requires NextAddress(s, from) == Address(h, e)
    requires forall k :: 0 <= k ==> !OccursAt(s[e..], "<res", k)
    ensures RewriteRes(s, final, from) == Some(Splice(s, h, e, final))
  {
    var t := Splice(s, h, e, final);
    var base := h + |final|;
    forall k | Resume(h, e, final) <= k
      ensures !OccursAt(t, "<res", k)
    {
      OccursSuffix(t, base, "<res", k - base);
    }
    RewriteResNone(t, final, Resume(h, e, final));
  }

  /** One rewrite from the start of the text: the first `<res` at `r` (no `<` before it),
      the first `>` after it at `g`, `http://` right behind it and the first `/` after the
      scheme at `e`; with no `<res` left in what follows, the address `s[g + 1..e]` is
      replaced by `final` and nothing else changes. */
  lemma RewriteResStep(s: string, final: string, r: nat, g: nat, e: nat)
    requires r + 4 <= g && g + 8 <= e < |s|
    requires s[r..r + 4] == "<res" && s[g] == '>' && s[g + 1..g + 8] == "http://" && s[e] == '/'
    requires forall j :: 0 <= j < r ==> s[j] != '<'
    requires forall j :: r + 4 <= j < g ==> s[j] != '>'
    requires forall j :: g + 8 <= j < e ==> s[j] != '/'
    requires forall k :: 0 <= k ==> !OccursAt(s[e..], "<res", k)
    ensures RewriteRes(s, final, 0) == Some(s[..g + 1] + final + s[e..])
  {
    ResTagAt(s, r, g);
    AddressAt(s, g, e);
    assert NextAddress(s, 0) == Address(g + 1, e);
    RewriteResLast(s, final, 0, g + 1, e);
  }

  /** No `<res` in a path without `<` followed by `</res>`. */
  lemma NoResInPath(path: string)
    requires '<' !in path
    ensures forall k :: 0 <= k ==> !OccursAt(path + "</res>", "<res", k)
  {
    var tail := path + "</res>";
    forall k | 0 <= k
      ensures !OccursAt(tail, "<res", k)
    {
      if k + 4 <= |tail| {
        assert tail[k..k + 4][0] == tail[k] && tail[k..k + 4][1] == tail[k + 1];
        if k < |path| {
          assert tail[k] == path[k];
        } else {
          assert tail[k] == "</res>"[k - |path|] && tail[k + 1] == "</res>"[k + 1 - |path|];
        }
      }
    }
  }

  /** One resource element `<res ATTRS>http://HOST/PATH</res>` after text without `<`:
      the scheme and host become `final` and everything else, the path included, stays. */
  lemma RewriteResElement(pre: string, attrs: string, host: string, path: string, final: string)
    requires '<' !in pre && '>' !in attrs && '/' !in host
    requires |path| > 0 && path[0] == '/' && '<' !in path
    ensures RewriteRes(pre + "<res" + attrs + ">http://" + host + path + "</res>", final, 0)
         == Some(pre + "<res" + attrs + ">" + final + path + "</res>")
  {
    var tail := path + "</res>";
    var s := pre + "<res" + attrs + ">http://" + host + tail;
    var r := |pre|;
    var g := r + 4 + |attrs|;
    var h := g + 1;
    var e := h + 7 + |host|;
    assert s == pre + "<res" + attrs + ">http://" + host + path + "</res>";
    assert s[r..r + 4] == "<res";
    assert s[g] == '>';
    assert s[g + 1..g + 8] == "http://";
    assert s[e..] == tail;
    assert s[e] == '/';
    assert s[..h] == pre + "<res" + attrs + ">";
    forall j | 0 <= j < r
      ensures s[j] != '<'
    {
      assert s[j] == pre[j];
    }
    forall j | r + 4 <= j < g
      ensures s[j] != '>'
    {
      assert s[j] == attrs[j - r - 4];
    }
    forall j | h + 7 <= j < e
      ensures s[j] != '/'
    {
      assert s[j] == host[j - h - 7];
    }
    NoResInPath(path);
    RewriteResStep(s, final, r, g, e);
    assert s[..h] + final + s[e..] == pre + "<res" + attrs + ">" + final + path + "</res>";
  }

  /** After the splice, the search from the old offset of the `/` finds what a search
      from `Resume` finds: the part of `final` it may start in holds no `<`. */
  lemma NextSearch(next: string, final: string, h: nat, e: nat)
    requires h + 7 <= e && h + |final| <= |next| && next[h..h + |final|] == final
    requires forall i :: 7 <= i < |final| ==> final[i] != '<'
    ensures Find(next, "<res", e) == Find(next, "<res", Resume(h, e, final))
  {
    var base := h + |final|;
    if e < base {
      forall j | e <= j < base
        ensures !OccursAt(next, "<res", j)
      {
        assert next[j] == next[h..h + |final|][j - h];
        if j + 4 <= |next| {
          assert next[j..j + 4][0] == next[j];
        }
      }
      FindSkip(next, "<res", e, base);
    }
  }

  /** The loop of `fixResourceURL` as written: search `<res`, then `>`, `http://` and `/`,
      splice `final` in place of the address, and search the next `<res` from where the
      `/` was before the splice. It computes what `RewriteRes` describes. The precondition
      says that no `<` follows the scheme in `final`, which holds for a relay address
      whose IP has none. */
  method RewriteResourceUrls(s: string, final: string) returns (r: Option<string>)
    requires forall i :: 7 <= i < |final| ==> final[i] != '<'
    ensures r == RewriteRes(s, final, 0)
  {
    var cur := s;
    var start := Find(cur, "<res", 0);
    ghost var pos: nat := 0;
    while start.Some?
      invariant RewriteRes(s, final, 0) == RewriteRes(cur, final, pos)
      invariant start == Find(cur, "<res", pos)
      decreases |cur| - pos
    {
      var g := Find(cur, ">", start.value);
      if g.None? {
        return None;
      }
      var h := Find(cur, "http://", g.value);
      if h.None? {
        return None;
      }
      var e := Find(cur, "/", h.value + 7);
      if e.None? {
        return None;
      }
      assert NextAddress(cur, pos) == Address(h.value, e.value);
      cur := Splice(cur, h.value, e.value, final);
      start := Find(cur, "<res", e.value);
      NextSearch(cur, final, h.value, e.value);
      pos := Resume(h.value, e.value, final);
    }
    return Some(cur);
  }
}
