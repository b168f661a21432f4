/** `xml_description_file::changeUDN`: the root device description is rewritten so that
    the content of every `<UDN>` element becomes `uuid:` followed by the hbox's Jabber
    username. The file is a parameter: whether it opens, its content, and whether it
    can be written back. */
module DescriptionFile {
  import opened Wrappers
  import opened Strings

  const UdnTag := "<UDN>"

  /** A `<UDN>` tag starts at `i`, compared character by character as the source does. */
  predicate TagAt(t: string, i: int) {
    0 <= i && i + 5 <= |t| && t[i] == '<' && t[i + 1] == 'U' && t[i + 2] == 'D' && t[i + 3] == 'N'
    && t[i + 4] == '>'
  }

  /** The text produced so far ends with a `<UDN>` tag: the test the loop makes on
      `temp` before each character. */
  predicate EndsWithTag(t: string) {
    |t| > 4 && TagAt(t, |t| - 5)
  }

  /** The character test is the tag. */
  lemma TagAtOccurs(t: string, i: int)
    requires TagAt(t, i)
    ensures OccursAt(t, UdnTag, i) && Contains(t, UdnTag)
  {
    assert t[i..i + 5] == UdnTag;
    assert OccursAt(t, UdnTag, i);
  }

  /** The first `<` at or after `from`, or the end of the text. */
  function NextLt(t: string, from: nat): (r: nat)
    requires from <= |t|
    ensures from <= r <= |t| && (r < |t| ==> t[r] == '<')
    decreases |t| - from
  {
    if from == |t| || t[from] == '<' then from else NextLt(t, from + 1)
  }

  /** No `<` is skipped. */
  lemma {:induction false} NextLtIsFirst(t: string, from: nat)
    requires from <= |t|
    ensures forall i :: from <= i < NextLt(t, from) ==> t[i] != '<'
    decreases |t| - from
  {
    if from < |t| && t[from] != '<' {
      NextLtIsFirst(t, from + 1);
    }
  }

  /** The first `<UDN>` tag at or after `from`, or the end of the text. */
  function NextTag(t: string, from: nat): (r: nat)
    requires from <= |t|
    ensures from <= r <= |t| && (r < |t| ==> TagAt(t, r))
    decreases |t| - from
  {
    if from == |t| || TagAt(t, from) then from else NextTag(t, from + 1)
  }

  /** No tag is skipped: a tag at `i` bounds the search from before it. */
  lemma {:induction false} NextTagIsFirst(t: string, from: nat, i: nat)
    requires from <= i && TagAt(t, i)
    ensures NextTag(t, from) <= i
    decreases i - from
  {
    if !TagAt(t, from) {
      NextTagIsFirst(t, from + 1, i);
    }
  }

  /** The username without its resource part: everything before the first `/`. */
  function BareUser(username: string): (u: string)
    ensures '/' !in u
    ensures '/' !in username ==> u == username
    ensures '/' in username ==> exists rest :: username == u + "/" + rest
  {
    var (before, after) := SplitFirst(username, '/');
    if '/' in username then
      assert username == before + "/" + after;
      before
    else username
  }

  // ---------------------------------------------------------------------------------
  // The loop as written

  /** The character loop as the source writes it, from input position `k` with `out`
      produced so far. After a `<UDN>` tag the character already in hand is dropped
      without being looked at and the search for the `<` that ends the content starts
      at the next one: for an empty element that `<` is the one of `</UDN>`, and it is
      lost together with everything up to the following `<`. */
  function ChangeUdnsAsWritten(s: string, id: string, k: nat, out: string): string
    decreases |s| - k
  {
    if k >= |s| then out
    else if !EndsWithTag(out) then ChangeUdnsAsWritten(s, id, k + 1, out + [s[k]])
    else
      var m := NextLt(s, k + 1);
      if m == |s| then out + id
      else ChangeUdnsAsWritten(s, id, m, out + id)
  }

  /** An empty `<UDN></UDN>` loses its closing tag and whatever follows it. */
  lemma EmptyUdnLosesClosingTag(s: string, user: string)
    requires s == "<UDN></UDN>"
    ensures ChangeUdnsAsWritten(s, Uuid(user), 0, "") == "<UDN>uuid:" + user
  {
    assert s[0] == '<' && s[1] == 'U' && s[2] == 'D' && s[3] == 'N' && s[4] == '>';
    assert s[6] == '/' && s[7] == 'U' && s[8] == 'D' && s[9] == 'N' && s[10] == '>';
    assert "" + [s[0]] == "<" && "<" + [s[1]] == "<U" && "<U" + [s[2]] == "<UD";
    assert "<UD" + [s[3]] == "<UDN" && "<UDN" + [s[4]] == "<UDN>";
    assert NextLt(s, 10) == 11;
    assert NextLt(s, 8) == NextLt(s, 9) == 11;
    assert NextLt(s, 6) == NextLt(s, 7) == 11;
    calc {
      ChangeUdnsAsWritten(s, Uuid(user), 0, "");
      ChangeUdnsAsWritten(s, Uuid(user), 1, "<");
      ChangeUdnsAsWritten(s, Uuid(user), 2, "<U");
      ChangeUdnsAsWritten(s, Uuid(user), 3, "<UD");
      ChangeUdnsAsWritten(s, Uuid(user), 4, "<UDN");
      ChangeUdnsAsWritten(s, Uuid(user), 5, "<UDN>");
      "<UDN>uuid:" + user;
    }
  }

  /** The intended loop keeps the closing tag of an empty element. */
  lemma EmptyUdnKeepsClosingTag(s: string, user: string)
    requires s == "<UDN></UDN>"
    ensures ChangeUdns(s, user) == "<UDN>uuid:" + user + "</UDN>"
  {
    var id := Uuid(user);
    ChangeUdnsReplaces(s, user);
    assert TagAt(s, 0) && NextTag(s, 0) == 0;
    assert NextLt(s, 5) == 5;
    assert s[6] == '/' && s[7] == 'U';
    assert NextTag(s, 10) == NextTag(s, 11) == 11;
    assert NextTag(s, 8) == NextTag(s, 9) == 11;
    assert NextTag(s, 6) == NextTag(s, 7) == 11;
    assert NextTag(s, 5) == 11;
    assert ReplaceFrom(s, id, 5) == s[5..] == "</UDN>";
    assert ReplaceFrom(s, id, 0) == s[0..5] + id + ReplaceFrom(s, id, 5);
    assert s[0..5] == "<UDN>";
  }

  // ---------------------------------------------------------------------------------
  // The loop as intended

  /** The character loop with the `<` search starting at the character in hand, so that
      an empty element keeps its closing tag. The `<` that ends the content is copied at
      once, as the source's next pass copies it (unless `id` itself ends in `<UDN>`,
      where starting the search at the character in hand would loop for ever). */
  function ChangeUdnsFrom(s: string, id: string, k: nat, out: string): string
    decreases |s| - k
  {
    if k >= |s| then out
    else if !EndsWithTag(out) then ChangeUdnsFrom(s, id, k + 1, out + [s[k]])
    else
      var m := NextLt(s, k);
      if m == |s| then out + id
      else ChangeUdnsFrom(s, id, m + 1, out + id + "<")
  }

  /** What the content of each `<UDN>` becomes. */
  function Uuid(user: string): string {
    "uuid:" + user
  }

  /** The rewritten description. */
  function ChangeUdns(s: string, user: string): string {
    ChangeUdnsFrom(s, Uuid(user), 0, "")
  }

  /** The rewriting stated element by element, from a position `c` at the beginning of
      the text or at a `<`: the text up to and including the next `<UDN>` is kept; the
      content after it, up to the next `<`, becomes `id`, and the rest is rewritten from
      that `<` on; without a `<` the rest of the text is dropped. A text without a
      further tag, or whose next tag ends it, is kept as it is. */
  function ReplaceFrom(s: string, id: string, c: nat): string
    requires c <= |s|
    decreases |s| - c
  {
    var j := NextTag(s, c);
    if j + 5 >= |s| then s[c..]
    else s[c..j + 5] + id + AfterContent(s, id, j + 5)
  }

  /** What follows the content of the tag that ends at `k`: nothing when no `<` ends the
      content, otherwise the rewriting from that `<` on. */
  function AfterContent(s: string, id: string, k: nat): string
    requires 0 < k <= |s|
    decreases |s| - k + 1
  {
    var m := NextLt(s, k);
    if m == |s| then [] else ReplaceFrom(s, id, m)
  }

  /** The whole text rewritten. */
  function ReplaceUdns(s: string, id: string): string {
    ReplaceFrom(s, id, 0)
  }

  /** What is produced since the last `<` copied (or since the start) is the input's own
      text, so the tag test on the output is the same test on the input. */
  lemma WindowAgrees(s: string, c: nat, k: nat, a: string)
    requires c <= k <= |s|
    requires (c == 0 && a == []) || (c < k && s[c] == '<')
    ensures EndsWithTag(a + s[c..k]) <==> c + 5 <= k && TagAt(s, k - 5)
  {
    var out := a + s[c..k];
    if c + 5 <= k {
      forall i | |out| - 5 <= i < |out|
        ensures out[i] == s[i - |out| + k]
      {
      }
    } else if c < k && |out| >= 5 {
      assert out[|out| - (k - c)] == s[c];
    }
  }

  /** No `<UDN>` from `c` on ends before `k`. */
  predicate NoTagBefore(s: string, c: nat, k: nat)
    requires c <= |s|
  {
    NextTag(s, c) + 5 >= k
  }

  /** The character loop and the element-wise statement agree on every text, whatever
      has been produced before the last `<` copied. */
  lemma {:induction false} FromAgrees(s: string, id: string, c: nat, k: nat, a: string)
    requires c <= k <= |s|
    requires (c == 0 && a == []) || (c < k && s[c] == '<')
    requires NoTagBefore(s, c, k)
    ensures ChangeUdnsFrom(s, id, k, a + s[c..k]) == a + ReplaceFrom(s, id, c)
    decreases |s| - k, 2
  {
    if k >= |s| {
      assert s[c..k] == s[c..];
    } else if !EndsWithTag(a + s[c..k]) {
      FromAgreesCopy(s, id, c, k, a);
    } else {
      FromAgreesAtTag(s, id, c, k, a);
    }
  }

  /** The case of `FromAgrees` where the character in hand is copied. */
  lemma {:induction false} FromAgreesCopy(s: string, id: string, c: nat, k: nat, a: string)
    requires c <= k < |s|
    requires (c == 0 && a == []) || (c < k && s[c] == '<')
    requires NoTagBefore(s, c, k) && !EndsWithTag(a + s[c..k])
    ensures ChangeUdnsFrom(s, id, k, a + s[c..k]) == a + ReplaceFrom(s, id, c)
    decreases |s| - k, 1
  {
    var out := a + s[c..k];
    assert NoTagBefore(s, c, k + 1) by {
      WindowAgrees(s, c, k, a);
    }
    assert out + [s[k]] == a + s[c..k + 1] by {
      assert s[c..k + 1] == s[c..k] + [s[k]];
    }
    FromAgrees(s, id, c, k + 1, a);
  }

  /** The case of `FromAgrees` where a tag has just been produced. */
  lemma {:induction false} FromAgreesAtTag(s: string, id: string, c: nat, k: nat, a: string)
    requires c <= k < |s|
    requires (c == 0 && a == []) || (c < k && s[c] == '<')
    requires NoTagBefore(s, c, k) && EndsWithTag(a + s[c..k])
    ensures ChangeUdnsFrom(s, id, k, a + s[c..k]) == a + ReplaceFrom(s, id, c)
    decreases |s| - k, 1
  {
    var out := a + s[c..k];
    assert c + 5 <= k && TagAt(s, k - 5) by {
      WindowAgrees(s, c, k, a);
    }
    var rest := AfterContent(s, id, k);
    calc {
      ChangeUdnsFrom(s, id, k, out);
      { AgreesAfterContent(s, id, k, out); }
      out + id + rest;
      a + (s[c..k] + id + rest);
      { ReplaceFromAtTag(s, id, c, k); }
      a + ReplaceFrom(s, id, c);
    }
  }

  /** The element-wise statement at the first tag from `c`, which ends at `k`. */
  lemma ReplaceFromAtTag(s: string, id: string, c: nat, k: nat)
    requires c + 5 <= k < |s|
    requires NoTagBefore(s, c, k) && TagAt(s, k - 5)
    ensures ReplaceFrom(s, id, c) == s[c..k] + id + AfterContent(s, id, k)
  {
    NextTagIsFirst(s, c, k - 5);
  }

  /** After a tag, the loop writes the `id` and goes on from the `<` that ends the
      content. */
  lemma {:induction false} AgreesAfterContent(s: string, id: string, k: nat, out: string)
    requires 0 < k < |s| && EndsWithTag(out)
    ensures ChangeUdnsFrom(s, id, k, out) == out + id + AfterContent(s, id, k)
    decreases |s| - k, 0
  {
    var a' := out + id;
    var m := NextLt(s, k);
    if m < |s| {
      assert s[m..m + 1] == "<";
      assert NoTagBefore(s, m, m + 1);
      FromAgrees(s, id, m, m + 1, a');
    } else {
      assert a' + [] == a';
    }
  }

  /** The loop does what the description promises: every `<UDN>` content replaced by
      `uuid:` and the username, everything else copied in order. */
  lemma ChangeUdnsReplaces(s: string, user: string)
    ensures ChangeUdns(s, user) == ReplaceUdns(s, Uuid(user))
  {
    FromAgrees(s, Uuid(user), 0, 0, []);
    assert s[0..] == s;
  }

  /** A description without a `<UDN>` tag comes back unchanged. */
  lemma ChangeUdnsWithoutTag(s: string, user: string)
    requires !Contains(s, UdnTag)
    ensures ChangeUdns(s, user) == s
  {
    ChangeUdnsReplaces(s, user);
    var j := NextTag(s, 0);
    if j < |s| {
      TagAtOccurs(s, j);
    }
  }

  // ---------------------------------------------------------------------------------
  // The method

  /** `changeUDN`: `false` when the file cannot be opened (the username is then left as
      it was) or cannot be written back; otherwise the username is cut at its first `/`
      and the rewritten content is what is written. */
  method ChangeUdn(readable: bool, content: string, writable: bool, username: string)
    returns (ok: bool, user: string, written: Option<string>)
    ensures !readable ==> !ok && user == username && written.None?
    ensures readable ==> user == BareUser(username)
    ensures readable ==> ok == writable
    ensures ok ==> written == Some(ChangeUdns(content, user))
    ensures !ok ==> written.None?
  {
    user := username;
    written := None;
    if !readable {
      return false, user, written;
    }
    if '/' in user {
      var found := IndexOf(user, '/');
      user := user[..found];
    }
    var temp := "";
    var k := 0;
    while k < |content|
      invariant 0 <= k <= |content|
      invariant ChangeUdnsFrom(content, Uuid(user), k, temp) == ChangeUdns(content, user)
      decreases |content| - k
    {
      if !EndsWithTag(temp) {
        temp := temp + [content[k]];
        k := k + 1;
      } else {
        temp := temp + Uuid(user);
        k := SkipContent(content, k);
        if k < |content| {
          temp := temp + [content[k]];
          k := k + 1;
        }
      }
    }
    if !writable {
      return false, user, None;
    }
    return true, user, Some(temp);
  }

  /** The inner loop: from the character in hand, the position of the next `<`, or the
      end of the text. */
  method SkipContent(content: string, from: nat) returns (k: nat)
    requires from <= |content|
    ensures k == NextLt(content, from)
  {
    k := from;
    while k < |content| && content[k] != '<'
      invariant from <= k <= |content|
      invariant NextLt(content, k) == NextLt(content, from)
      decreases |content| - k
    {
      k := k + 1;
    }
  }
}
