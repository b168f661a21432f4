/** The string primitives the hbox sources lean on: `std::string::find`, the `int pos =
    s.find("|")` split idiom, `boost::split` with a single-character separator, decimal
    rendering (`boost::lexical_cast<string>`) and C `atoi`. */
module Strings {
  import opened Wrappers

  /** `p` occurs in `s` starting at index `k`. */
  predicate OccursAt(s: string, p: string, k: int) {
    0 <= k && k + |p| <= |s| && s[k..k + |p|] == p
  }

  /** `p` occurs somewhere in `s`. */
  predicate Contains(s: string, p: string) {
    exists k :: 0 <= k <= |s| && OccursAt(s, p, k)
  }

  /** `std::string::find(p, from)`: the first occurrence of `p` at or after `from`;
      `None` plays the part of `npos` (also when `from` lies past the end). */
  function Find(s: string, p: string, from: nat): (r: Option<nat>)
    ensures r.Some? ==> from <= r.value && OccursAt(s, p, r.value)
    ensures r.Some? ==> forall k :: from <= k < r.value ==> !OccursAt(s, p, k)
    ensures r.None? ==> forall k :: from <= k ==> !OccursAt(s, p, k)
    decreases |s| - from
  {
    if from + |p| > |s| then None
    else if s[from..from + |p|] == p then Some(from)
    else Find(s, p, from + 1)
  }

  /** A search that is known to hit position `k` first returns exactly `k`. */
  lemma FindAt(s: string, p: string, from: nat, k: nat)
    requires from <= k && OccursAt(s, p, k)
    requires forall j :: from <= j < k ==> !OccursAt(s, p, j)
    ensures Find(s, p, from) == Some(k)
  {
  }

  /** Positions known not to start a match can be skipped. */
  lemma FindSkip(s: string, p: string, from: nat, to: nat)
    requires from <= to
    requires forall j :: from <= j < to ==> !OccursAt(s, p, j)
    ensures Find(s, p, from) == Find(s, p, to)
  {
    match Find(s, p, to)
    case Some(x) =>
      FindAt(s, p, from, x);
    case None =>
  }

  lemma OccursAtChar(s: string, c: char, k: int)
    ensures OccursAt(s, [c], k) <==> 0 <= k < |s| && s[k] == c
  {
    if 0 <= k < |s| {
      assert s[k..k + 1] == [s[k]];
    }
  }

  /** A search for one character stops at its first occurrence. */
  lemma FindCharAt(s: string, c: char, from: nat, k: nat)
    requires from <= k < |s| && s[k] == c
    requires forall j :: from <= j < k ==> s[j] != c
    ensures Find(s, [c], from) == Some(k)
  {
    OccursAtChar(s, c, k);
    forall j | from <= j < k
      ensures !OccursAt(s, [c], j)
    {
      OccursAtChar(s, c, j);
    }
    FindAt(s, [c], from, k);
  }

  /** The first index of `c` in `s`. */
  function IndexOf(s: string, c: char): (k: nat)
    requires c in s
    ensures k < |s| && s[k] == c && c !in s[..k]
  {
    if s[0] == c then 0 else 1 + IndexOf(s[1..], c)
  }

  /** The first `c` sits at `k` when nothing before `k` is a `c`. */
  lemma {:induction false} IndexOfIs(s: string, c: char, k: nat)
    requires k < |s| && s[k] == c
    requires forall i :: 0 <= i < k ==> s[i] != c
    ensures IndexOf(s, c) == k
  {
    if k > 0 {
      IndexOfIs(s[1..], c, k - 1);
    }
  }

  /** The source's idiom `int pos = s.find(sep); s.substr(0, pos); s.substr(pos + 1)`.
      Without a separator `pos` is -1, `substr(0, -1)` takes everything and
      `substr(0)` does too, so both halves are the whole string. */
  function SplitFirst(s: string, sep: char): (r: (string, string))
    ensures sep in s ==> r.0 + [sep] + r.1 == s && sep !in r.0
    ensures sep !in s ==> r == (s, s)
  {
    if sep in s then
      var p := IndexOf(s, sep);
      assert s == s[..p] + [sep] + s[p + 1..];
      (s[..p], s[p + 1..])
    else (s, s)
  }

  /** Splitting `a + sep + b` at the first separator gives back `a` and `b` when `a` has none. */
  lemma SplitFirstOf(a: string, sep: char, b: string)
    requires sep !in a
    ensures SplitFirst(a + [sep] + b, sep) == (a, b)
  {
    var s := a + [sep] + b;
    IndexOfIs(s, sep, |a|);
    assert s[..|a|] == a && s[|a| + 1..] == b;
  }

  /** The three-field idiom `pos1 = find(sep); pos2 = find(sep, pos1 + 1)` followed by
      `substr(0, pos1)`, `substr(pos1 + 1, pos2 - pos1 - 1)` and `substr(pos2 + 1)`.
      A missing separator is -1 again: with none at all every field is the whole string;
      with only one, the middle field runs to the end and the last is the whole string. */
  function ThreeFields(s: string, sep: char): (r: (string, string, string))
    ensures sep !in s ==> r == (s, s, s)
  {
    if sep !in s then (s, s, s)
    else
      var (a, rest) := SplitFirst(s, sep);
      if sep !in rest then (a, rest, s)
      else
        var (b, c) := SplitFirst(rest, sep);
        (a, b, c)
  }

  /** Fields without the separator come back out of `a|b|c`; `c` may hold more separators. */
  lemma ThreeFieldsOf(a: string, b: string, c: string, sep: char)
    requires sep !in a && sep !in b
    ensures ThreeFields(a + [sep] + b + [sep] + c, sep) == (a, b, c)
  {
    var s := a + [sep] + b + [sep] + c;
    assert s == a + [sep] + (b + [sep] + c);
    SplitFirstOf(a, sep, b + [sep] + c);
    assert sep in b + [sep] + c by {
      assert (b + [sep] + c)[|b|] == sep;
    }
    SplitFirstOf(b, sep, c);
  }

  /** `boost::split(parts, s, boost::is_any_of(sep))`: the pieces between separators,
      empty ones included; there is always at least one. */
  function Split(s: string, sep: char): (parts: seq<string>)
    ensures |parts| >= 1
    ensures forall i :: 0 <= i < |parts| ==> sep !in parts[i]
  {
    if |s| == 0 then [""]
    else
      var rest := Split(s[1..], sep);
      if s[0] == sep then [""] + rest else [[s[0]] + rest[0]] + rest[1..]
  }

  /** The inverse of `Split`: the pieces glued back together with the separator. */
  function Join(parts: seq<string>, sep: char): string
    requires |parts| >= 1
  {
    if |parts| == 1 then parts[0] else parts[0] + [sep] + Join(parts[1..], sep)
  }

  /** Splitting loses nothing: joining the pieces rebuilds the string. */
  lemma {:induction false} JoinSplit(s: string, sep: char)
    ensures Join(Split(s, sep), sep) == s
  {
    if |s| > 0 {
      var rest := Split(s[1..], sep);
      JoinSplit(s[1..], sep);
      if s[0] == sep {
        assert Split(s, sep) == [""] + rest;
        assert Join([""] + rest, sep) == "" + [sep] + Join(rest, sep);
      } else if |rest| == 1 {
        assert Split(s, sep) == [[s[0]] + rest[0]];
      } else {
        var parts := Split(s, sep);
        assert parts == [[s[0]] + rest[0]] + rest[1..];
        assert parts[1..] == rest[1..];
        assert Join(rest, sep) == rest[0] + [sep] + Join(rest[1..], sep);
        assert Join(parts, sep) == [s[0]] + rest[0] + [sep] + Join(rest[1..], sep);
        assert s == [s[0]] + s[1..];
      }
    }
  }

  /** A separator after a separator-free prefix ends the first piece. */
  lemma {:induction false} SplitAfterPiece(a: string, sep: char, b: string)
    requires sep !in a
    ensures Split(a + [sep] + b, sep) == [a] + Split(b, sep)
  {
    var s := a + [sep] + b;
    if |a| == 0 {
      assert s[1..] == b;
    } else {
      assert s[1..] == a[1..] + [sep] + b;
      SplitAfterPiece(a[1..], sep, b);
      assert a == [a[0]] + a[1..];
    }
  }

  lemma {:induction false} SplitPiece(a: string, sep: char)
    requires sep !in a
    ensures Split(a, sep) == [a]
  {
    if |a| > 0 {
      SplitPiece(a[1..], sep);
      assert a == [a[0]] + a[1..];
    }
  }

  /** Joining separator-free pieces and splitting again gives the pieces back. */
  lemma {:induction false} SplitJoin(parts: seq<string>, sep: char)
    requires |parts| >= 1
    requires forall i :: 0 <= i < |parts| ==> sep !in parts[i]
    ensures Split(Join(parts, sep), sep) == parts
  {
    if |parts| == 1 {
      SplitPiece(parts[0], sep);
    } else {
      SplitJoin(parts[1..], sep);
      SplitAfterPiece(parts[0], sep, Join(parts[1..], sep));
      assert parts == [parts[0]] + parts[1..];
    }
  }

  predicate IsDigit(c: char) {
    '0' <= c <= '9'
  }

  predicate AllDigits(s: string) {
    forall i :: 0 <= i < |s| ==> IsDigit(s[i])
  }

  function DigitChar(d: nat): (c: char)
    requires d < 10
    ensures IsDigit(c) && c as int - '0' as int == d
  {
    (d + '0' as int) as char
  }

  /** Decimal rendering of a natural number, as `lexical_cast<string>` prints it. */
  function NatToString(n: nat): (s: string)
    ensures |s| >= 1 && AllDigits(s)
  {
    if n < 10 then [DigitChar(n)] else NatToString(n / 10) + [DigitChar(n % 10)]
  }

  /** Decimal rendering of an `int`, with a leading minus sign for negative values. */
  function IntToString(n: int): string {
    if n < 0 then "-" + NatToString(-n) else NatToString(n)
  }

  /** A rendered number holds digits and at most a minus sign. */
  lemma IntToStringChars(n: int, c: char)
    requires !IsDigit(c) && c != '-'
    ensures c !in IntToString(n)
  {
    var m: nat := if n < 0 then -n else n;
    assert c !in NatToString(m) by {
      var s := NatToString(m);
      forall i | 0 <= i < |s| ensures s[i] != c {
        assert IsDigit(s[i]);
      }
    }
  }

  /** The value of a string of decimal digits. */
  function DigitsValue(ds: string): nat
    requires AllDigits(ds)
  {
    if |ds| == 0 then 0 else DigitsValue(ds[..|ds| - 1]) * 10 + (ds[|ds| - 1] as int - '0' as int)
  }

  /** The longest prefix of decimal digits. */
  function LeadingDigits(s: string): (ds: string)
    ensures AllDigits(ds) && ds <= s
    ensures |ds| < |s| ==> !IsDigit(s[|ds|])
  {
    if |s| == 0 || !IsDigit(s[0]) then "" else [s[0]] + LeadingDigits(s[1..])
  }

  predicate IsSpace(c: char) {
    c == ' ' || c == '\t' || c == '\n' || c == '\r' || c == '\U{000B}' || c == '\U{000C}'
  }

  function SkipSpace(s: string): string {
    if |s| > 0 && IsSpace(s[0]) then SkipSpace(s[1..]) else s
  }

  /** C `atoi`: leading white space, an optional sign, then as many digits as there are;
      no digits give 0. The C result overflows past 32 bits; here it is unbounded. */
  function Atoi(s: string): int {
    var t := SkipSpace(s);
    if |t| > 0 && t[0] == '-' then 0 - DigitsValue(LeadingDigits(t[1..])) as int
    else if |t| > 0 && t[0] == '+' then DigitsValue(LeadingDigits(t[1..]))
    else DigitsValue(LeadingDigits(t))
  }

  lemma {:induction false} LeadingDigitsOfDigits(s: string)
    requires AllDigits(s)
    ensures LeadingDigits(s) == s
  {
    if |s| > 0 {
      LeadingDigitsOfDigits(s[1..]);
    }
  }

  lemma {:induction false} DigitsValueOfNat(n: nat)
    ensures DigitsValue(NatToString(n)) == n
  {
    if n >= 10 {
      DigitsValueOfNat(n / 10);
      var s := NatToString(n);
      assert s[..|s| - 1] == NatToString(n / 10);
    }
  }

  /** Rendering a number and reading it back with `atoi` gives the number. */
  lemma AtoiIntToString(n: int)
    ensures Atoi(IntToString(n)) == n
  {
    var m: nat := if n < 0 then -n else n;
    var s := NatToString(m);
    LeadingDigitsOfDigits(s);
    DigitsValueOfNat(m);
    if n < 0 {
      assert IntToString(n) == "-" + s;
      assert ("-" + s)[1..] == s;
    }
  }
}
