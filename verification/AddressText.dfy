/** IPv6 addresses as text: the two hexadecimal forms of section 2.2 of RFC 4291, and the one form
    the status page writes. An address is eight groups of sixteen bits. */
module AddressText {
  import opened Wrappers

  type Group = n: nat | n < 0x10000
  type Groups = seq<Group>

  function HexChar(d: nat): (c: char)
    requires d < 16
    ensures c != ':' && HexValue(c) == Some(d)
  {
    if d < 10 then '0' + d as char else 'a' + (d - 10) as char
  }

  function HexValue(c: char): (r: Option<nat>)
    ensures r.Some? ==> r.value < 16
  {
    if '0' <= c <= '9' then Some((c - '0') as nat)
    else if 'a' <= c <= 'f' then Some((c - 'a') as nat + 10)
    else if 'A' <= c <= 'F' then Some((c - 'A') as nat + 10)
    else None
  }

  /** `%x` */
  function Hex(v: nat): (s: string)
    ensures s != [] && ':' !in s
  {
    if v < 16 then [HexChar(v)] else Hex(v / 16) + [HexChar(v % 16)]
  }

  function HexNumber(s: string): Option<nat> {
    if s == [] then Some(0)
    else
      match (HexNumber(s[..|s| - 1]), HexValue(s[|s| - 1]))
      case (Some(hi), Some(lo)) => Some(16 * hi + lo)
      case _ => None
  }

  /** One group: one to four hexadecimal digits. */
  function ParseGroup(s: string): Option<nat> {
    if 1 <= |s| <= 4 then HexNumber(s) else None
  }

  function ColonAt(t: string): (k: nat)
    ensures k <= |t| && ':' !in t[..k] && (k < |t| ==> t[k] == ':')
  {
    if t == [] || t[0] == ':' then 0
    else
      var k := ColonAt(t[1..]);
      assert t[..k + 1] == [t[0]] + t[1..][..k];
      k + 1
  }

  /** Groups separated by single colons. */
  function ParseGroups(t: string): Option<seq<nat>>
    decreases |t|
  {
    var k := ColonAt(t);
    match ParseGroup(t[..k])
    case None => None
    case Some(g) =>
      if k == |t| then Some([g])
      else
        match ParseGroups(t[k + 1..])
        case None => None
        case Some(gs) => Some([g] + gs)
  }

  predicate GapAt(t: string, i: int) { 0 <= i < |t| - 1 && t[i] == ':' && t[i + 1] == ':' }

  /** The first "::" */
  function FindGap(t: string): (r: Option<nat>)
    ensures r.Some? ==> GapAt(t, r.value) && forall j | 0 <= j < r.value :: !GapAt(t, j)
    ensures r.None? ==> forall j :: !GapAt(t, j)
  {
    if |t| < 2 then None
    else if GapAt(t, 0) then Some(0)
    else
      assert forall j | 0 < j :: GapAt(t, j) == GapAt(t[1..], j - 1);
      match FindGap(t[1..])
      case None => None
      case Some(i) => Some(i + 1)
  }

  function ParseSide(t: string): Option<seq<nat>> { if t == [] then Some([]) else ParseGroups(t) }

  function Zeros(n: nat): seq<nat> { seq(n, _ => 0) }

  /** Eight groups, or fewer around one "::" that stands for one or more groups of zeros. */
  function Parse(t: string): Option<seq<nat>> {
    match FindGap(t)
    case None =>
      (match ParseGroups(t)
       case Some(gs) => if |gs| == 8 then Some(gs) else None
       case None => None)
    case Some(i) => Fill(ParseSide(t[..i]), ParseSide(t[i + 2..]))
  }

  /** The zeros that "::" stands for: at least one group. */
  function Fill(left: Option<seq<nat>>, right: Option<seq<nat>>): Option<seq<nat>> {
    match (left, right)
    case (Some(l), Some(r)) => if |l| + |r| < 8 then Some(l + Zeros(8 - |l| - |r|) + r) else None
    case _ => None
  }

  /** Groups in `%x`, colons between them. */
  function Join(gs: Groups): string {
    if gs == [] then ""
    else if |gs| == 1 then Hex(gs[0])
    else Join(gs[..|gs| - 1]) + ":" + Hex(gs[|gs| - 1])
  }

  /** Where the first run of zero groups starts and ends (both |gs| when no group is zero). */
  function RunStart(gs: Groups): (z: nat)
    ensures z <= |gs| && (forall i | 0 <= i < z :: gs[i] != 0) && (z < |gs| ==> gs[z] == 0)
  {
    if gs == [] || gs[0] == 0 then 0 else 1 + RunStart(gs[1..])
  }

  function RunEnd(gs: Groups): (e: nat)
    ensures RunStart(gs) <= e <= |gs|
    ensures forall i | RunStart(gs) <= i < e :: gs[i] == 0
    ensures e < |gs| ==> e > RunStart(gs) && gs[e] != 0
    ensures RunStart(gs) < |gs| ==> RunStart(gs) < e
  {
    if gs == [] then 0
    else if gs[0] != 0 then 1 + RunEnd(gs[1..])
    else if |gs| > 1 && gs[1] == 0 then
      assert gs[1..][0] == 0 && RunStart(gs[1..]) == 0;
      1 + RunEnd(gs[1..])
    else 1
  }

  /** The text of the status page: the first run of zero groups becomes "::", whatever its length. */
  function Text(gs: Groups): string {
    if RunStart(gs) == |gs| then Join(gs)
    else Join(gs[..RunStart(gs)]) + "::" + Join(gs[RunEnd(gs)..])
  }

  lemma {:induction false} HexRoundTrip(v: nat)
    ensures HexNumber(Hex(v)) == Some(v)
  {
    if v < 16 {
      assert Hex(v)[..0] == [];
    } else {
      HexRoundTrip(v / 16);
      assert Hex(v)[..|Hex(v)| - 1] == Hex(v / 16);
    }
  }

  function Pow16(k: nat): nat { if k == 0 then 1 else 16 * Pow16(k - 1) }

  lemma {:induction false} HexBound(v: nat, k: nat)
    requires k > 0 && v < Pow16(k)
    ensures |Hex(v)| <= k
  {
    if v >= 16 { HexBound(v / 16, k - 1); }
  }

  lemma GroupRoundTrip(v: Group)
    ensures |Hex(v)| <= 4 && ParseGroup(Hex(v)) == Some(v)
  {
    HexRoundTrip(v);
    assert Pow16(4) == 0x10000;
    HexBound(v, 4);
  }

  lemma {:induction false} JoinCons(gs: Groups)
    requires |gs| > 1
    ensures Join(gs) == Hex(gs[0]) + ":" + Join(gs[1..])
  {
    var init := gs[..|gs| - 1];
    if |gs| == 2 {
      assert gs[1..] == [gs[1]] && init == [gs[0]];
    } else {
      JoinCons(init);
      assert init[1..] == gs[1..][..|gs| - 2];
      assert Join(gs[1..]) == Join(init[1..]) + ":" + Hex(gs[|gs| - 1]);
    }
  }

  lemma {:induction false} ColonAtEndOf(s: string, rest: string)
    requires ':' !in s && (rest == [] || rest[0] == ':')
    ensures ColonAt(s + rest) == |s|
  {
    if s == [] {
      assert s + rest == rest;
    } else {
      assert (s + rest)[1..] == s[1..] + rest;
      ColonAtEndOf(s[1..], rest);
    }
  }

  lemma ParseGroupsCons(g: Group, rest: string)
    ensures ParseGroups(Hex(g)) == Some([g])
    ensures ParseGroups(rest).Some? ==> ParseGroups(Hex(g) + ":" + rest) == Some([g] + ParseGroups(rest).value)
  {
    GroupRoundTrip(g);
    var h := Hex(g);
    ColonAtEndOf(h, []);
    assert h + [] == h && h[..|h|] == h;
    var t := h + ":" + rest;
    assert t == h + (":" + rest);
    ColonAtEndOf(h, ":" + rest);
    assert t[..|h|] == h && t[|h| + 1..] == rest;
  }

  lemma {:induction false} JoinRoundTrip(gs: Groups)
    requires gs != []
    ensures ParseGroups(Join(gs)) == Some(gs)
  {
    if |gs| == 1 {
      ParseGroupsCons(gs[0], "");
      assert gs == [gs[0]];
    } else {
      JoinCons(gs);
      JoinRoundTrip(gs[1..]);
      ParseGroupsCons(gs[0], Join(gs[1..]));
      assert gs == [gs[0]] + gs[1..];
    }
  }

  /** Joined groups never hold "::", nor touch a colon at either end, and keep to five characters a group. */
  lemma {:induction false} JoinShape(gs: Groups)
    ensures forall i :: !GapAt(Join(gs), i)
    ensures gs != [] ==> Join(gs) != [] && Join(gs)[0] != ':' && Join(gs)[|Join(gs)| - 1] != ':'
    ensures |Join(gs)| <= if gs == [] then 0 else 5 * |gs| - 1
  {
    if gs != [] {
      var h := Hex(gs[|gs| - 1]);
      GroupRoundTrip(gs[|gs| - 1]);
      assert forall i | 0 <= i < |h| :: h[i] != ':';
      if |gs| > 1 {
        JoinShape(gs[..|gs| - 1]);
        var j := Join(gs[..|gs| - 1]);
        forall i
          ensures !GapAt(j + ":" + h, i)
        {
          assert i < |j| - 1 ==> !GapAt(j, i);
        }
      }
    }
  }

  /** In a text with a run, "::" stands exactly where the run was and nowhere else. */
  lemma GapOfText(gs: Groups)
    requires RunStart(gs) < |gs|
    ensures forall i :: GapAt(Text(gs), i) <==> i == |Join(gs[..RunStart(gs)])|
  {
    var l, r := Join(gs[..RunStart(gs)]), Join(gs[RunEnd(gs)..]);
    JoinShape(gs[..RunStart(gs)]);
    JoinShape(gs[RunEnd(gs)..]);
    var t := l + "::" + r;
    forall i
      ensures GapAt(t, i) <==> i == |l|
    {
      if i < |l| - 1 { assert !GapAt(l, i); }
      if i > |l| + 1 { assert !GapAt(r, i - |l| - 2); }
    }
  }

  /** "::" occurs iff some group is zero. */
  lemma GapIffZero(gs: Groups)
    ensures (exists i :: GapAt(Text(gs), i)) <==> exists k | 0 <= k < |gs| :: gs[k] == 0
  {
    if RunStart(gs) == |gs| {
      JoinShape(gs);
    } else {
      GapOfText(gs);
      assert GapAt(Text(gs), |Join(gs[..RunStart(gs)])|);
    }
  }

  lemma TextIsShort(gs: Groups)
    requires |gs| == 8
    ensures |Text(gs)| <= 39
  {
    JoinShape(gs);
    JoinShape(gs[..RunStart(gs)]);
    JoinShape(gs[RunEnd(gs)..]);
  }

  lemma SideRoundTrip(gs: Groups)
    ensures ParseSide(Join(gs)) == Some(gs)
  {
    JoinShape(gs);
    if gs != [] { JoinRoundTrip(gs); }
  }

  /** Reading the text back by section 2.2 gives the address. */
  lemma TextRoundTrip(gs: Groups)
    requires |gs| == 8
    ensures Parse(Text(gs)) == Some(gs)
  {
    if RunStart(gs) == 8 {
      JoinShape(gs);
      JoinRoundTrip(gs);
    } else {
      GappedTextRoundTrip(gs);
    }
  }

  lemma GappedTextRoundTrip(gs: Groups)
    requires |gs| == 8 && RunStart(gs) < 8
    ensures Parse(Text(gs)) == Some(gs)
  {
    var l, r := gs[..RunStart(gs)], gs[RunEnd(gs)..];
    var i := GapPosition(gs);
    assert Text(gs)[..i] == Join(l) && Text(gs)[i + 2..] == Join(r);
    SideRoundTrip(l);
    SideRoundTrip(r);
    FillRun(gs);
  }

  lemma GapPosition(gs: Groups) returns (i: nat)
    requires RunStart(gs) < |gs|
    ensures i == |Join(gs[..RunStart(gs)])| && FindGap(Text(gs)) == Some(i)
  {
    i := |Join(gs[..RunStart(gs)])|;
    GapOfText(gs);
    assert GapAt(Text(gs), i);
  }

  lemma FillRun(gs: Groups)
    requires |gs| == 8 && RunStart(gs) < 8
    ensures Fill(Some(gs[..RunStart(gs)]), Some(gs[RunEnd(gs)..])) == Some(gs)
  {
    FillZeros(gs, RunStart(gs), RunEnd(gs));
  }

  lemma FillZeros(gs: seq<nat>, z: nat, e: nat)
    requires |gs| == 8 && z < e <= 8 && forall i | z <= i < e :: gs[i] == 0
    ensures Fill(Some(gs[..z]), Some(gs[e..])) == Some(gs)
  {
    var l, r := gs[..z], gs[e..];
    assert |l| + |r| == 8 - (e - z);
    ZeroRun(gs, z, e);
  }

  lemma ZeroRun(gs: seq<nat>, z: nat, e: nat)
    requires z <= e <= |gs| && forall i | z <= i < e :: gs[i] == 0
    ensures gs == gs[..z] + Zeros(e - z) + gs[e..]
  {
  }

  /** Two addresses never share a text. */
  lemma TextIsInjective(g1: Groups, g2: Groups)
    requires |g1| == |g2| == 8 && Text(g1) == Text(g2)
    ensures g1 == g2
  {
    TextRoundTrip(g1);
    TextRoundTrip(g2);
  }
}
