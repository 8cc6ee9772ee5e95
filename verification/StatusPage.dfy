/** Motes/lib/webserver/webserver.c: the page buffer, the address printer, and the rows of the status page. */
module StatusPage {
  import opened AddressText
  import opened NumberText

  type Byte = n: nat | n < 256
  type Address = a: seq<Byte> | |a| == 16 witness seq(16, _ => 0)

  const BUFFER := 256

  /** Two bytes, the high one first. */
  function Word(a: Address, i: nat): Group
    requires i < 15
  {
    256 * (a[i] as nat) + a[i + 1]
  }

  function GroupsOf(a: Address): (gs: Groups)
    ensures |gs| == 8 && forall k | 0 <= k < 8 :: gs[k] == Word(a, 2 * k)
  {
    seq(8, (k: nat) requires k < 8 => Word(a, 2 * k))
  }

  function Show(a: Address): string { Text(GroupsOf(a)) }

  function BytesOf(gs: Groups): (b: seq<Byte>)
    requires |gs| == 8
    ensures |b| == 16
  {
    seq(16, (k: nat) requires k < 16 => if k % 2 == 0 then gs[k / 2] / 256 else gs[k / 2] % 256)
  }

  lemma BytesRoundTrip(a: Address)
    ensures BytesOf(GroupsOf(a)) == a
  {
    var b := BytesOf(GroupsOf(a));
    forall k | 0 <= k < 16
      ensures b[k] == a[k]
    {
      var i := k / 2;
      assert k == 2 * i + k % 2 && i < 8;
      assert GroupsOf(a)[i] == 256 * (a[2 * i] as nat) + a[2 * i + 1];
    }
  }

  /** What a reader of the page gets back by section 2.2 of RFC 4291 is the sixteen bytes. */
  lemma AddressRoundTrip(a: Address)
    ensures Parse(Show(a)).Some?
    ensures var gs := Parse(Show(a)).value;
            |gs| == 8 && (forall i | 0 <= i < 8 :: gs[i] == 256 * (a[2 * i] as nat) + a[2 * i + 1] < 0x10000) && BytesOf(gs) == a
    ensures |Show(a)| <= 39
  {
    TextRoundTrip(GroupsOf(a));
    TextIsShort(GroupsOf(a));
    BytesRoundTrip(a);
  }

  /** The table rows of the page: a neighbour, a route with its next hop, a routing link. */
  datatype Row =
    | Neighbor(addr: Address)
    | Route(addr: Address, length: Byte, nexthop: Address, lifetime: nat)
    | Link(child: Address, parent: Address, lifetime: nat)

  function RowText(r: Row): string {
    match r
    case Neighbor(a) => "    <li>" + Show(a) + "</li>\n"
    case Route(a, n, via, t) => "    <li>" + Show(a) + RouteTail(n, via, t) + "</li>\n"
    case Link(c, p, t) => "    <li>" + Show(c) + LinkTail(p, t) + "</li>\n"
  }

  function RouteTail(n: Byte, via: Address, t: nat): string {
    ("/" + Digits(n) + " (via ") + Show(via) + (") " + Digits(t) + "s")
  }

  function LinkTail(p: Address, t: nat): string { " (parent: " + Show(p) + (") " + Digits(t) + "s") }

  lemma AppendIsAssociative(a: string, b: string, c: string)
    ensures a + b + c == a + (b + c)
  {
  }

  lemma AppendThree(s: string, a: string, b: string, c: string)
    ensures s + a + b + c == s + (a + b + c)
  {
    AppendIsAssociative(s, a, b);
    AppendIsAssociative(s, a + b, c);
  }

  function Lifetime(r: Row): nat { if r.Neighbor? then 0 else r.lifetime }

  const MAX_ULONG := 0x1_0000_0000_0000_0000

  /** A prefix length and a lifetime take at most 3 and 20 characters, even where `unsigned long` has 64 bits. */
  lemma NumbersFit(n: Byte, t: nat)
    requires t < MAX_ULONG
    ensures |Digits(n)| <= 3 && |Digits(t)| <= 20
  {
    assert Pow10(3) == 1000 && Pow10(10) == 10000000000;
    assert Pow10(20) == 100000000000000000000;
    DigitsBound(n, 3);
    DigitsBound(t, 20);
  }

  function PageRows(rows: seq<Row>): string {
    if rows == [] then "" else PageRows(rows[..|rows| - 1]) + RowText(rows[|rows| - 1])
  }

  lemma PageRowsSnoc(rows: seq<Row>, i: nat)
    requires i < |rows|
    ensures PageRows(rows[..i + 1]) == PageRows(rows[..i]) + RowText(rows[i])
  {
    assert rows[..i + 1][..i] == rows[..i];
  }

  /** z to e is the first run of zero groups, empty at the end if there is none. */
  predicate FirstRun(gs: Groups, z: nat, e: nat) {
    && z <= e <= |gs| && (z < |gs| ==> z < e)
    && (forall i | 0 <= i < z :: gs[i] != 0) && (forall i | z <= i < e :: gs[i] == 0) && (e < |gs| ==> gs[e] != 0)
  }

  /** What the printer has written after k groups. */
  function Printed(gs: Groups, z: nat, e: nat, k: nat): string
    requires z <= e <= |gs| && k <= |gs|
  {
    if k <= z then Join(gs[..k])
    else if k <= e then Join(gs[..z]) + "::"
    else Join(gs[..z]) + "::" + Join(gs[e..k])
  }

  /** What the printer's one integer means after k groups: 0 before the first run, the number of its groups
      seen while inside it, -1 beyond it. */
  function FlagAt(z: nat, e: nat, k: nat): int { if k <= z then 0 else if k <= e then k - z else -1 }

  /** The text the printer adds for group k. */
  function Piece(w: Group, k: nat, f: int): string {
    if w == 0 && f >= 0 then (if f == 0 then "::" else "")
    else if f > 0 || k == 0 then Hex(w)
    else ":" + Hex(w)
  }

  function NextFlag(w: Group, f: int): int {
    if w == 0 && f >= 0 then f + 1 else if f > 0 then -1 else f
  }

  lemma PrinterStep(gs: Groups, z: nat, e: nat, k: nat)
    requires k < |gs| == 8 && FirstRun(gs, z, e)
    ensures Printed(gs, z, e, k + 1) == Printed(gs, z, e, k) + Piece(gs[k], k, FlagAt(z, e, k))
    ensures FlagAt(z, e, k + 1) == NextFlag(gs[k], FlagAt(z, e, k))
    ensures |Printed(gs, z, e, k + 1)| <= 39
  {
    PrintedIsShort(gs, z, e, k + 1);
    if k < z {
      PrintsBefore(gs, z, e, k);
    } else if k < e {
      PrintsInside(gs, z, e, k);
    } else {
      PrintsBeyond(gs, z, e, k);
    }
  }

  lemma PrintsBefore(gs: Groups, z: nat, e: nat, k: nat)
    requires k < z <= e <= |gs| && gs[k] != 0
    ensures Printed(gs, z, e, k + 1) == Printed(gs, z, e, k) + Piece(gs[k], k, 0)
  {
    JoinSnoc(gs, 0, k);
    if k == 0 {
      assert gs[..0] == [] && "" + Hex(gs[0]) == Hex(gs[0]);
    }
  }

  lemma PrintsInside(gs: Groups, z: nat, e: nat, k: nat)
    requires z <= k < e <= |gs| && gs[k] == 0
    ensures Printed(gs, z, e, k + 1) == Printed(gs, z, e, k) + Piece(gs[k], k, k - z)
  {
    if k > z { AppendNothing(Printed(gs, z, e, k)); }
  }

  lemma AppendNothing(s: string)
    ensures s + "" == s
  {
  }

  lemma PrintsBeyond(gs: Groups, z: nat, e: nat, k: nat)
    requires z < e <= k < |gs| && (k == e ==> gs[k] != 0)
    ensures Printed(gs, z, e, k + 1) == Printed(gs, z, e, k) + Piece(gs[k], k, FlagAt(z, e, k))
  {
    JoinSnoc(gs, e, k);
    if e < k {
      AppendIsAssociative(Join(gs[..z]) + "::", Join(gs[e..k]), ":" + Hex(gs[k]));
    }
  }

  /** One more group at the end of a joined stretch. */
  lemma JoinSnoc(gs: Groups, from: nat, k: nat)
    requires from <= k < |gs|
    ensures Join(gs[from..k + 1]) == if from == k then Hex(gs[k]) else Join(gs[from..k]) + (":" + Hex(gs[k]))
    ensures from == 0 ==> gs[from..k + 1] == gs[..k + 1] && gs[from..k] == gs[..k]
  {
    var s, init := gs[from..k + 1], gs[from..k];
    SliceSnoc(gs, from, k);
    assert s[..|init|] == init && s[|init|] == gs[k];
    if from < k {
      AppendIsAssociative(Join(gs[from..k]), ":", Hex(gs[k]));
    }
  }

  lemma SliceSnoc(gs: Groups, from: nat, k: nat)
    requires from <= k < |gs|
    ensures gs[from..k + 1] == gs[from..k] + [gs[k]]
  {
  }

  lemma PrintedIsShort(gs: Groups, z: nat, e: nat, k: nat)
    requires k <= |gs| == 8 && z <= e <= |gs| && (z < |gs| ==> z < e)
    ensures |Printed(gs, z, e, k)| <= 39
  {
    JoinShape(gs[..k]);
    JoinShape(gs[..z]);
    if k > e { JoinShape(gs[e..k]); }
  }

  lemma PrintedWhole(gs: Groups)
    ensures FirstRun(gs, RunStart(gs), RunEnd(gs))
    ensures Printed(gs, RunStart(gs), RunEnd(gs), |gs|) == Text(gs)
  {
    assert gs[..|gs|] == gs;
  }

  /** The static buffer `buf` with its fill level `blen`; Contents is the text added since the last SEND,
      and the buffer holds all of it as long as the fill level is inside the buffer. */
  class Page {
    var buf: array<char>
    var blen: nat
    ghost var Contents: string

    ghost predicate Valid() reads this, buf {
      buf.Length == BUFFER && blen == |Contents| && (blen < BUFFER ==> buf[..blen] == Contents)
    }

    constructor ()
      ensures Valid() && fresh(buf) && Contents == ""
    {
      buf := new char[BUFFER](_ => '\0');
      blen := 0;
      Contents := "";
    }

    /** ADD: snprintf stores what fits before the terminator, yet the fill level grows by the whole text. */
    method Add(s: string)
      requires Valid() && blen < BUFFER
      modifies this`blen, this`Contents, buf
      ensures Valid() && Contents == old(Contents) + s
    {
      var room := BUFFER - 1 - blen;
      var kept := if |s| <= room then |s| else room;
      forall i | 0 <= i < kept {
        buf[blen + i] := s[i];
      }
      buf[blen + kept] := '\0';
      blen := blen + |s|;
      Contents := Contents + s;
    }

    /** The body of the printer's loop: one group, in the state f. */
    method AddGroup(w: Group, i: nat, f: int) returns (next: int)
      requires Valid() && blen + |Piece(w, i, f)| < BUFFER
      modifies this`blen, this`Contents, buf
      ensures Valid()
      ensures Contents == old(Contents) + Piece(w, i, f)
      ensures next == NextFlag(w, f)
    {
      next := f;
      if w == 0 && f >= 0 {
        next := f + 1;
        if f == 0 { Add("::"); }
      } else {
        if f > 0 {
          next := -1;
        } else if i > 0 {
          Add(":");
        }
        ghost var before := Contents;
        Add(Hex(w));
        AppendIsAssociative(old(Contents), ":", Hex(w));
        assert Contents == before + Hex(w);
      }
    }

    method AddAddress(a: Address)
      requires Valid() && blen + 39 < BUFFER
      modifies this`blen, this`Contents, buf
      ensures Valid()
      ensures Contents == old(Contents) + Show(a) && blen <= old(blen) + 39
    {
      ghost var start, gs, k, text := Contents, GroupsOf(a), 0, "";
      ghost var z, e := RunStart(gs), RunEnd(gs);
      PrintedWhole(gs);
      TextIsShort(gs);
      var i, f := 0, 0;
      while i < 16
        invariant i == 2 * k && k <= 8
        invariant Valid() && f == FlagAt(z, e, k)
        invariant text == Printed(gs, z, e, k) && Contents == start + text
      {
        var w := Word(a, i);
        PrinterStep(gs, z, e, k);
        ghost var piece := Piece(w, i, f);
        AppendIsAssociative(start, text, piece);
        f := AddGroup(w, i, f);
        i, k, text := i + 2, k + 1, text + piece;
      }
    }

    /** One row, added piece by piece to an empty buffer: nothing is cut. */
    method AddRow(r: Row)
      requires Valid() && blen == 0 && Lifetime(r) < MAX_ULONG
      modifies this`blen, this`Contents, buf
      ensures Valid()
      ensures Contents == RowText(r) && blen < BUFFER
    {
      Add("    <li>");
      assert Contents == "    <li>";
      match r {
        case Neighbor(a) =>
          AddAddress(a);
        case Route(a, n, via, t) =>
          AddAddress(a);
          AddRouteTail(n, via, t);
        case Link(c, p, t) =>
          AddAddress(c);
          AddLinkTail(p, t);
      }
      Add("</li>\n");
    }

    method AddRouteTail(n: Byte, via: Address, t: nat)
      requires Valid() && blen + 80 < BUFFER && t < MAX_ULONG
      modifies this`blen, this`Contents, buf
      ensures Valid()
      ensures Contents == old(Contents) + RouteTail(n, via, t) && blen <= old(blen) + 80
    {
      NumbersFit(n, t);
      var head, tail := "/" + Digits(n) + " (via ", ") " + Digits(t) + "s";
      AppendThree(Contents, head, Show(via), tail);
      Add(head);
      AddAddress(via);
      Add(tail);
    }

    method AddLinkTail(p: Address, t: nat)
      requires Valid() && blen + 80 < BUFFER && t < MAX_ULONG
      modifies this`blen, this`Contents, buf
      ensures Valid()
      ensures Contents == old(Contents) + LinkTail(p, t) && blen <= old(blen) + 80
    {
      NumbersFit(0, t);
      var tail := ") " + Digits(t) + "s";
      AppendThree(Contents, " (parent: ", Show(p), tail);
      Add(" (parent: ");
      AddAddress(p);
      Add(tail);
    }

    /** The loop of a table: fill the buffer with a row, send it, start again. */
    method SendRows(rows: seq<Row>) returns (sent: string)
      requires Valid() && blen == 0 && forall i | 0 <= i < |rows| :: Lifetime(rows[i]) < MAX_ULONG
      modifies this`blen, this`Contents, buf
      ensures Valid() && blen == 0
      ensures sent == PageRows(rows)
    {
      sent := "";
      for i := 0 to |rows|
        invariant Valid() && blen == 0
        invariant sent == PageRows(rows[..i])
      {
        AddRow(rows[i]);
        sent := sent + buf[..blen];
        blen, Contents := 0, "";
        PageRowsSnoc(rows, i);
      }
      assert rows[..|rows|] == rows;
    }
  }
}
