/** A reader of the status page's rows: every row gives back the addresses and numbers it was written from, each in its
    place. */
module PageReader {
  import opened Wrappers
  import opened AddressText
  import opened NumberText
  import opened StatusPage

  predicate IsAddressChar(c: char) { c == ':' || HexValue(c).Some? }

  /** How many characters of an address s starts with. */
  function Span(s: string): (n: nat)
    ensures n <= |s|
  {
    if s == [] || !IsAddressChar(s[0]) then 0 else 1 + Span(s[1..])
  }

  /** What follows a fixed text. */
  function After(s: string, prefix: string): Option<string> { if prefix <= s then Some(s[|prefix|..]) else None }

  /** An address, by section 2.2 of RFC 4291, and what follows it. */
  function ReadAddress(s: string): Option<(Address, string)> {
    var n := Span(s);
    match Parse(s[..n])
    case Some(gs) =>
      if |gs| == 8 && forall i | 0 <= i < 8 :: gs[i] < 0x10000 then Some((BytesOf(gs), s[n..])) else None
    case None => None
  }

  /** A number, and what follows it. */
  function ReadNumber(s: string): Option<(nat, string)> {
    var n := DigitRun(s);
    if n == 0 then None else Some((ReadDigits(s[..n], 0), s[n..]))
  }

  function ReadRow(s: string): Option<Row> {
    match After(s, "    <li>")
    case None => None
    case Some(s1) =>
      match ReadAddress(s1)
      case None => None
      case Some((a, s2)) =>
        if s2 == "</li>\n" then Some(Neighbor(a))
        else if "/" <= s2 then ReadRoute(a, s2[1..])
        else ReadLink(a, s2)
  }

  /** length (via nexthop) lifetime */
  function ReadRoute(a: Address, s: string): Option<Row> {
    match ReadNumber(s)
    case None => None
    case Some((length, s1)) =>
      match After(s1, " (via ")
      case None => None
      case Some(s2) =>
        match ReadTail(s2)
        case Some((nexthop, lifetime)) => if length < 256 then Some(Route(a, length, nexthop, lifetime)) else None
        case None => None
  }

  /** (parent: parent) lifetime */
  function ReadLink(child: Address, s: string): Option<Row> {
    match After(s, " (parent: ")
    case None => None
    case Some(s1) =>
      match ReadTail(s1)
      case Some((parent, lifetime)) => Some(Link(child, parent, lifetime))
      case None => None
  }

  function ReadTail(s: string): Option<(Address, nat)> {
    match ReadAddress(s)
    case None => None
    case Some((a, s1)) =>
      match After(s1, ") ")
      case None => None
      case Some(s2) =>
        match ReadNumber(s2)
        case Some((lifetime, s3)) => if s3 == "s</li>\n" then Some((a, lifetime)) else None
        case None => None
  }

  predicate AllAddressChars(s: string) { forall i | 0 <= i < |s| :: IsAddressChar(s[i]) }

  lemma {:induction false} HexChars(v: nat)
    ensures AllAddressChars(Hex(v))
  {
    if v >= 16 { HexChars(v / 16); }
  }

  lemma {:induction false} JoinChars(gs: Groups)
    ensures AllAddressChars(Join(gs))
  {
    if gs != [] {
      HexChars(gs[|gs| - 1]);
      if |gs| > 1 { JoinChars(gs[..|gs| - 1]); }
    }
  }

  lemma TextChars(gs: Groups)
    ensures AllAddressChars(Text(gs))
  {
    JoinChars(gs);
    JoinChars(gs[..RunStart(gs)]);
    JoinChars(gs[RunEnd(gs)..]);
  }

  lemma {:induction false} SpanOf(s: string, rest: string)
    requires AllAddressChars(s) && (rest == [] || !IsAddressChar(rest[0]))
    ensures Span(s + rest) == |s|
  {
    if s == [] {
      assert s + rest == rest;
    } else {
      assert (s + rest)[1..] == s[1..] + rest;
      SpanOf(s[1..], rest);
    }
  }

  lemma AddressIsRead(a: Address, rest: string)
    requires rest == [] || !IsAddressChar(rest[0])
    ensures ReadAddress(Show(a) + rest) == Some((a, rest))
  {
    AddressRoundTrip(a);
    TextChars(GroupsOf(a));
    SpanOf(Show(a), rest);
    assert (Show(a) + rest)[..|Show(a)|] == Show(a) && (Show(a) + rest)[|Show(a)|..] == rest;
  }

  lemma NumberIsRead(n: nat, rest: string)
    requires rest == [] || !IsDigit(rest[0])
    ensures ReadNumber(Digits(n) + rest) == Some((n, rest))
  {
    var d := Digits(n);
    DigitRunOfDigits(d, rest);
    ReadDigitsOfDigits(n, []);
    assert (d + rest)[..|d|] == d && (d + rest)[|d|..] == rest && d + [] == d;
  }

  lemma PrefixIsRead(prefix: string, rest: string)
    ensures After(prefix + rest, prefix) == Some(rest)
  {
  }

  lemma TailIsRead(a: Address, t: nat)
    ensures ReadTail(Show(a) + (") " + (Digits(t) + "s</li>\n"))) == Some((a, t))
  {
    var end := Digits(t) + "s</li>\n";
    AddressIsRead(a, ") " + end);
    PrefixIsRead(") ", end);
    NumberIsRead(t, "s</li>\n");
  }

  /** The first address of a row, and what the rest of the row is then read as. */
  lemma HeadIsRead(a: Address, rest: string)
    requires rest != [] && !IsAddressChar(rest[0])
    ensures ReadRow("    <li>" + (Show(a) + rest))
            == if rest == "</li>\n" then Some(Neighbor(a)) else if "/" <= rest then ReadRoute(a, rest[1..]) else ReadLink(a, rest)
  {
    PrefixIsRead("    <li>", Show(a) + rest);
    AddressIsRead(a, rest);
  }

  lemma RouteRestIsRead(a: Address, n: Byte, via: Address, t: nat)
    ensures ReadRoute(a, Digits(n) + (" (via " + (Show(via) + (") " + (Digits(t) + "s</li>\n"))))) == Some(Route(a, n, via, t))
  {
    var tail := Show(via) + (") " + (Digits(t) + "s</li>\n"));
    NumberIsRead(n, " (via " + tail);
    PrefixIsRead(" (via ", tail);
    TailIsRead(via, t);
  }

  lemma LinkRestIsRead(c: Address, p: Address, t: nat)
    ensures ReadLink(c, " (parent: " + (Show(p) + (") " + (Digits(t) + "s</li>\n")))) == Some(Link(c, p, t))
  {
    PrefixIsRead(" (parent: ", Show(p) + (") " + (Digits(t) + "s</li>\n")));
    TailIsRead(p, t);
  }

  lemma RouteIsRead(a: Address, n: Byte, via: Address, t: nat)
    ensures ReadRow(RowText(Route(a, n, via, t))) == Some(Route(a, n, via, t))
  {
    RegroupRoute(Show(a), Digits(n), Show(via), Digits(t));
    var number := Digits(n) + (" (via " + (Show(via) + (") " + (Digits(t) + "s</li>\n"))));
    HeadIsRead(a, "/" + number);
    assert ("/" + number)[1..] == number;
    RouteRestIsRead(a, n, via, t);
  }

  lemma LinkIsRead(c: Address, p: Address, t: nat)
    ensures ReadRow(RowText(Link(c, p, t))) == Some(Link(c, p, t))
  {
    RegroupLink(Show(c), Show(p), Digits(t));
    HeadIsRead(c, " (parent: " + (Show(p) + (") " + (Digits(t) + "s</li>\n"))));
    LinkRestIsRead(c, p, t);
  }

  lemma RegroupEnd(t: string)
    ensures ") " + t + "s" + "</li>\n" == ") " + (t + "s</li>\n")
  {
  }

  lemma RegroupLink(c: string, p: string, t: string)
    ensures "    <li>" + c + (" (parent: " + p + (") " + t + "s")) + "</li>\n"
            == "    <li>" + (c + (" (parent: " + (p + (") " + (t + "s</li>\n")))))
  {
    Regroup("    <li>", c, " (parent: " + p + (") " + t + "s"), "</li>\n");
    Regroup(" (parent: ", p, ") " + t + "s", "</li>\n");
    RegroupEnd(t);
  }

  lemma RegroupRoute(a: string, n: string, via: string, t: string)
    ensures "    <li>" + a + (("/" + n + " (via ") + via + (") " + t + "s")) + "</li>\n"
            == "    <li>" + (a + ("/" + (n + (" (via " + (via + (") " + (t + "s</li>\n")))))))
  {
    var tail := via + (") " + (t + "s</li>\n"));
    Regroup("    <li>", a, ("/" + n + " (via ") + via + (") " + t + "s"), "</li>\n");
    Regroup("/" + n + " (via ", via, ") " + t + "s", "</li>\n");
    RegroupEnd(t);
    Regroup("/", n, " (via ", tail);
  }

  lemma Regroup(a: string, b: string, c: string, d: string)
    ensures a + b + c + d == a + (b + (c + d))
  {
  }

  /** Reading a row of the page gives back the row. */
  lemma RowRoundTrip(r: Row)
    ensures ReadRow(RowText(r)) == Some(r)
  {
    match r
    case Neighbor(a) =>
      AppendIsAssociative("    <li>", Show(a), "</li>\n");
      HeadIsRead(a, "</li>\n");
    case Route(a, n, via, t) => RouteIsRead(a, n, via, t);
    case Link(c, p, t) => LinkIsRead(c, p, t);
  }

  /** The rows of a table come out in their order. */
  lemma {:induction false} TableStartsWithItsFirstRow(rows: seq<Row>)
    requires rows != []
    ensures PageRows(rows) == RowText(rows[0]) + PageRows(rows[1..])
  {
    var n := |rows| - 1;
    if n == 0 {
      assert rows[..0] == rows[1..] == [] && "" + RowText(rows[0]) == RowText(rows[0]) + "";
    } else {
      TableStartsWithItsFirstRow(rows[..n]);
      assert rows[..n][1..] == rows[1..][..n - 1];
      AppendIsAssociative(RowText(rows[0]), PageRows(rows[1..n]), RowText(rows[n]));
      assert rows[1..n] == rows[1..][..n - 1];
    }
  }

  /** Two rows never look alike. */
  lemma RowsAreDistinct(r1: Row, r2: Row)
    requires RowText(r1) == RowText(r2)
    ensures r1 == r2
  {
    RowRoundTrip(r1);
    RowRoundTrip(r2);
  }
}
