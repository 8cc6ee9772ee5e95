/** The field lookups of Motes/lib/common/common.c over the token stream of the JSON parser.
    A token carries the C string the parser would copy; no token holds a NUL character. */
module JsonFields {
  import opened Wrappers
  import opened NumberText

  datatype Token = Name(text: string) | Number(text: string) | True(text: string) | False(text: string) | Other

  const JSON_BUFFER := 20

  /** What fits a JSON_BUFFER with its terminator. */
  function Copy(s: string): string { if |s| < JSON_BUFFER then s else s[..JSON_BUFFER - 1] }

  datatype Kind = Numbers | Booleans

  predicate IsA(t: Token, kind: Kind) { if kind == Numbers then t.Number? else t.True? || t.False? }

  /** The key buffer after the tokens: the copy of the latest name, or what the buffer held before. */
  function KeyAfter(tokens: seq<Token>, held: string): string {
    if tokens == [] then held
    else
      var last := tokens[|tokens| - 1];
      if last.Name? then Copy(last.text) else KeyAfter(tokens[..|tokens| - 1], held)
  }

  predicate Hit(tokens: seq<Token>, key: string, held: string, kind: Kind, k: nat)
    requires k < |tokens|
  {
    IsA(tokens[k], kind) && KeyAfter(tokens[..k], held) == key
  }

  predicate FirstHit(tokens: seq<Token>, key: string, held: string, kind: Kind, k: nat)
    requires k < |tokens|
  {
    Hit(tokens, key, held, kind, k) && forall j | 0 <= j < k :: !Hit(tokens, key, held, kind, j)
  }

  /** The scan both lookups share, as one recursion; held is the content of the key buffer. */
  function Field(tokens: seq<Token>, key: string, held: string, kind: Kind): (r: Option<Token>)
    ensures r.Some? ==> IsA(r.value, kind) && r.value in tokens
  {
    if tokens == [] then None
    else if tokens[0].Name? then Field(tokens[1..], key, Copy(tokens[0].text), kind)
    else if IsA(tokens[0], kind) && held == key then Some(tokens[0])
    else Field(tokens[1..], key, held, kind)
  }

  lemma {:induction false} KeyAfterCons(tokens: seq<Token>, held: string)
    requires tokens != []
    ensures KeyAfter(tokens, held)
            == KeyAfter(tokens[1..], if tokens[0].Name? then Copy(tokens[0].text) else held)
  {
    if |tokens| > 1 {
      KeyAfterCons(tokens[..|tokens| - 1], held);
      assert tokens[..|tokens| - 1][1..] == tokens[1..][..|tokens| - 2];
    }
  }

  lemma HitShift(tokens: seq<Token>, key: string, held: string, kind: Kind, k: nat)
    requires 0 < k < |tokens|
    ensures Hit(tokens, key, held, kind, k)
            == Hit(tokens[1..], key, if tokens[0].Name? then Copy(tokens[0].text) else held, kind, k - 1)
  {
    KeyAfterCons(tokens[..k], held);
    assert tokens[..k][1..] == tokens[1..][..k - 1];
  }

  /** The scan answers with the first value of its kind whose latest name is the key, and only with it. */
  lemma {:induction false} FieldIsFirstHit(tokens: seq<Token>, key: string, held: string, kind: Kind)
    ensures Field(tokens, key, held, kind) == None
            <==> forall k | 0 <= k < |tokens| :: !Hit(tokens, key, held, kind, k)
    ensures forall k | 0 <= k < |tokens| && FirstHit(tokens, key, held, kind, k) ::
              Field(tokens, key, held, kind) == Some(tokens[k])
  {
    if tokens != [] {
      var held' := if tokens[0].Name? then Copy(tokens[0].text) else held;
      FieldIsFirstHit(tokens[1..], key, held', kind);
      assert tokens[..0] == [];
      forall k | 0 < k < |tokens|
        ensures Hit(tokens, key, held, kind, k) == Hit(tokens[1..], key, held', kind, k - 1)
      {
        HitShift(tokens, key, held, kind, k);
      }
      if !Hit(tokens, key, held, kind, 0) {
        assert Field(tokens, key, held, kind) == Field(tokens[1..], key, held', kind);
        assert forall k | 0 <= k < |tokens| - 1 ::
            Hit(tokens[1..], key, held', kind, k) == Hit(tokens, key, held, kind, k + 1);
        forall k | 0 <= k < |tokens| && FirstHit(tokens, key, held, kind, k)
          ensures Field(tokens, key, held, kind) == Some(tokens[k])
        {
          assert FirstHit(tokens[1..], key, held', kind, k - 1);
        }
      }
    }
  }

  /** The first value of the kind, if it comes before every name. */
  function Early(tokens: seq<Token>, kind: Kind): Option<Token> {
    if tokens == [] || tokens[0].Name? then None
    else if IsA(tokens[0], kind) then Some(tokens[0])
    else Early(tokens[1..], kind)
  }

  function FromName(tokens: seq<Token>): (r: seq<Token>)
    ensures r == [] || r[0].Name?
  {
    if tokens == [] || tokens[0].Name? then tokens else FromName(tokens[1..])
  }

  /** The key buffer starts uninitialised: what it holds by chance is all that a value before every name is compared with. */
  lemma {:induction false} EarlyScan(tokens: seq<Token>, key: string, held: string, kind: Kind)
    ensures Field(tokens, key, held, kind)
            == if held == key && Early(tokens, kind).Some? then Early(tokens, kind)
               else Field(FromName(tokens), key, "", kind)
  {
    if tokens != [] && !tokens[0].Name? { EarlyScan(tokens[1..], key, held, kind); }
  }

  /** The chance content decides the answer exactly when some value of the kind comes before every name and is not also
      what the key finds after the first name. */
  lemma HeldMattersIff(tokens: seq<Token>, key: string, kind: Kind)
    requires |key| < JSON_BUFFER
    ensures (exists h1, h2 | |h1| < JSON_BUFFER && |h2| < JSON_BUFFER ::
               Field(tokens, key, h1, kind) != Field(tokens, key, h2, kind))
            <==> Early(tokens, kind).Some? && Field(FromName(tokens), key, "", kind) != Early(tokens, kind)
  {
    forall held
      ensures Field(tokens, key, held, kind)
              == if held == key && Early(tokens, kind).Some? then Early(tokens, kind)
                 else Field(FromName(tokens), key, "", kind)
    {
      EarlyScan(tokens, key, held, kind);
    }
    var other := if key == "" then "x" else "";
    if Early(tokens, kind).Some? && Field(FromName(tokens), key, "", kind) != Early(tokens, kind) {
      assert Field(tokens, key, key, kind) != Field(tokens, key, other, kind);
    }
  }

  /** A copy is the first 19 characters, so a cut name is never taken for a shorter key. */
  lemma CopyKeepsKeys(name: string, key: string)
    requires |key| < 19
    ensures Copy(name) <= name && |Copy(name)| == if |name| < 19 then |name| else 19
    ensures Copy(name) == key <==> name == key
  {
  }

  datatype Lookup = Missing | Bad | Found(value: int)

  /** A number that converts to 0 without being written "0" is taken for a failed conversion. */
  function IntField(tokens: seq<Token>, key: string, held: string): Lookup {
    match Field(tokens, key, held, Numbers)
    case None => Missing
    case Some(t) =>
      var v := Atoi(Copy(t.text));
      if Copy(t.text) != "0" && v == 0 then Bad else Found(v)
  }

  datatype BoolLookup = NoBool | BadBool | FoundBool(on: bool)

  function BoolField(tokens: seq<Token>, key: string, held: string): BoolLookup {
    match Field(tokens, key, held, Booleans)
    case None => NoBool
    case Some(t) => if Copy(t.text) == (if t.True? then "true" else "false") then FoundBool(t.True?) else BadBool
  }

  /** get_json_int_field: 1 with the value, 0 for a failed conversion, -1 with the caller's value untouched. */
  method GetIntField(tokens: seq<Token>, key: string, garbage: string, before: int) returns (res: int, value: int)
    ensures IntField(tokens, key, garbage)
            == if res == -1 then Missing else if res == 0 then Bad else Found(value)
    ensures -1 <= res <= 1 && (res == -1 ==> value == before) && (res == 0 ==> value == 0)
  {
    var keyBuf := garbage;
    value := before;
    for i := 0 to |tokens|
      invariant Field(tokens, key, garbage, Numbers) == Field(tokens[i..], key, keyBuf, Numbers)
      invariant value == before
    {
      assert tokens[i..][0] == tokens[i] && tokens[i..][1..] == tokens[i + 1..];
      if tokens[i].Name? {
        keyBuf := Copy(tokens[i].text);
      } else if tokens[i].Number? && keyBuf == key {
        var valueBuf := Copy(tokens[i].text);
        value := Atoi(valueBuf);
        return if valueBuf != "0" && value == 0 then 0 else 1, value;
      }
    }
    res := -1;
  }

  /** get_json_bool_field */
  method GetBoolField(tokens: seq<Token>, key: string, garbage: string, before: bool) returns (res: int, value: bool)
    ensures BoolField(tokens, key, garbage)
            == if res == -1 then NoBool else if res == 0 then BadBool else FoundBool(value)
    ensures -1 <= res <= 1 && (res == -1 ==> value == before)
  {
    var keyBuf := garbage;
    value := before;
    for i := 0 to |tokens|
      invariant Field(tokens, key, garbage, Booleans) == Field(tokens[i..], key, keyBuf, Booleans)
      invariant value == before
    {
      assert tokens[i..][0] == tokens[i] && tokens[i..][1..] == tokens[i + 1..];
      if tokens[i].Name? {
        keyBuf := Copy(tokens[i].text);
      } else if tokens[i].True? && keyBuf == key {
        return if Copy(tokens[i].text) == "true" then 1 else 0, true;
      } else if tokens[i].False? && keyBuf == key {
        return if Copy(tokens[i].text) == "false" then 1 else 0, false;
      }
    }
    res := -1;
  }

  /** A one-field object, as every command and simulation message is. */
  function Object(key: string, value: Token): seq<Token> { [Other, Name(key), value, Other] }

  lemma ObjectField(key: string, asked: string, value: Token, held: string, kind: Kind)
    requires |key| < JSON_BUFFER && IsA(value, kind)
    ensures Field(Object(key, value), asked, held, kind) == if key == asked then Some(value) else None
  {
    var t := Object(key, value);
    var t1, t2, t3 := t[1..], t[1..][1..], t[1..][1..][1..];
    assert t2 == [value, Other] && t3 == [Other] && t3[1..] == [];
    assert Field(t, asked, held, kind) == Field(t1, asked, held, kind) == Field(t2, asked, key, kind);
    assert Field(t3, asked, key, kind) == Field([], asked, key, kind) == None;
  }

  function IntObject(key: string, v: int): seq<Token> { Object(key, Number(Decimal(v))) }

  /** An int survives printing, tokenising and lookup; another key finds nothing. */
  lemma IntObjectRoundTrip(key: string, asked: string, v: JavaInt, held: string)
    requires |key| < JSON_BUFFER
    ensures IntField(IntObject(key, v), asked, held) == if key == asked then Found(v) else Missing
  {
    IntsAreShort(v);
    ObjectField(key, asked, Number(Decimal(v)), held, Numbers);
    DecimalRoundTrip(v, []);
    assert Decimal(v) + [] == Decimal(v);
    assert v == 0 ==> Decimal(v) == "0";
  }

  /** A number that converts to 0 is a failed conversion unless it is written "0". */
  lemma ZeroMeaning(key: string, text: string, held: string)
    requires |key| < JSON_BUFFER && |text| <= 19
    ensures IntField(Object(key, Number(text)), key, held)
            == if text == "0" then Found(0) else if Atoi(text) == 0 then Bad else Found(Atoi(text))
  {
    ObjectField(key, key, Number(text), held, Numbers);
    ZerosConvert();
  }

  /** Two such numbers. */
  lemma ZerosAreBad(key: string, held: string)
    requires |key| < JSON_BUFFER
    ensures IntField(Object(key, Number("-0")), key, held) == Bad
    ensures IntField(Object(key, Number("0.5")), key, held) == Bad
  {
    ZerosConvert();
    ZeroMeaning(key, "-0", held);
    ZeroMeaning(key, "0.5", held);
  }

  lemma ZerosConvert()
    ensures Atoi("0") == Atoi("-0") == Atoi("0.5") == 0
  {
    assert Digits(0) == "0";
    AtoiOfDigits(0, []);
    AtoiOfDigits(0, ".5");
    assert "0" + [] == "0" && "-" + "0" + [] == "-0" && "0" + ".5" == "0.5";
  }

  /** A boolean is taken only if its text is the word itself. */
  lemma WordMeaning(key: string, text: string, held: string)
    requires |key| < JSON_BUFFER
    ensures BoolField(Object(key, True(text)), key, held) == if text == "true" then FoundBool(true) else BadBool
    ensures BoolField(Object(key, False(text)), key, held) == if text == "false" then FoundBool(false) else BadBool
  {
    ObjectField(key, key, True(text), held, Booleans);
    ObjectField(key, key, False(text), held, Booleans);
    CopyKeepsKeys(text, "true");
    CopyKeepsKeys(text, "false");
  }

  function BoolObject(key: string, on: bool): seq<Token> { Object(key, if on then True("true") else False("false")) }

  lemma BoolObjectRoundTrip(key: string, asked: string, on: bool, held: string)
    requires |key| < JSON_BUFFER
    ensures BoolField(BoolObject(key, on), asked, held) == if key == asked then FoundBool(on) else NoBool
  {
    ObjectField(key, asked, if on then True("true") else False("false"), held, Booleans);
  }
}
