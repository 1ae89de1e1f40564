/** The lenient scalar decoders (Helpers/ParserHelpers.swift): `IntCodable`
    and `BoolCodable` try the JSON value as several types in a fixed order,
    and `ParserValue` with `AnyToValueStrategy` exposes the result. */
module Parsing {
  import opened Types

  /** A JSON value as the decoder's single-value container sees it: a number
      is `JInt` when it is integral, `JFraction` otherwise; arrays and objects
      are `JComposite`. */
  datatype JsonValue = JNull | JBool(b: bool) | JString(s: string) | JInt(n: int) | JFraction | JComposite

  /** `container.decode(Bool.self)`: only a JSON boolean. */
  function DecodeBool(j: JsonValue): Option<bool> {
    if j.JBool? then Some(j.b) else None
  }

  /** `container.decode(String.self)`: only a JSON string. */
  function DecodeString(j: JsonValue): Option<string> {
    if j.JString? then Some(j.s) else None
  }

  /** `container.decode(Int.self)`: an integral number that fits in 64 bits. */
  function DecodeInt(j: JsonValue): Option<Int64> {
    if j.JInt? && IntMin <= j.n <= IntMax then Some(j.n) else None
  }

  // ---------------------------------------------------------------- String.asBool / asInt

  /** `asBool`: exactly "1" or "true", case-sensitively. */
  predicate AsBool(s: string) {
    s == "1" || s == "true"
  }

  lemma AsBoolIsCaseSensitive()
    ensures AsBool("true") && AsBool("1")
    ensures !AsBool("TRUE") && !AsBool("True") && !AsBool("yes") && !AsBool("0") && !AsBool("")
  {
  }

  predicate IsDigit(c: char) {
    '0' <= c <= '9'
  }

  predicate AllDigits(s: string) {
    forall i | 0 <= i < |s| :: IsDigit(s[i])
  }

  /** The value of a string of decimal digits, most significant first. */
  function DigitsValue(d: string): nat
    requires AllDigits(d)
  {
    if d == [] then 0 else DigitsValue(d[..|d| - 1]) * 10 + (d[|d| - 1] as int - '0' as int)
  }

  /** `asInt`, that is `Int(self)`: an optional sign, then at least one
      decimal digit and nothing else, and the value must fit in an `Int`. */
  function AsInt(s: string): (r: Option<Int64>)
    ensures r.Some? ==> s != [] && (s[0] == '+' || s[0] == '-' || IsDigit(s[0]))
  {
    if s == [] then None
    else
      var negative := s[0] == '-';
      var digits := if s[0] == '+' || s[0] == '-' then s[1..] else s;
      if digits == [] || !AllDigits(digits) then None
      else
        var magnitude := DigitsValue(digits);
        var value: int := if negative then -(magnitude as int) else magnitude;
        if IntMin <= value <= IntMax then Some(value) else None
  }

  /** The decimal digits of a natural number, as `description` writes them. */
  function NatDigits(m: nat): (d: string)
    ensures d != [] && AllDigits(d)
    ensures DigitsValue(d) == m
  {
    if m < 10 then [('0' as int + m) as char]
    else
      var d := NatDigits(m / 10) + [('0' as int + m % 10) as char];
      assert d[..|d| - 1] == NatDigits(m / 10);
      d
  }

  /** `Int.description`. */
  function Describe(n: int): string {
    if n < 0 then "-" + NatDigits(-n) else NatDigits(n)
  }

  /** `Int(n.description) == n` for every `Int`. */
  lemma AsIntDescribeRoundTrip(n: Int64)
    ensures AsInt(Describe(n)) == Some(n)
  {
    var s := Describe(n);
    if n < 0 {
      var d := NatDigits(-(n as int));
      assert s == "-" + d;
      assert s[0] == '-' && s[1..] == d;
    } else {
      var d := NatDigits(n);
      assert s == d && IsDigit(d[0]);
    }
  }

  /** Whatever `asInt` accepts is one or more decimal digits, optionally
      after a single sign, and its value is the digits' value with that sign. */
  lemma AsIntSound(s: string)
    requires AsInt(s).Some?
    ensures || (AllDigits(s) && AsInt(s).value == DigitsValue(s))
            || (s[0] == '+' && |s| >= 2 && AllDigits(s[1..]) && AsInt(s).value == DigitsValue(s[1..]))
            || (s[0] == '-' && |s| >= 2 && AllDigits(s[1..]) && AsInt(s).value == -(DigitsValue(s[1..]) as int))
  {
  }

  /** Every digit string whose value fits is accepted, with or without a
      sign, leading zeros included. */
  lemma AsIntAccepts(d: string)
    requires d != [] && AllDigits(d)
    ensures DigitsValue(d) <= IntMax ==> AsInt(d) == Some(DigitsValue(d) as int)
    ensures DigitsValue(d) <= IntMax ==> AsInt("+" + d) == Some(DigitsValue(d) as int)
    ensures -(DigitsValue(d) as int) >= IntMin ==> AsInt("-" + d) == Some(-(DigitsValue(d) as int))
    ensures DigitsValue(d) > IntMax ==> AsInt(d) == None && AsInt("+" + d) == None
  {
    assert ("+" + d)[1..] == d && ("-" + d)[1..] == d;
  }

  /** Strings with no digit, or with anything around the number, give nil. */
  lemma AsIntRejects(s: string, c: char)
    requires !IsDigit(c) && c != '+' && c != '-'
    ensures AsInt([c] + s) == None
    ensures AsInt("") == None && AsInt("+") == None && AsInt("-") == None
    ensures AsInt(" 1") == None && AsInt("1 ") == None
  {
    assert " 1"[0] == ' ';
    assert !AllDigits("1 ") by { assert "1 "[1] == ' '; }
  }

  // ---------------------------------------------------------------- the codables

  /** `IntCodable` / `BoolCodable`: a value that may be missing (`AnyCodable`). */
  datatype AnyCodable<T> = AnyCodable(value: Option<T>)

  /** `IntCodable.init(from:)`: a string is read with `asInt` (and never tried
      as a number), then a number; anything else is nil. */
  function IntCodableFrom(j: JsonValue): (c: AnyCodable<Int64>)
    ensures j.JString? ==> c.value == AsInt(j.s)
    ensures !j.JString? ==> c.value == DecodeInt(j)
    ensures j.JNull? || j.JBool? || j.JFraction? || j.JComposite? ==> c.value.None?
  {
    match DecodeString(j)
    case Some(val) => AnyCodable(AsInt(val))
    case None =>
      match DecodeInt(j)
      case Some(val) => AnyCodable(Some(val))
      case None => AnyCodable(None)
  }

  /** `BoolCodable.init(from:)`: a boolean, then a string read with `asBool`,
      then a number (true when positive); anything else is false, never nil. */
  function BoolCodableFrom(j: JsonValue): (c: AnyCodable<bool>)
    ensures c.value.Some?
    ensures j.JBool? ==> c.value.value == j.b
    ensures j.JString? ==> c.value.value == AsBool(j.s)
    ensures j.JInt? && IntMin <= j.n <= IntMax ==> c.value.value == (j.n > 0)
    ensures j.JNull? || j.JFraction? || j.JComposite? || (j.JInt? && !(IntMin <= j.n <= IntMax)) ==>
              c.value.value == false
  {
    match DecodeBool(j)
    case Some(val) => AnyCodable(Some(val))
    case None =>
      match DecodeString(j)
      case Some(val) => AnyCodable(Some(AsBool(val)))
      case None =>
        match DecodeInt(j)
        case Some(val) => AnyCodable(Some(val > 0))
        case None => AnyCodable(Some(false))
  }

  /** The two fall-backs differ: where `IntCodable` gives nil, `BoolCodable` gives false. */
  lemma FallbacksDiffer()
    ensures IntCodableFrom(JNull).value == None && BoolCodableFrom(JNull).value == Some(false)
    ensures IntCodableFrom(JString("abc")).value == None
    ensures BoolCodableFrom(JInt(0)).value == Some(false) && BoolCodableFrom(JInt(-3)).value == Some(false)
    ensures IntCodableFrom(JInt(7)).value == Some(7)
  {
    assert !AllDigits("abc") by { assert !IsDigit("abc"[0]); }
  }

  // ---------------------------------------------------------------- AnyToValueStrategy / ParserValue

  /** `AnyToValueStrategy.decode`: `value?.value`. */
  function StrategyDecode<T>(raw: Option<AnyCodable<T>>): Option<T> {
    match raw
    case Some(c) => c.value
    case None => None
  }

  /** `AnyToValueStrategy.encode`: `Value(value)`, never nil. */
  function StrategyEncode<T>(v: Option<T>): Option<AnyCodable<T>> {
    Some(AnyCodable(v))
  }

  /** `decode(encode(v)) == v`; the other way round a nil raw value comes
      back as a present raw value holding nil. */
  lemma StrategyRoundTrip<T>(v: Option<T>)
    ensures StrategyDecode(StrategyEncode(v)) == v
    ensures StrategyEncode(StrategyDecode<T>(None)) == Some(AnyCodable(None))
  {
  }

  /** `ParserValue<AnyToValueStrategy<...>>`: the raw codable as decoded, and
      the exposed `wrappedValue`, which a client may reassign. */
  datatype ParserValue<T> = ParserValue(raw: Option<AnyCodable<T>>, wrappedValue: Option<T>)

  /** `ParserValue.init(from:)`; `rawFrom` is the raw codable's `init(from:)`. */
  function ParserValueFrom<T>(j: JsonValue, rawFrom: JsonValue -> AnyCodable<T>): (p: ParserValue<T>)
    ensures p.raw == Some(rawFrom(j))
    ensures p.wrappedValue == rawFrom(j).value
  {
    var raw := Some(rawFrom(j));
    ParserValue(raw, StrategyDecode(raw))
  }

  /** `ParserValue.encode(to:)` writes the raw codable back, not `wrappedValue`. */
  function ParserValueEncode<T>(p: ParserValue<T>): Option<AnyCodable<T>> {
    p.raw
  }

  lemma EncodeIgnoresWrappedValue<T>(p: ParserValue<T>, w: Option<T>)
    ensures ParserValueEncode(p.(wrappedValue := w)) == ParserValueEncode(p)
    ensures ParserValueEncode(p) == p.raw
  {
  }

  /** `KeyedDecodingContainer.decode(_:forKey:)` for a `ParserValue`: through
      `decodeIfPresent`, so a missing key or a null value gives nil, not an error. */
  function DecodeField<T>(container: map<string, JsonValue>, key: string, rawFrom: JsonValue -> AnyCodable<T>)
    : (p: Option<ParserValue<T>>)
    ensures p.None? <==> key !in container || container[key].JNull?
    ensures p.Some? ==> p.value == ParserValueFrom(container[key], rawFrom)
  {
    if key !in container || container[key].JNull? then None
    else Some(ParserValueFrom(container[key], rawFrom))
  }

  /** An `AutoInt` field (`ParserValue<AnyToValueStrategy<IntCodable>>`): a
      missing key or null gives no field; otherwise the field keeps the raw
      `IntCodable`, exposes its value, and encodes that raw codable back. */
  lemma AutoIntField(container: map<string, JsonValue>, key: string)
    ensures var p := DecodeField(container, key, IntCodableFrom);
            && (p.None? <==> key !in container || container[key].JNull?)
            && (p.Some? ==> p.value.wrappedValue == IntCodableFrom(container[key]).value)
            && (p.Some? ==> ParserValueEncode(p.value) == Some(IntCodableFrom(container[key])))
            && (p.Some? && container[key].JString? ==> p.value.wrappedValue == AsInt(container[key].s))
  {
  }

  /** An `AutoInt` field holding the string "42" exposes 42 and encodes the raw codable. */
  lemma AutoIntFromString()
    ensures ParserValueFrom(JString("42"), IntCodableFrom).wrappedValue == Some(42)
  {
    assert DigitsValue("42"[..1]) == 4;
  }
}
