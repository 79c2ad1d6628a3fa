/**
 * JSON serialisation as `JSON.stringify` performs it (section 25.5.2 of ECMA-262),
 * for the values the services put on the wire: null, booleans, integers, strings,
 * arrays and objects whose members are listed in the order they are serialised.
 * Floating-point numbers, `undefined` members, `toJSON` hooks, the ordering of
 * integer-like keys before the others, duplicate keys and the exponent form of
 * integers of 21 or more digits are outside this model.
 * Also holds the decimal rendering of integers that both JSON and template
 * literals (`${retry}`) use.
 */
module Json {

  datatype Json =
    | JNull
    | JBool(b: bool)
    | JNumber(n: int)
    | JString(s: string)
    | JArray(items: seq<Json>)
    | JObject(members: seq<(string, Json)>)

  /** JavaScript truthiness of a value: what `data ? … : …` tests. */
  predicate Truthy(v: Json) {
    match v
    case JNull => false
    case JBool(b) => b
    case JNumber(n) => n != 0
    case JString(s) => s != ""
    case _ => true
  }

  predicate IsDigit(c: char) {
    '0' <= c <= '9'
  }

  predicate AllDigits(s: string) {
    forall i :: 0 <= i < |s| ==> IsDigit(s[i])
  }

  function DigitChar(d: nat): (c: char)
    requires d < 10
    ensures IsDigit(c)
  {
    "0123456789"[d]
  }

  function DigitValue(c: char): (d: nat)
    requires IsDigit(c)
    ensures d < 10
  {
    (c as int - '0' as int) as nat
  }

  /** Decimal digits of a natural number, most significant first, no leading zero. */
  function NatToString(n: nat): (r: string)
    ensures r != [] && AllDigits(r)
    ensures n > 0 ==> r[0] != '0'
  {
    if n < 10 then [DigitChar(n)] else NatToString(n / 10) + [DigitChar(n % 10)]
  }

  /** `String(n)` for an integer `n`. */
  function IntToString(n: int): (r: string)
    ensures r != []
    ensures n >= 0 <==> AllDigits(r)
  {
    if n < 0 then
      var r := "-" + NatToString(-n);
      assert !IsDigit(r[0]);
      r
    else NatToString(n)
  }

  /** Base-ten value of a string of ASCII digits. */
  function DecimalValue(s: string): nat
    requires AllDigits(s)
  {
    if s == [] then 0 else DecimalValue(s[..|s| - 1]) * 10 + DigitValue(s[|s| - 1])
  }

  /** Reading back the digits of `n` gives `n`. */
  lemma {:induction false} DecimalRoundTrip(n: nat)
    ensures DecimalValue(NatToString(n)) == n
  {
    if n >= 10 {
      DecimalRoundTrip(n / 10);
      var r := NatToString(n);
      assert r[..|r| - 1] == NatToString(n / 10);
    }
  }

  function HexChar(d: nat): char
    requires d < 16
  {
    "0123456789abcdef"[d]
  }

  /** QuoteJSONString's treatment of one code unit. */
  function EscapeChar(c: char): (r: string)
    ensures r != []
    ensures '\n' !in r && '\r' !in r
  {
    if c == '"' then "\\\""
    else if c == '\\' then "\\\\"
    else if c as int == 8 then "\\b"
    else if c == '\t' then "\\t"
    else if c == '\n' then "\\n"
    else if c as int == 12 then "\\f"
    else if c == '\r' then "\\r"
    else if c < ' ' then "\\u00" + [HexChar(c as int / 16), HexChar(c as int % 16)]
    else [c]
  }

  function EscapeAll(s: string): (r: string)
    ensures '\n' !in r && '\r' !in r
  {
    if s == [] then "" else EscapeChar(s[0]) + EscapeAll(s[1..])
  }

  function Quote(s: string): string {
    "\"" + EscapeAll(s) + "\""
  }

  /** Joins the strings with a comma between consecutive ones. */
  function CommaJoin(ss: seq<string>): string {
    if ss == [] then "" else if |ss| == 1 then ss[0] else ss[0] + "," + CommaJoin(ss[1..])
  }

  function Stringify(v: Json): string
    decreases v
  {
    match v
    case JNull => "null"
    case JBool(b) => if b then "true" else "false"
    case JNumber(n) => IntToString(n)
    case JString(s) => Quote(s)
    case JArray(items) =>
      "[" + CommaJoin(seq(|items|, i requires 0 <= i < |items| => Stringify(items[i]))) + "]"
    case JObject(members) =>
      "{" + CommaJoin(seq(|members|, i requires 0 <= i < |members| =>
                            Quote(members[i].0) + ":" + Stringify(members[i].1))) + "}"
  }

  predicate NoLineBreak(s: string) {
    '\n' !in s && '\r' !in s
  }

  lemma {:induction false} CommaJoinNoLineBreak(ss: seq<string>)
    requires forall i :: 0 <= i < |ss| ==> NoLineBreak(ss[i])
    ensures NoLineBreak(CommaJoin(ss))
  {
    if |ss| > 1 {
      CommaJoinNoLineBreak(ss[1..]);
    }
  }

  /** JSON text never contains a line break, so `data:` + JSON is a single line. */
  lemma {:induction false} StringifyNoLineBreak(v: Json)
    ensures NoLineBreak(Stringify(v))
    decreases v
  {
    match v
    case JArray(items) =>
      var parts := seq(|items|, i requires 0 <= i < |items| => Stringify(items[i]));
      forall i | 0 <= i < |parts| ensures NoLineBreak(parts[i]) {
        StringifyNoLineBreak(items[i]);
      }
      CommaJoinNoLineBreak(parts);
    case JObject(members) =>
      var parts := seq(|members|, i requires 0 <= i < |members| =>
                         Quote(members[i].0) + ":" + Stringify(members[i].1));
      forall i | 0 <= i < |parts| ensures NoLineBreak(parts[i]) {
        StringifyNoLineBreak(members[i].1);
      }
      CommaJoinNoLineBreak(parts);
    case _ =>
  }

  /** JSON text is never empty and never starts with a space. */
  lemma StringifyStart(v: Json)
    ensures Stringify(v) != [] && Stringify(v)[0] != ' '
  {
    match v
    case JNumber(n) =>
      if n < 0 { assert Stringify(v)[0] == '-'; } else { assert IsDigit(Stringify(v)[0]); }
    case _ =>
  }

  /** An object with one property: `{"key":value}`. */
  lemma StringifySingleMember(k: string, v: Json)
    ensures Stringify(JObject([(k, v)])) == "{" + Quote(k) + ":" + Stringify(v) + "}"
  {
    var members := [(k, v)];
    var parts := seq(|members|, i requires 0 <= i < |members| => Quote(members[i].0) + ":" + Stringify(members[i].1));
    assert parts == [Quote(k) + ":" + Stringify(v)];
  }

  /** A string made only of characters that need no escape is wrapped in quotes unchanged. */
  lemma {:induction false} QuotePlain(s: string)
    requires forall i :: 0 <= i < |s| ==> s[i] >= ' ' && s[i] != '"' && s[i] != '\\'
    ensures Quote(s) == "\"" + s + "\""
  {
    PlainEscapesToItself(s);
  }

  lemma {:induction false} PlainEscapesToItself(s: string)
    requires forall i :: 0 <= i < |s| ==> s[i] >= ' ' && s[i] != '"' && s[i] != '\\'
    ensures EscapeAll(s) == s
  {
    if s != [] {
      PlainEscapesToItself(s[1..]);
      assert s == [s[0]] + s[1..];
    }
  }
}
