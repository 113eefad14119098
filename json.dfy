/** The part of Jackson's JsonNode tree the enumerator reads: size and
    element access, member lookup, and the asText / asInt / toString views. */
module Json {
  import opened Wrappers
  import Strings

  datatype JsonNode =
    | JNull
    | JBool(b: bool)
    | JInt(i: int)
    | JText(s: string)
    | JArray(items: seq<JsonNode>)
    | JObject(members: seq<Member>)

  datatype Member = Member(name: string, value: JsonNode)

  /** JsonNode.size(): the element count of an array, the member count of an
      object, zero for a scalar. */
  function Size(n: JsonNode): nat {
    match n
    case JArray(items) => |items|
    case JObject(members) => |members|
    case _ => 0
  }

  /** JsonNode.get(int): an array element, or Java null (out of range, or not an array). */
  function Element(n: JsonNode, i: int): (r: Option<JsonNode>)
    ensures r.Some? <==> n.JArray? && 0 <= i < |n.items|
    ensures r.Some? ==> r.value == n.items[i]
  {
    if n.JArray? && 0 <= i < |n.items| then Some(n.items[i]) else None
  }

  /** JsonNode.get(String): the value of the first member with that name, or
      Java null (no such member, or not an object). */
  function Field(n: JsonNode, name: string): (r: Option<JsonNode>)
    ensures r.Some? ==> n.JObject? && exists m :: m in n.members && m.name == name && m.value == r.value
    ensures r.None? ==> !n.JObject? || forall m :: m in n.members ==> m.name != name
  {
    if n.JObject? then FirstMember(n.members, name) else None
  }

  function FirstMember(ms: seq<Member>, name: string): (r: Option<JsonNode>)
    ensures r.Some? ==> exists m :: m in ms && m.name == name && m.value == r.value
    ensures r.None? ==> forall m :: m in ms ==> m.name != name
    decreases |ms|
  {
    if ms == [] then None
    else if ms[0].name == name then Some(ms[0].value)
    else
      var r := FirstMember(ms[1..], name);
      assert forall m :: m in ms ==> m == ms[0] || m in ms[1..];
      r
  }

  const Int32Modulus: int := 0x1_0000_0000

  /** The narrowing cast `(int) v`: keep the low 32 bits, two's complement. */
  function ToInt32(v: int): (r: int)
    ensures -0x8000_0000 <= r < 0x8000_0000
    ensures (r - v) % Int32Modulus == 0
    ensures -0x8000_0000 <= v < 0x8000_0000 ==> r == v
  {
    var low := v % Int32Modulus;
    if low < 0x8000_0000 then low else low - Int32Modulus
  }

  /** A text that is an optional minus sign and one or more decimal digits. */
  predicate IsDecimal(s: string) {
    var digits := if |s| > 0 && s[0] == '-' then s[1..] else s;
    |digits| > 0 && forall i :: 0 <= i < |digits| ==> '0' <= digits[i] <= '9'
  }

  function DigitsValue(s: string): nat
    decreases |s|
  {
    if s == [] then 0
    else DigitsValue(s[..|s| - 1]) * 10 + ((s[|s| - 1] as int - '0' as int) % 10)
  }

  function DecimalValue(s: string): int
    requires IsDecimal(s)
  {
    if s[0] == '-' then 0 - DigitsValue(s[1..]) as int else DigitsValue(s)
  }

  /** TextNode.asInt(): the decimal value of the text when it is an int, zero otherwise. */
  function ParseIntOrZero(s: string): (r: int)
    ensures -0x8000_0000 <= r < 0x8000_0000
  {
    if IsDecimal(s) && -0x8000_0000 <= DecimalValue(s) < 0x8000_0000 then DecimalValue(s) else 0
  }

  /** JsonNode.asText(). */
  function AsText(n: JsonNode): string {
    match n
    case JNull => "null"
    case JBool(b) => if b then "true" else "false"
    case JInt(i) => Strings.IntToString(i)
    case JText(s) => s
    case JArray(_) => ""
    case JObject(_) => ""
  }

  /** JsonNode.asInt(): always a 32-bit value. */
  function AsInt(n: JsonNode): (r: int)
    ensures -0x8000_0000 <= r < 0x8000_0000
    ensures n.JInt? && -0x8000_0000 <= n.i < 0x8000_0000 ==> r == n.i
  {
    match n
    case JNull => 0
    case JBool(b) => if b then 1 else 0
    case JInt(i) => ToInt32(i)
    case JText(s) => ParseIntOrZero(s)
    case JArray(_) => 0
    case JObject(_) => 0
  }

  function Quote(s: string): string {
    "\"" + Escape(s) + "\""
  }

  function Escape(s: string): string
    decreases |s|
  {
    if s == [] then []
    else (if s[0] == '"' || s[0] == '\\' then ['\\', s[0]] else [s[0]]) + Escape(s[1..])
  }

  /** JsonNode.toString(): the node as compact JSON text. */
  function Serialize(n: JsonNode): string {
    match n
    case JNull => "null"
    case JBool(b) => if b then "true" else "false"
    case JInt(i) => Strings.IntToString(i)
    case JText(s) => Quote(s)
    case JArray(items) => "[" + SerializeItems(items) + "]"
    case JObject(members) => "{" + SerializeMembers(members) + "}"
  }

  function SerializeItems(items: seq<JsonNode>): string {
    if items == [] then ""
    else Serialize(items[0]) + (if |items| == 1 then "" else "," + SerializeItems(items[1..]))
  }

  function SerializeMembers(members: seq<Member>): string {
    if members == [] then ""
    else
      Quote(members[0].name) + ":" + Serialize(members[0].value)
      + (if |members| == 1 then "" else "," + SerializeMembers(members[1..]))
  }
}
