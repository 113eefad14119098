/** The closed set of column kinds and the constant table from a declared
    type string to a kind (OpenAPIFieldType). */
module FieldType {
  import opened Wrappers

  datatype FieldKind = Integer | Float | Double | String | Boolean | DateTime | Array | Object

  /** The kinds in declaration order, as `values()` returns them. */
  const Values: seq<FieldKind> := [Integer, Float, Double, String, Boolean, DateTime, Array, Object]

  /** The simple name of the primitive class `boolean`, which BOOLEAN takes
      as its type string. */
  const BooleanPrimitiveSimpleName: string := "boolean"

  /** The type string each kind is registered under. */
  function SimpleName(k: FieldKind): string {
    match k
    case Integer => "integer"
    case Float => "number"
    case Double => "double"
    case String => "string"
    case Boolean => BooleanPrimitiveSimpleName
    case DateTime => "date"
    case Array => "array"
    case Object => "ref"
  }

  /** The static initialiser: `MAP.put(value.simpleName, value)` for each value
      in turn, a later entry overwriting an earlier one with the same name. */
  function Fill(vs: seq<FieldKind>): (m: map<string, FieldKind>)
    ensures forall s :: s in m <==> exists k :: k in vs && SimpleName(k) == s
    ensures forall s :: s in m ==> SimpleName(m[s]) == s && m[s] in vs
    decreases |vs|
  {
    if vs == [] then map[]
    else
      var last := vs[|vs| - 1];
      var init := vs[..|vs| - 1];
      assert vs == init + [last];
      Fill(init)[SimpleName(last) := last]
  }

  /** The table, filled once and never changed afterwards. */
  const Table: map<string, FieldKind> := Fill(Values)

  /** OpenAPIFieldType.of: the kind registered under the string, or none
      (OfIsTableLookup proves this is a lookup in Table). */
  function Of(typeString: string): (r: Option<FieldKind>)
    ensures r.Some? ==> SimpleName(r.value) == typeString
  {
    if typeString == "integer" then Some(Integer)
    else if typeString == "number" then Some(Float)
    else if typeString == "double" then Some(Double)
    else if typeString == "string" then Some(String)
    else if typeString == BooleanPrimitiveSimpleName then Some(Boolean)
    else if typeString == "date" then Some(DateTime)
    else if typeString == "array" then Some(Array)
    else if typeString == "ref" then Some(Object)
    else None
  }

  /** Every kind is in the table. */
  lemma ValuesComplete(k: FieldKind)
    ensures k in Values
  {
  }

  /** No two kinds share a simple name, so no entry overwrote another. */
  lemma SimpleNamesDistinct(k1: FieldKind, k2: FieldKind)
    requires k1 != k2
    ensures SimpleName(k1) != SimpleName(k2)
  {
  }

  /** Round trip: looking a kind's own name up gives that kind back. */
  lemma OfSimpleName(k: FieldKind)
    ensures Of(SimpleName(k)) == Some(k)
  {
  }

  /** `of` is a lookup in the table the static initialiser fills. */
  lemma OfIsTableLookup(s: string)
    ensures Of(s) == (if s in Table then Some(Table[s]) else None)
  {
    if s in Table {
      var k := Table[s];
      assert SimpleName(k) == s;
      OfSimpleName(k);
    } else {
      forall k: FieldKind ensures SimpleName(k) != s {
        ValuesComplete(k);
      }
    }
  }

  /** A string names a kind exactly when it is that kind's simple name. */
  lemma OfCharacterised(s: string, k: FieldKind)
    ensures Of(s) == Some(k) <==> s == SimpleName(k)
  {
    if s == SimpleName(k) {
      OfSimpleName(k);
    }
  }

  /** Any string that is no kind's simple name has no kind. */
  lemma OfUnknown(s: string)
    requires forall k: FieldKind :: SimpleName(k) != s
    ensures Of(s) == None
  {
  }

  /** The lookup is case-sensitive: "Integer" is not a type string. */
  lemma OfIsCaseSensitive()
    ensures Of("Integer") == None && Of("String") == None && Of("integer") == Some(Integer)
  {
  }
}
