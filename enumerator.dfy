/** OpenAPIEnumerator: a one-pass cursor over a fetched response document,
    either an array of rows or a single object, turning each element into a
    row with ArrayRowConverter. */
module Enumerator {
  import opened Wrappers
  import opened Errors
  import opened FieldType
  import opened Json
  import opened Swagger

  /** A row slot: Java null, a raw tree node (for a column without a kind),
      a string, or an int. */
  datatype Value = VNull | VNode(node: JsonNode) | VText(text: string) | VInt(number: int)

  type Row = seq<Value>

  /** The kinds `convert` has a case for. */
  predicate Convertible(k: FieldKind) {
    k == String || k == Integer || k == Object || k == Array
  }

  /** RowConverter.convert: a column without a kind gets the node itself; a
      missing node gives null; STRING, INTEGER, OBJECT and ARRAY are converted;
      every other kind is unsupported. */
  function Convert(kind: Option<FieldKind>, node: Option<JsonNode>): (r: Result<Value, Error>)
    ensures r.Failure? <==> kind.Some? && node.Some? && !Convertible(kind.value)
    ensures r.Failure? ==> r.error == UnsupportedOperation
    ensures kind.None? ==> r == Success(if node.Some? then VNode(node.value) else VNull)
    ensures kind.Some? && node.None? ==> r == Success(VNull)
    ensures r.Success? && r.value.VInt? ==> -0x8000_0000 <= r.value.number < 0x8000_0000
  {
    if kind.None? then Success(if node.Some? then VNode(node.value) else VNull)
    else if node.None? then Success(VNull)
    else
      match kind.value
      case String => Success(VText(AsText(node.value)))
      case Integer => Success(VInt(AsInt(node.value)))
      case Object => Success(VText(Serialize(node.value)))
      case Array => Success(VText(Serialize(node.value)))
      case _ => Failure(UnsupportedOperation)
  }

  /** The conversions of the kinds that are converted. */
  lemma ConvertPresent(k: FieldKind, n: JsonNode)
    requires Convertible(k)
    ensures k == String ==> Convert(Some(k), Some(n)) == Success(VText(AsText(n)))
    ensures k == Integer ==> Convert(Some(k), Some(n)) == Success(VInt(AsInt(n)))
    ensures k == Object || k == Array ==> Convert(Some(k), Some(n)) == Success(VText(Serialize(n)))
  {
  }

  /** A JSON null member is present, so a STRING column reads it as "null"
      and an INTEGER column as 0, not as Java null. */
  lemma ConvertJsonNull()
    ensures Convert(Some(String), Some(JNull)) == Success(VText("null"))
    ensures Convert(Some(Integer), Some(JNull)) == Success(VInt(0))
  {
  }

  /** The index of the first failed conversion. */
  function FirstFailure(cs: seq<Result<Value, Error>>, from: nat): (k: nat)
    requires from < |cs| && exists i :: from <= i < |cs| && cs[i].Failure?
    ensures from <= k < |cs| && cs[k].Failure?
    ensures forall j :: from <= j < k ==> cs[j].Success?
    decreases |cs| - from
  {
    if cs[from].Failure? then from
    else
      assert from + 1 < |cs| by {
        var i :| from <= i < |cs| && cs[i].Failure?;
        assert i != from;
      }
      FirstFailure(cs, from + 1)
  }

  /** A row from its slot conversions: all values when every conversion
      succeeds, else the exception of the first that throws. */
  function Collect(cs: seq<Result<Value, Error>>): (r: Result<Row, Error>)
    ensures r.Success? <==> forall i :: 0 <= i < |cs| ==> cs[i].Success?
    ensures r.Success? ==> |r.value| == |cs| && forall i :: 0 <= i < |cs| ==> r.value[i] == cs[i].value
    ensures r.Failure? ==>
      exists k :: 0 <= k < |cs| && cs[k] == Failure(r.error)
        && forall j :: 0 <= j < k ==> cs[j].Success?
  {
    if forall i :: 0 <= i < |cs| ==> cs[i].Success? then
      Success(seq(|cs|, i requires 0 <= i < |cs| => cs[i].value))
    else
      Failure(cs[FirstFailure(cs, 0)].error)
  }

  class ArrayRowConverter {
    const entityModel: Model
    const order: seq<string>
    const fields: seq<int>

    ghost predicate Valid() {
      && (forall x :: x in order ==> x in Names(entityModel))
      && (forall i :: 0 <= i < |fields| ==> 0 <= fields[i] < |order|)
    }

    constructor (entityModel: Model, order: seq<string>, fields: seq<int>)
      requires forall x :: x in order ==> x in Names(entityModel)
      requires forall i :: 0 <= i < |fields| ==> 0 <= fields[i] < |order|
      ensures Valid()
      ensures this.entityModel == entityModel && this.order == order && this.fields == fields
    {
      this.entityModel := entityModel;
      this.order := order;
      this.fields := fields;
    }

    /** The column read into slot i. */
    function FieldName(i: nat): (name: string)
      requires Valid() && i < |fields|
      ensures name in Names(entityModel)
    {
      order[fields[i]]
    }

    /** The kind of the column read into slot i, from its declared type string. */
    function Kind(i: nat): (r: Option<FieldKind>)
      requires Valid() && i < |fields|
      ensures Lookup(entityModel, FieldName(i)).Some?
      ensures r.Some? ==> SimpleName(r.value) == Lookup(entityModel, FieldName(i)).value.typeName
      ensures r.None? ==> forall k :: SimpleName(k) != Lookup(entityModel, FieldName(i)).value.typeName
    {
      var p := Lookup(entityModel, FieldName(i));
      if p.Some? then Of(p.value.typeName) else assert false; None
    }

    /** Slot i of the row for `node`: the named member converted by the
        column's kind. A null node (no element) fails on the member access. */
    function Cell(node: Option<JsonNode>, i: nat): (r: Result<Value, Error>)
      requires Valid() && i < |fields|
      ensures node.None? ==> r == Failure(NullPointer)
      ensures node.Some? && Field(node.value, FieldName(i)).None? ==> r == Success(VNull)
      ensures node.Some? && Kind(i).None? ==>
        r == Success(if Field(node.value, FieldName(i)).Some? then VNode(Field(node.value, FieldName(i)).value) else VNull)
      ensures r.Failure? ==> r.error == NullPointer || (r.error == UnsupportedOperation && !Convertible(Kind(i).value))
    {
      if node.None? then Failure(NullPointer)
      else Convert(Kind(i), Field(node.value, FieldName(i)))
    }

    /** Every slot of the row for `node`, converted independently. */
    function Cells(node: Option<JsonNode>): (cs: seq<Result<Value, Error>>)
      requires Valid()
      ensures |cs| == |fields| && forall i :: 0 <= i < |fields| ==> cs[i] == Cell(node, i)
    {
      seq(|fields|, i requires 0 <= i < |fields| => Cell(node, i))
    }

    /** convertRow, as a value: one slot per projected field, or the exception
        of the first slot that throws. */
    function RowOf(node: Option<JsonNode>): Result<Row, Error>
      requires Valid()
    {
      Collect(Cells(node))
    }

    /** ArrayRowConverter.convertRow: fills a fresh array slot by slot. */
    method ConvertRow(node: Option<JsonNode>) returns (r: Result<Row, Error>)
      requires Valid()
      ensures r == RowOf(node)
    {
      var objects := new Value[|fields|];
      var i := 0;
      while i < |fields|
        invariant 0 <= i <= |fields|
        invariant forall j :: 0 <= j < i ==> Cell(node, j).Success? && objects[j] == Cell(node, j).value
      {
        var cell := Cell(node, i);
        if cell.Failure? {
          assert FirstFailure(Cells(node), 0) == i;
          return Failure(cell.error);
        }
        objects[i] := cell.value;
        i := i + 1;
      }
      ghost var cs := Cells(node);
      assert forall j :: 0 <= j < |cs| ==> cs[j].Success?;
      assert objects[..] == seq(|cs|, j requires 0 <= j < |cs| => cs[j].value);
      return Success(objects[..]);
    }
  }

  /** Whether the endpoint's 200 response is declared as an array; a GET or
      a 200 response that is missing is a null dereference. */
  function ResponseIsArray(sourcePath: PathEntry): (r: Result<bool, Error>)
    ensures r.Failure? <==> sourcePath.get.None? || "200" !in sourcePath.get.value.responses
    ensures r.Failure? ==> r.error == NullPointer
    ensures r == Success(true) <==>
      && sourcePath.get.Some? && "200" in sourcePath.get.value.responses
      && sourcePath.get.value.responses["200"].schema == Some(ArrayModel)
  {
    if sourcePath.get.None? || "200" !in sourcePath.get.value.responses then Failure(NullPointer)
    else Success(sourcePath.get.value.responses["200"].schema == Some(ArrayModel))
  }

  class OpenAPIEnumerator {
    const converter: ArrayRowConverter
    const sourcePath: PathEntry
    const root: JsonNode
    var rootIndex: int
    var current: Option<Row>

    /** How far the cursor can advance: one step per element of an array
        response, one step for a single object. */
    function Limit(): nat {
      match ResponseIsArray(sourcePath)
      case Success(true) => Size(root)
      case Success(false) => 1
      case Failure(_) => 0
    }

    ghost predicate Valid()
      reads this
    {
      && converter.Valid() && 0 <= rootIndex <= Limit()
      && (rootIndex == 0 ==> current.None?)
      && (current.Some? ==> |current.value| == |converter.fields|)
    }

    /** The document is read once, here; the cursor starts before the first row. */
    constructor (document: JsonNode, entityModel: Model, order: seq<string>, fields: seq<int>, sourcePath: PathEntry)
      requires forall x :: x in order ==> x in Names(entityModel)
      requires forall i :: 0 <= i < |fields| ==> 0 <= fields[i] < |order|
      ensures Valid()
      ensures root == document && this.sourcePath == sourcePath
      ensures converter.entityModel == entityModel && converter.order == order && converter.fields == fields
      ensures rootIndex == 0 && current == None
    {
      this.sourcePath := sourcePath;
      this.converter := new ArrayRowConverter(entityModel, order, fields);
      this.root := document;
      this.rootIndex := 0;
      this.current := None;
    }

    /** close: not supported. */
    method Close() returns (r: Result<(), Error>)
      ensures r == Failure(UnsupportedOperation)
    {
      return Failure(UnsupportedOperation);
    }

    /** reset: not supported; the cursor cannot be rewound. */
    method Reset() returns (r: Result<(), Error>)
      ensures r == Failure(UnsupportedOperation)
    {
      return Failure(UnsupportedOperation);
    }

    /** current: the row the last successful moveNext stored; there is none
        before the first, and a row has one slot per projected field. */
    function Current(): (r: Option<Row>)
      requires Valid()
      reads this
      ensures r == current
      ensures rootIndex == 0 ==> r.None?
      ensures r.Some? ==> |r.value| == |converter.fields|
    {
      current
    }

    /** moveNext: advance to the next element and convert it. It returns
        false exactly when the cursor is at its limit; then an array cursor
        clears `current` and a single-object cursor keeps it. */
    method MoveNext() returns (r: Result<bool, Error>)
      requires Valid()
      modifies this
      ensures Valid()
      ensures ResponseIsArray(sourcePath).Failure? ==>
        r == Failure(ResponseIsArray(sourcePath).error)
        && rootIndex == old(rootIndex) && current == old(current)
      ensures ResponseIsArray(sourcePath).Success? ==>
        (r == Success(false) <==> old(rootIndex) == Limit())
      ensures r == Success(false) ==>
        rootIndex == old(rootIndex)
        && current == (if ResponseIsArray(sourcePath) == Success(true) then None else old(current))
      ensures r == Success(true) ==> rootIndex == old(rootIndex) + 1 && current.Some?
      ensures ResponseIsArray(sourcePath) == Success(true) && old(rootIndex) < Limit() ==>
        var row := converter.RowOf(Element(root, old(rootIndex)));
        && rootIndex == old(rootIndex) + 1
        && (row.Success? ==> r == Success(true) && current == Some(row.value))
        && (row.Failure? ==> r == Failure(row.error) && current == old(current))
      ensures ResponseIsArray(sourcePath) == Success(false) && old(rootIndex) == 0 ==>
        var row := converter.RowOf(Some(root));
        && (row.Success? ==> r == Success(true) && current == Some(row.value) && rootIndex == 1)
        && (row.Failure? ==> r == Failure(row.error) && current == old(current) && rootIndex == 0)
    {
      var isArray := ResponseIsArray(sourcePath);
      if isArray.Failure? {
        return Failure(isArray.error);
      }
      if isArray.value {
        if rootIndex == Size(root) {
          current := None;
          return Success(false);
        }
        var currentNode := Element(root, rootIndex);
        rootIndex := rootIndex + 1;
        var row := converter.ConvertRow(currentNode);
        if row.Failure? {
          return Failure(row.error);
        }
        current := Some(row.value);
        return Success(true);
      } else {
        if rootIndex == 0 {
          var row := converter.ConvertRow(Some(root));
          if row.Failure? {
            return Failure(row.error);
          }
          current := Some(row.value);
          rootIndex := 1;
          return Success(true);
        }
        return Success(false);
      }
    }
  }
}
