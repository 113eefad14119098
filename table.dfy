/** OpenAPITable: one entity of a Swagger catalog as a filterable table. The
    column order is fixed at construction; `scan` resolves the push-down filter
    to one GET endpoint and records it, with the request target, in the two
    mutable fields `sourcePath` and `sourceURL`. */
module Table {
  import opened Wrappers
  import opened Errors
  import opened Strings
  import Ordering
  import opened FieldType
  import opened Swagger

  /** lowerCaseFirst: the first character lowered, the rest kept; an empty
      string is an IllegalArgumentException. */
  function LowerCaseFirst(s: string): (r: Result<string, Error>)
    ensures r.Failure? <==> s == []
    ensures r.Failure? ==> r.error == EmptyInput
    ensures r.Success? ==> |r.value| == |s| && r.value[0] == LowerChar(s[0]) && r.value[1..] == s[1..]
  {
    if s == [] then Failure(EmptyInput) else Success([LowerChar(s[0])] + s[1..])
  }

  /** encode: a CHAR literal's text loses exactly its first and last character
      (the quotes); any other literal's text is used as it is. */
  function Encode(typeName: string, text: string): (r: Result<string, Error>)
    ensures typeName != "CHAR" ==> r == Success(text)
    ensures typeName == "CHAR" && |text| >= 2 ==>
      r.Success? && text == [text[0]] + r.value + [text[|text| - 1]]
    ensures typeName == "CHAR" && |text| < 2 ==> r == Failure(StringIndexOutOfBounds)
  {
    if typeName == "CHAR" then
      if |text| >= 2 then Success(text[1..|text| - 1]) else Failure(StringIndexOutOfBounds)
    else Success(text)
  }

  /** isLocalFile: the document declares no schemes. */
  predicate IsLocalFile(sw: Swagger) {
    sw.schemes.None?
  }

  /** url: `scheme://` (from the first declared scheme, or nothing when none
      are declared), then host, basePath and the path key. An empty scheme
      list makes `get(0)` fail. */
  function Url(sw: Swagger, path: string): (r: Result<string, Error>)
    ensures r.Failure? <==> sw.schemes == Some([])
    ensures r.Failure? ==> r.error == IndexOutOfBounds(0)
    ensures r.Success? ==>
      var tail := JavaString(sw.host) + JavaString(sw.basePath) + path;
      if IsLocalFile(sw) then r.value == tail else r.value == sw.schemes.value[0] + "://" + tail
  {
    var prefix :- if IsLocalFile(sw) then Success("")
                  else if |sw.schemes.value| == 0 then Failure(IndexOutOfBounds(0))
                  else Success(sw.schemes.value[0] + "://");
    Success(prefix + JavaString(sw.host) + JavaString(sw.basePath) + path)
  }

  function Placeholder(param: string): string {
    "{" + param + "}"
  }

  /** The request target built from a base URL: when it contains '{', every
      `{param}` is replaced by the value; otherwise `?column=value` is appended. */
  function BuildTarget(base: string, param: string, column: string, value: string): (r: string)
    ensures '{' !in base ==> r == base + "?" + column + "=" + value
  {
    if '{' in base then ReplaceAll(base, Placeholder(param), value)
    else base + "?" + column + "=" + value
  }

  /** A base URL with a '{' but without this parameter's placeholder is used
      as it is: the value is dropped. */
  lemma TargetWithoutPlaceholder(base: string, param: string, column: string, value: string)
    requires '{' in base
    requires forall k: nat :: !OccursAt(base, Placeholder(param), k)
    ensures BuildTarget(base, param, column, value) == base
  {
    ReplaceAbsent(base, Placeholder(param), value);
  }

  /** A path template whose only '{' opens the placeholder of its parameter
      has the placeholder replaced by the value and nothing else changed. */
  lemma TargetSubstitutesPlaceholder(prefix: string, param: string, suffix: string, column: string, value: string)
    requires '{' !in prefix
    ensures BuildTarget(prefix + Placeholder(param) + suffix, param, column, value)
            == prefix + value + ReplaceAll(suffix, Placeholder(param), value)
  {
    var base := prefix + Placeholder(param) + suffix;
    assert base[|prefix|] == '{';
    ReplacePlaceholder(prefix, Placeholder(param), suffix, value);
  }

  /** The column alias of a parameter: when the parameter starts with the
      lower-cased entity name, the rest with its first character lowered
      (`petId` for entity `Pet` gives `id`); otherwise the empty string. */
  function Alias(entity: string, param: string): (r: Result<string, Error>)
    ensures !StartsWith(param, ToLower(entity)) ==> r == Success("")
    ensures r.Failure? <==> StartsWith(param, ToLower(entity)) && |param| == |entity|
    ensures r.Failure? ==> r.error == EmptyInput
  {
    if StartsWith(param, ToLower(entity)) then LowerCaseFirst(param[|entity|..]) else Success("")
  }

  lemma AliasOfPrefixed(entity: string, rest: string)
    requires rest != []
    ensures Alias(entity, ToLower(entity) + rest) == Success([LowerChar(rest[0])] + rest[1..])
  {
    var param := ToLower(entity) + rest;
    assert param[..|ToLower(entity)|] == ToLower(entity);
    assert param[|entity|..] == rest;
  }

  /** A parameter named exactly like the lower-cased entity makes the alias
      computation throw. */
  lemma AliasOfBareEntityThrows(entity: string)
    ensures Alias(entity, ToLower(entity)) == Failure(EmptyInput)
  {
    var param := ToLower(entity);
    assert param[..|param|] == param;
    assert param[|entity|..] == [];
  }

  lemma AliasOfUnprefixed(entity: string, param: string)
    requires !StartsWith(param, ToLower(entity))
    ensures Alias(entity, param) == Success("")
  {
  }

  /** In the PetStore catalog the parameter `petId` serves the column `id` of
      the entity `Pet`. */
  lemma PetIdAlias()
    ensures Alias("Pet", "petId") == Success("id")
  {
    assert ToLower("Pet") == "pet";
    AliasOfPrefixed("Pet", "Id");
    assert ToLower("Pet") + "Id" == "petId";
    assert [LowerChar('I')] + "d" == "id";
  }

  /** The PetStore base URL followed by a path key; the scheme `http` of the
      catalog prints as the enum constant `HTTP`. */
  lemma PetStoreUrl()
    ensures Url(Swagger(Some(["HTTP"]), Some("petstore.swagger.io"), Some("/v2"), [], map[]), "/pet/{petId}")
            == Success("HTTP://petstore.swagger.io/v2/pet/{petId}")
  {
    assert "HTTP" + "://" + ("petstore.swagger.io" + "/v2" + "/pet/{petId}")
        == "HTTP://petstore.swagger.io/v2/pet/{petId}";
  }

  /** The PetStore URL of the pet collection. */
  const PetPrefix: string := "HTTP://petstore.swagger.io/v2/pet/"

  lemma PetPrefixHasNoBrace()
    ensures '{' !in PetPrefix
  {
    assert forall i :: 0 <= i < |PetPrefix| ==> PetPrefix[i] != '{';
  }

  /** `/pet/{petId}` gets the value in place of its placeholder. */
  lemma PetByIdTarget()
    ensures BuildTarget(PetPrefix + "{petId}", "petId", "id", "109") == PetPrefix + "109"
  {
    PetPrefixHasNoBrace();
    assert PetPrefix + Placeholder("petId") + "" == PetPrefix + "{petId}";
    TargetSubstitutesPlaceholder(PetPrefix, "petId", "", "id", "109");
    assert ReplaceAll("", Placeholder("petId"), "109") == "";
    assert PetPrefix + "109" + "" == PetPrefix + "109";
  }

  /** The name of the only parameter of an entry's GET, when its GET has
      exactly one parameter. */
  function SoleParameter(e: PathEntry): Option<string> {
    if e.get.Some? && e.get.value.parameters.Some? && |e.get.value.parameters.value| == 1
    then Some(e.get.value.parameters.value[0].name)
    else None
  }

  /** The filter predicate over path entries: an entry serves a column when its
      sole parameter is named like the column or has the column as alias. */
  function EntryMatches(e: PathEntry, entity: string, column: string): (r: Result<bool, Error>)
    ensures SoleParameter(e).None? ==> r == Success(false)
    ensures SoleParameter(e).Some? ==>
      var p := SoleParameter(e).value;
      && (r.Failure? <==> Alias(entity, p).Failure?)
      && (r.Failure? ==> r.error == EmptyInput)
      && (r == Success(true) <==> Alias(entity, p).Success? && (p == column || Alias(entity, p).value == column))
  {
    match SoleParameter(e)
    case None => Success(false)
    case Some(p) =>
      var alias :- Alias(entity, p);
      Success(p == column || alias == column)
  }

  /** `stream().filter(...).findFirst()` over the entries from index `from`:
      the first entry that serves the column, none, or the exception of the
      first entry whose test throws, whichever comes first. */
  function FirstMatch(paths: seq<PathEntry>, entity: string, column: string, from: nat): (r: Result<Option<nat>, Error>)
    requires from <= |paths|
    ensures r.Success? && r.value.Some? ==>
      var i := r.value.value;
      from <= i < |paths| && EntryMatches(paths[i], entity, column) == Success(true)
      && forall j :: from <= j < i ==> EntryMatches(paths[j], entity, column) == Success(false)
    ensures r == Success(None) ==>
      forall j :: from <= j < |paths| ==> EntryMatches(paths[j], entity, column) == Success(false)
    ensures r.Failure? ==>
      exists i :: from <= i < |paths| && EntryMatches(paths[i], entity, column) == Failure(r.error)
        && forall j :: from <= j < i ==> EntryMatches(paths[j], entity, column) == Success(false)
    decreases |paths| - from
  {
    if from == |paths| then Success(None)
    else
      match EntryMatches(paths[from], entity, column)
      case Failure(e) => Failure(e)
      case Success(true) => Success(Some(from))
      case Success(false) => FirstMatch(paths, entity, column, from + 1)
  }

  /** When every entry's test returns false, findFirst finds nothing. */
  lemma {:induction false} FirstMatchNone(paths: seq<PathEntry>, entity: string, column: string, from: nat)
    requires from <= |paths|
    requires forall j :: from <= j < |paths| ==> EntryMatches(paths[j], entity, column) == Success(false)
    ensures FirstMatch(paths, entity, column, from) == Success(None)
    decreases |paths| - from
  {
    if from < |paths| {
      FirstMatchNone(paths, entity, column, from + 1);
    }
  }

  /** findFirst finds the first entry whose test holds when every earlier
      test returns false. */
  lemma {:induction false} FirstMatchFinds(paths: seq<PathEntry>, entity: string, column: string, from: nat, i: nat)
    requires from <= i < |paths|
    requires EntryMatches(paths[i], entity, column) == Success(true)
    requires forall j :: from <= j < i ==> EntryMatches(paths[j], entity, column) == Success(false)
    ensures FirstMatch(paths, entity, column, from) == Success(Some(i))
    decreases i - from
  {
    if from < i {
      FirstMatchFinds(paths, entity, column, from + 1, i);
    }
  }

  /** findFirst throws the exception of the first test that throws when every
      earlier test returns false. */
  lemma {:induction false} FirstMatchThrows(paths: seq<PathEntry>, entity: string, column: string, from: nat, i: nat)
    requires from <= i < |paths|
    requires EntryMatches(paths[i], entity, column).Failure?
    requires forall j :: from <= j < i ==> EntryMatches(paths[j], entity, column) == Success(false)
    ensures FirstMatch(paths, entity, column, from) == Failure(EntryMatches(paths[i], entity, column).error)
    decreases i - from
  {
    if from < i {
      FirstMatchThrows(paths, entity, column, from + 1, i);
    }
  }

  /** The only filter shape findSourcePath resolves: an EQUALS of a column
      reference and a literal, in that order. */
  predicate ColumnEquality(filter: RexNode) {
    && filter.Equals? && |filter.operands| == 2
    && filter.operands[0].InputRef? && filter.operands[1].Literal?
  }

  /** An equality filter resolved against one endpoint. */
  datatype Match = Match(entry: PathEntry, param: string, column: string, value: string)

  /** What one `findSourcePath` call does: maps the filter to an endpoint and
      a request target, maps nothing, or throws (possibly after it already
      recorded the endpoint in `sourcePath`). */
  datatype Probe =
    | NoMap
    | Maps(entry: PathEntry, target: string)
    | Throws(error: Error, wrotePath: Option<PathEntry>)

  /** The two mutable fields of the table. */
  datatype Slots = Slots(path: Option<PathEntry>, url: Option<string>)

  /** The fields after a `findSourcePath` call with outcome `p`. */
  function Apply(s: Slots, p: Probe): Slots {
    match p
    case NoMap => s
    case Maps(e, t) => Slots(Some(e), Some(t))
    case Throws(_, w) => if w.Some? then Slots(w, s.url) else s
  }

  /** The value `findSourcePath` returns (or the exception it throws). */
  function Outcome(p: Probe): Result<bool, Error> {
    match p
    case NoMap => Success(false)
    case Maps(_, _) => Success(true)
    case Throws(e, _) => Failure(e)
  }

  /** What `scan` hands to the enumerator: the request target, the endpoint
      and the projected field indices. */
  datatype Plan = Plan(sourceURL: string, sourcePath: PathEntry, fields: seq<nat>)

  function Zip(names: seq<string>, kinds: seq<FieldKind>): (r: seq<(string, FieldKind)>)
    requires |names| == |kinds|
    ensures |r| == |names|
    ensures forall i :: 0 <= i < |r| ==> r[i] == (names[i], kinds[i])
  {
    seq(|names|, i requires 0 <= i < |names| => (names[i], kinds[i]))
  }

  /** The AND branch of scan: findSourcePath on each operand in turn, counting
      those that map, until one throws. Gives the count (or the exception)
      and the fields afterwards. */
  function RunAnd(ps: seq<Probe>, s0: Slots): (Result<nat, Error>, Slots)
    decreases |ps|
  {
    if ps == [] then (Success(0), s0)
    else
      var prev := RunAnd(ps[..|ps| - 1], s0);
      if prev.0.Failure? then prev
      else
        var p := ps[|ps| - 1];
        (Count(prev.0.value, p), Apply(prev.1, p))
  }

  /** The count after one more operand with outcome `p`. */
  function Count(count: nat, p: Probe): Result<nat, Error> {
    match p
    case NoMap => Success(count)
    case Maps(_, _) => Success(count + 1)
    case Throws(e, _) => Failure(e)
  }

  /** One more operand of the AND branch, while no earlier one has thrown. */
  lemma RunAndStep(ps: seq<Probe>, i: nat, s0: Slots)
    requires i < |ps| && RunAnd(ps[..i], s0).0.Success?
    ensures var prev := RunAnd(ps[..i], s0);
      RunAnd(ps[..i + 1], s0) == (Count(prev.0.value, ps[i]), Apply(prev.1, ps[i]))
  {
    assert ps[..i + 1][..i] == ps[..i];
  }

  /** A positive count means some operand mapped, so both fields are set. */
  lemma {:induction false} RunAndRecords(ps: seq<Probe>, s0: Slots)
    requires RunAnd(ps, s0).0.Success? && RunAnd(ps, s0).0.value > 0
    ensures RunAnd(ps, s0).1.path.Some? && RunAnd(ps, s0).1.url.Some?
    decreases |ps|
  {
    var n := |ps| - 1;
    var prev := RunAnd(ps[..n], s0);
    if !ps[n].Maps? {
      RunAndRecords(ps[..n], s0);
    }
  }

  /** The operands (by index) that map to an endpoint. */
  function MappedIndices(ps: seq<Probe>): set<nat> {
    set j: nat | j < |ps| && ps[j].Maps?
  }

  /** The mapped operands of a sequence are those of all but its last
      operand, plus the last one when it maps. */
  lemma MappedIndicesSnoc(ps: seq<Probe>)
    requires ps != []
    ensures var n := |ps| - 1;
      n !in MappedIndices(ps[..n]) &&
      MappedIndices(ps) == MappedIndices(ps[..n]) + (if ps[n].Maps? then {n} else {})
  {
    var n := |ps| - 1;
    var init := ps[..n];
    forall j: nat ensures j in MappedIndices(ps) <==> j in MappedIndices(init) + (if ps[n].Maps? then {n} else {}) {
      if j < n {
        assert init[j] == ps[j];
      }
    }
  }

  /** Without an exception, the AND branch counts exactly the mapped operands,
      and leaves the fields alone when none maps. */
  lemma {:induction false} RunAndCounts(ps: seq<Probe>, s0: Slots)
    requires forall j :: 0 <= j < |ps| ==> !ps[j].Throws?
    ensures RunAnd(ps, s0).0 == Success(|MappedIndices(ps)|)
    ensures MappedIndices(ps) == {} ==> RunAnd(ps, s0).1 == s0
    decreases |ps|
  {
    if ps != [] {
      var n := |ps| - 1;
      var init := ps[..n];
      assert forall j :: 0 <= j < n ==> init[j] == ps[j];
      RunAndCounts(init, s0);
      MappedIndicesSnoc(ps);
      if ps[n].Maps? {
        assert n in MappedIndices(ps);
      }
    }
  }

  /** Without an exception, the fields end up holding the endpoint and target
      of the last operand that maps. */
  lemma {:induction false} RunAndKeepsLast(ps: seq<Probe>, s0: Slots, k: nat)
    requires forall j :: 0 <= j < |ps| ==> !ps[j].Throws?
    requires k < |ps| && ps[k].Maps?
    requires forall j :: k < j < |ps| ==> ps[j].NoMap?
    ensures RunAnd(ps, s0).1 == Slots(Some(ps[k].entry), Some(ps[k].target))
    decreases |ps|
  {
    var n := |ps| - 1;
    var init := ps[..n];
    assert forall j :: 0 <= j < n ==> init[j] == ps[j];
    RunAndCounts(init, s0);
    if k < n {
      RunAndKeepsLast(init, s0, k);
    }
  }

  /** The first exception among the operands aborts the AND branch. */
  lemma {:induction false} RunAndThrows(ps: seq<Probe>, s0: Slots, k: nat)
    requires k < |ps| && ps[k].Throws?
    requires forall j :: 0 <= j < k ==> !ps[j].Throws?
    ensures RunAnd(ps, s0).0 == Failure(ps[k].error)
    decreases |ps|
  {
    var n := |ps| - 1;
    var init := ps[..n];
    assert forall j :: 0 <= j < n ==> init[j] == ps[j];
    if k < n {
      RunAndThrows(init, s0, k);
    } else {
      assert init == ps[..k];
      RunAndCounts(init, s0);
    }
  }

  /** The AND branch succeeds exactly when no operand throws and exactly one
      operand maps; the fields then hold that operand's endpoint and target. */
  lemma AndSucceedsIffExactlyOne(ps: seq<Probe>, s0: Slots)
    ensures RunAnd(ps, s0).0 == Success(1) <==>
      (forall j :: 0 <= j < |ps| ==> !ps[j].Throws?) && |MappedIndices(ps)| == 1
    ensures forall k :: (0 <= k < |ps| && MappedIndices(ps) == {k}
                         && forall j :: 0 <= j < |ps| ==> !ps[j].Throws?) ==>
              RunAnd(ps, s0).1 == Slots(Some(ps[k].entry), Some(ps[k].target))
  {
    if exists k :: 0 <= k < |ps| && ps[k].Throws? {
      var k := FirstThrow(ps);
      RunAndThrows(ps, s0, k);
    } else {
      RunAndCounts(ps, s0);
      forall k | 0 <= k < |ps| && MappedIndices(ps) == {k}
        ensures RunAnd(ps, s0).1 == Slots(Some(ps[k].entry), Some(ps[k].target))
      {
        assert k in MappedIndices(ps);
        forall j | k < j < |ps| ensures ps[j].NoMap? {
          assert j !in MappedIndices(ps);
        }
        RunAndKeepsLast(ps, s0, k);
      }
    }
  }

  /** Once a prefix of the operands throws, the whole AND branch throws the
      same exception and leaves the fields as that prefix left them. */
  lemma {:induction false} PrefixAborts(ps: seq<Probe>, n: nat, s0: Slots)
    requires n <= |ps| && RunAnd(ps[..n], s0).0.Failure?
    ensures RunAnd(ps, s0) == RunAnd(ps[..n], s0)
    decreases |ps| - n
  {
    if n < |ps| {
      assert ps[..n + 1][..n] == ps[..n];
      PrefixAborts(ps, n + 1, s0);
    } else {
      assert ps[..n] == ps;
    }
  }

  function FirstThrow(ps: seq<Probe>): (k: nat)
    requires exists k :: 0 <= k < |ps| && ps[k].Throws?
    ensures k < |ps| && ps[k].Throws?
    ensures forall j :: 0 <= j < k ==> !ps[j].Throws?
    decreases |ps|
  {
    if ps[0].Throws? then 0
    else
      assert exists k :: 0 <= k < |ps[1..]| && ps[1..][k].Throws? by {
        var k :| 0 <= k < |ps| && ps[k].Throws?;
        assert ps[1..][k - 1] == ps[k];
      }
      1 + FirstThrow(ps[1..])
  }

  class OpenAPITable {
    const swagger: Swagger
    const entity: string
    const entityModel: Model
    const order: seq<string>
    var sourceURL: Option<string>
    var sourcePath: Option<PathEntry>

    /** The table's invariant: its model is the entity's definition and
        `order` is that model's property names, sorted. */
    ghost predicate Valid() {
      && entity in swagger.definitions
      && entityModel == swagger.definitions[entity]
      && Ordering.Distinct(Names(entityModel))
      && order == Ordering.Sort(Names(entityModel))
      && forall x :: x in order ==> x in Names(entityModel)
    }

    constructor (swagger: Swagger, entity: string)
      requires entity in swagger.definitions && Ordering.Distinct(Names(swagger.definitions[entity]))
      ensures Valid()
      ensures this.swagger == swagger && this.entity == entity
      ensures sourceURL == None && sourcePath == None
    {
      this.swagger := swagger;
      this.sourceURL := None;
      this.sourcePath := None;
      this.entity := entity;
      this.entityModel := swagger.definitions[entity];
      this.order := Ordering.Sort(Names(swagger.definitions[entity]));
      new;
      forall x | x in order ensures x in Names(entityModel) {
        Ordering.SortSameElements(Names(entityModel), x);
      }
    }

    /** `order` is the entity's property names in ascending order, each once. */
    lemma OrderIsSortedPropertyNames()
      requires Valid()
      ensures Ordering.StrictlySorted(order)
      ensures forall x :: x in order <==> x in Names(entityModel)
      ensures |order| == |entityModel.properties|
    {
      forall x ensures x in order <==> x in Names(entityModel) {
        Ordering.SortSameElements(Names(entityModel), x);
      }
      assert |multiset(order)| == |multiset(Names(entityModel))|;
    }

    /** The declared type string of a column; under Valid() every column of
        `order` has one (OrderIsSortedPropertyNames). */
    function ColumnType(name: string): string {
      var p := Lookup(entityModel, name);
      if p.Some? then p.value.typeName else ""
    }

    /** getRowType: one (name, kind) pair per column in `order`; at the first
        column whose type string has no kind, an "unknown type" error naming
        that type string and column. */
    method GetRowType() returns (r: Result<seq<(string, FieldKind)>, Error>)
      ensures r.Success? <==> forall i :: 0 <= i < |order| ==> Of(ColumnType(order[i])).Some?
      ensures r.Success? ==>
        |r.value| == |order|
        && forall i :: 0 <= i < |order| ==> r.value[i] == (order[i], Of(ColumnType(order[i])).value)
      ensures r.Failure? ==>
        exists i :: 0 <= i < |order|
          && Of(ColumnType(order[i])).None?
          && (forall j :: 0 <= j < i ==> Of(ColumnType(order[j])).Some?)
          && r.error == UnknownType(ColumnType(order[i]), order[i])
    {
      var fieldNames: seq<string> := [];
      var types: seq<FieldKind> := [];
      var i := 0;
      while i < |order|
        invariant 0 <= i <= |order|
        invariant |fieldNames| == i == |types|
        invariant forall j :: 0 <= j < i ==>
          fieldNames[j] == order[j] && Of(ColumnType(order[j])) == Some(types[j])
      {
        var fieldName := order[i];
        fieldNames := fieldNames + [fieldName];
        var typeString := ColumnType(fieldName);
        var fieldType := Of(typeString);
        if fieldType.None? {
          r := Failure(UnknownType(typeString, fieldName));
          assert Of(ColumnType(order[i])).None?;
          return;
        }
        types := types + [fieldType.value];
        i := i + 1;
      }
      return Success(Zip(fieldNames, types));
    }

    /** The pure part of findSourcePath, up to `findFirst`: the filter must be
        an EQUALS of a column reference and a literal, and some endpoint must
        serve the column. */
    function FindMatch(filter: RexNode): (r: Result<Option<Match>, Error>)
      ensures !ColumnEquality(filter) ==> r == Success(None)
      ensures ColumnEquality(filter) ==>
        var v := Encode(filter.operands[1].typeName, filter.operands[1].text);
        var idx := filter.operands[0].index;
        && (v.Failure? ==> r == Failure(v.error))
        && (v.Success? && !(0 <= idx < |order|) ==> r == Failure(IndexOutOfBounds(idx)))
        && (v.Success? && 0 <= idx < |order| ==>
              var found := FirstMatch(swagger.paths, entity, order[idx], 0);
              && (found.Failure? ==> r == Failure(found.error))
              && (found == Success(None) ==> r == Success(None))
              && (found.Success? && found.value.Some? ==>
                    r.Success? && r.value.Some?
                    && r.value.value.entry == swagger.paths[found.value.value]
                    && r.value.value.value == v.value))
      ensures r.Success? && r.value.Some? ==>
        var m := r.value.value;
        && filter.Equals? && |filter.operands| == 2
        && filter.operands[0].InputRef? && filter.operands[1].Literal?
        && 0 <= filter.operands[0].index < |order|
        && m.column == order[filter.operands[0].index]
        && Encode(filter.operands[1].typeName, filter.operands[1].text) == Success(m.value)
        && exists i :: 0 <= i < |swagger.paths|
             && m.entry == swagger.paths[i]
             && SoleParameter(m.entry) == Some(m.param)
             && EntryMatches(m.entry, entity, m.column) == Success(true)
             && forall j :: 0 <= j < i ==> EntryMatches(swagger.paths[j], entity, m.column) == Success(false)
    {
      if !filter.Equals? || |filter.operands| != 2 then Success(None)
      else
        var columnNode := filter.operands[0];
        var inputNode := filter.operands[1];
        if !columnNode.InputRef? || !inputNode.Literal? then Success(None)
        else
          var value :- Encode(inputNode.typeName, inputNode.text);
          var columnIndex := columnNode.index;
          if !(0 <= columnIndex < |order|) then Failure(IndexOutOfBounds(columnIndex))
          else
            var columnName := order[columnIndex];
            var found :- FirstMatch(swagger.paths, entity, columnName, 0);
            match found
            case None => Success(None)
            case Some(i) =>
              var e := swagger.paths[i];
              var p := SoleParameter(e);
              if p.Some? then Success(Some(Match(e, p.value, columnName, value)))
              else assert false; Success(None)
    }

    /** The outcome of a findSourcePath call on the filter. */
    function ProbeOf(filter: RexNode): Probe {
      match FindMatch(filter)
      case Failure(e) => Throws(e, None)
      case Success(None) => NoMap
      case Success(Some(m)) =>
        match Url(swagger, m.entry.key)
        case Failure(e) => Throws(e, Some(m.entry))
        case Success(u) => Maps(m.entry, BuildTarget(u, m.param, m.column, m.value))
    }

    /** findSourcePath. It returns false, changing nothing, when the filter
        does not map; on a match it records the endpoint and the request
        target. */
    method FindSourcePath(filter: RexNode) returns (r: Result<bool, Error>)
      modifies this
      ensures r == Outcome(ProbeOf(filter))
      ensures Slots(sourcePath, sourceURL) == Apply(old(Slots(sourcePath, sourceURL)), ProbeOf(filter))
    {
      var found := FindMatch(filter);
      if found.Failure? {
        return Failure(found.error);
      }
      if found.value.None? {
        return Success(false);
      }
      var m := found.value.value;
      sourcePath := Some(m.entry);
      var base := Url(swagger, m.entry.key);
      if base.Failure? {
        return Failure(base.error);
      }
      sourceURL := Some(BuildTarget(base.value, m.param, m.column, m.value));
      return Success(true);
    }

    /** What a filter that is not a well-formed column = literal equality
        does: return false without touching the fields. */
    lemma ProbeOfNonEquality(filter: RexNode)
      requires || !filter.Equals?
               || |filter.operands| != 2
               || !filter.operands[0].InputRef?
               || !filter.operands[1].Literal?
      ensures ProbeOf(filter) == NoMap
      ensures forall s :: Apply(s, ProbeOf(filter)) == s
    {
    }

    /** A filter maps exactly when it is a column = literal equality, its
        literal encodes, its column exists and the first endpoint whose test
        does not return false serves that column; the target is then built
        from that endpoint's URL. */
    lemma ProbeMaps(filter: RexNode)
      requires ProbeOf(filter).Maps?
      ensures filter.Equals? && |filter.operands| == 2
      ensures filter.operands[0].InputRef? && filter.operands[1].Literal?
      ensures 0 <= filter.operands[0].index < |order|
      ensures exists i, p, v, u ::
        && 0 <= i < |swagger.paths|
        && ProbeOf(filter).entry == swagger.paths[i]
        && SoleParameter(swagger.paths[i]) == Some(p)
        && (p == order[filter.operands[0].index]
            || Alias(entity, p) == Success(order[filter.operands[0].index]))
        && (forall j :: 0 <= j < i ==>
              EntryMatches(swagger.paths[j], entity, order[filter.operands[0].index]) == Success(false))
        && Encode(filter.operands[1].typeName, filter.operands[1].text) == Success(v)
        && Url(swagger, swagger.paths[i].key) == Success(u)
        && ProbeOf(filter).target == BuildTarget(u, p, order[filter.operands[0].index], v)
    {
      var m := FindMatch(filter).value.value;
      var i :| 0 <= i < |swagger.paths|
             && m.entry == swagger.paths[i]
             && SoleParameter(m.entry) == Some(m.param)
             && EntryMatches(m.entry, entity, m.column) == Success(true)
             && forall j :: 0 <= j < i ==> EntryMatches(swagger.paths[j], entity, m.column) == Success(false);
      var u := Url(swagger, m.entry.key).value;
      assert Alias(entity, m.param).Success?;
      assert m.param == m.column || Alias(entity, m.param) == Success(m.column);
      assert ProbeOf(filter).target == BuildTarget(u, m.param, m.column, m.value);
    }

    /** The converse of ProbeMaps: a filter maps exactly when it is a column =
        literal equality whose literal encodes, whose column exists, for
        which findFirst finds an endpoint, and whose URL can be built. */
    lemma ProbeMapsIff(filter: RexNode)
      ensures ProbeOf(filter).Maps? <==>
        ColumnEquality(filter)
        && (var v := Encode(filter.operands[1].typeName, filter.operands[1].text);
            var idx := filter.operands[0].index;
            && v.Success? && 0 <= idx < |order|
            && var found := FirstMatch(swagger.paths, entity, order[idx], 0);
               && found.Success? && found.value.Some?
               && Url(swagger, swagger.paths[found.value.value].key).Success?)
    {
      if ColumnEquality(filter) {
        var v := Encode(filter.operands[1].typeName, filter.operands[1].text);
        var idx := filter.operands[0].index;
        if v.Success? && 0 <= idx < |order| {
          var found := FirstMatch(swagger.paths, entity, order[idx], 0);
          if found.Success? && found.value.Some? {
            var m := FindMatch(filter).value.value;
            assert m.entry == swagger.paths[found.value.value];
          }
        }
      }
    }

    /** A column = literal equality whose column no endpoint serves makes
        findSourcePath return false and leaves both fields as they were. */
    lemma ProbeOfUnservedColumn(filter: RexNode)
      requires ColumnEquality(filter)
      requires Encode(filter.operands[1].typeName, filter.operands[1].text).Success?
      requires 0 <= filter.operands[0].index < |order|
      requires forall j :: 0 <= j < |swagger.paths| ==>
        EntryMatches(swagger.paths[j], entity, order[filter.operands[0].index]) == Success(false)
      ensures ProbeOf(filter) == NoMap
      ensures forall s :: Apply(s, ProbeOf(filter)) == s
    {
      FirstMatchNone(swagger.paths, entity, order[filter.operands[0].index], 0);
    }

    /** A column = literal equality whose column the endpoint i serves first
        records that endpoint; the target is built from its URL, and when the
        URL cannot be built the endpoint is recorded and the call throws. */
    lemma ProbeOfServedColumn(filter: RexNode, i: nat)
      requires ColumnEquality(filter)
      requires Encode(filter.operands[1].typeName, filter.operands[1].text).Success?
      requires 0 <= filter.operands[0].index < |order|
      requires i < |swagger.paths|
      requires EntryMatches(swagger.paths[i], entity, order[filter.operands[0].index]) == Success(true)
      requires forall j :: 0 <= j < i ==>
        EntryMatches(swagger.paths[j], entity, order[filter.operands[0].index]) == Success(false)
      ensures var e := swagger.paths[i];
        var v := Encode(filter.operands[1].typeName, filter.operands[1].text).value;
        var column := order[filter.operands[0].index];
        && SoleParameter(e).Some?
        && (Url(swagger, e.key).Failure? ==> ProbeOf(filter) == Throws(Url(swagger, e.key).error, Some(e)))
        && (Url(swagger, e.key).Success? ==>
              ProbeOf(filter) == Maps(e, BuildTarget(Url(swagger, e.key).value, SoleParameter(e).value, column, v)))
    {
      FirstMatchFinds(swagger.paths, entity, order[filter.operands[0].index], 0, i);
    }

    /** The exceptions of a column = literal equality before any endpoint is
        recorded: a CHAR literal too short to strip, a column index out of
        range, or the alias computation of the first endpoint that throws.
        None of them touches the fields. */
    lemma ProbeThrowsEarly(filter: RexNode)
      requires ColumnEquality(filter)
      ensures var v := Encode(filter.operands[1].typeName, filter.operands[1].text);
        v.Failure? ==> ProbeOf(filter) == Throws(v.error, None)
      ensures var v := Encode(filter.operands[1].typeName, filter.operands[1].text);
        var idx := filter.operands[0].index;
        v.Success? && !(0 <= idx < |order|) ==> ProbeOf(filter) == Throws(IndexOutOfBounds(idx), None)
      ensures forall s, e :: Apply(s, Throws(e, None)) == s
    {
    }

    /** The first endpoint whose test throws, after tests that return false,
        makes findSourcePath throw "Input must not be empty." before it
        records anything. */
    lemma ProbeThrowsInFilter(filter: RexNode, i: nat)
      requires ColumnEquality(filter)
      requires Encode(filter.operands[1].typeName, filter.operands[1].text).Success?
      requires 0 <= filter.operands[0].index < |order|
      requires i < |swagger.paths|
      requires EntryMatches(swagger.paths[i], entity, order[filter.operands[0].index]).Failure?
      requires forall j :: 0 <= j < i ==>
        EntryMatches(swagger.paths[j], entity, order[filter.operands[0].index]) == Success(false)
      ensures ProbeOf(filter) == Throws(EmptyInput, None)
    {
      FirstMatchThrows(swagger.paths, entity, order[filter.operands[0].index], 0, i);
    }

    /** The outcome of findSourcePath on each operand of an AND. */
    function Probes(ops: seq<RexNode>): (ps: seq<Probe>)
      ensures |ps| == |ops| && forall j :: 0 <= j < |ops| ==> ps[j] == ProbeOf(ops[j])
    {
      seq(|ops|, j requires 0 <= j < |ops| => ProbeOf(ops[j]))
    }

    /** The projected fields: every column, in order. */
    function Fields(): (f: seq<nat>)
      ensures |f| == |order| && forall i :: 0 <= i < |f| ==> f[i] == i
    {
      seq(|order|, i requires 0 <= i < |order| => i)
    }

    /** `operands.stream().filter(this::findSourcePath).count()`: findSourcePath
        on each operand in turn, counting those that map, until one throws. */
    method CountMapping(ops: seq<RexNode>) returns (r: Result<nat, Error>)
      modifies this
      ensures (r, Slots(sourcePath, sourceURL)) == RunAnd(Probes(ops), old(Slots(sourcePath, sourceURL)))
    {
      ghost var ps := Probes(ops);
      ghost var s0 := Slots(sourcePath, sourceURL);
      var count: nat := 0;
      var i := 0;
      while i < |ops|
        invariant 0 <= i <= |ops|
        invariant RunAnd(ps[..i], s0) == (Success(count), Slots(sourcePath, sourceURL))
      {
        RunAndStep(ps, i, s0);
        var found := FindSourcePath(ops[i]);
        if found.Failure? {
          PrefixAborts(ps, i + 1, s0);
          return Failure(found.error);
        }
        if found.value {
          count := count + 1;
        }
        i := i + 1;
      }
      assert ps[..i] == ps;
      return Success(count);
    }

    /** scan: an empty filter list is refused; only the first filter is read.
        An EQUALS must map; for an AND every operand is tried and exactly one
        must map; anything else is refused. On success the plan carries the
        recorded target and endpoint and all columns. */
    method Scan(filters: seq<RexNode>) returns (r: Result<Plan, Error>)
      modifies this
      ensures filters == [] ==>
        r == Failure(WhereRequired) && sourcePath == old(sourcePath) && sourceURL == old(sourceURL)
      ensures filters != [] && !filters[0].Equals? && !filters[0].And? ==>
        r == Failure(NotSingleOrAnd) && sourcePath == old(sourcePath) && sourceURL == old(sourceURL)
      ensures filters != [] && filters[0].Equals? ==>
        var p := ProbeOf(filters[0]);
        && Slots(sourcePath, sourceURL) == Apply(old(Slots(sourcePath, sourceURL)), p)
        && (p.Throws? ==> r == Failure(p.error))
        && (p.NoMap? ==> r == Failure(NeedExactlyOne(0)))
        && (p.Maps? ==> r == Success(Plan(p.target, p.entry, Fields())))
      ensures filters != [] && filters[0].And? ==>
        var run := RunAnd(Probes(filters[0].operands), old(Slots(sourcePath, sourceURL)));
        && Slots(sourcePath, sourceURL) == run.1
        && (run.0.Failure? ==> r == Failure(run.0.error))
        && (run.0.Success? && run.0.value != 1 ==> r == Failure(NeedExactlyOne(run.0.value)))
        && (run.0 == Success(1) ==>
              run.1.path.Some? && run.1.url.Some?
              && r == Success(Plan(run.1.url.value, run.1.path.value, Fields())))
    {
      if |filters| == 0 {
        return Failure(WhereRequired);
      }
      var firstFilter := filters[0];
      var ok: bool;
      var count: nat := 0;
      if firstFilter.Equals? {
        var found := FindSourcePath(firstFilter);
        if found.Failure? {
          return Failure(found.error);
        }
        ok := found.value;
      } else if firstFilter.And? {
        var counted := CountMapping(firstFilter.operands);
        if counted.Failure? {
          return Failure(counted.error);
        }
        count := counted.value;
        ok := count == 1;
        if ok {
          RunAndRecords(Probes(firstFilter.operands), old(Slots(sourcePath, sourceURL)));
        }
      } else {
        return Failure(NotSingleOrAnd);
      }
      if !ok {
        return Failure(NeedExactlyOne(count));
      }
      return Success(Plan(sourceURL.value, sourcePath.value, Fields()));
    }
  }
}
