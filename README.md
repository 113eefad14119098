# OpenAPI adapter for Apache Calcite, in Dafny

This project models the core of Calcite's OpenAPI adapter. The adapter
exposes each entity definition of a Swagger (OpenAPI 2.0) catalog as a
relational table. A query must carry an equality filter. The filter picks
the single GET endpoint that serves the query, the response document is
fetched (once, through a file cache) and its elements become rows.

Modules, following the Java classes:

- `Table` models `OpenAPITable` as a class. Its constant fields are the
  catalog, the entity, its model and the column order; its mutable fields
  are `sourcePath` and `sourceURL`. It covers the column order, the row
  type, `scan` (single equality or AND of equalities), `findSourcePath`
  (endpoint matching with the parameter-name alias and target
  construction), literal encoding, `url` and `lowerCaseFirst`.
- `Enumerator` models `OpenAPIEnumerator` and `ArrayRowConverter` as
  classes: the one-pass cursor with its index and current row, the
  per-kind conversion of a JSON member, and the row conversion.
- `FieldType` models `OpenAPIFieldType`: the kinds, their type strings, the
  table the static initialiser fills and the lookup `of`.
- `Cache` models `Cache.getFile`: the scheme pattern as a character
  matcher proved equal to the pattern's language, and the fetch-once cache
  over a directory modelled as a map.
- Support modules: `Swagger` (the parsed catalog and Calcite's filter
  expressions as datatypes), `Json` (the part of Jackson's tree the
  converter reads), `Strings` (Java string order, lower-casing,
  `String.replace`), `Ordering` (sorting the column names), `Errors`
  (the exceptions), `Wrappers` (Option and Result).

Java exceptions are `Failure` values of `Result`. Where the Java code has
already written a field when it throws, the model writes it too:

- `findSourcePath` stores `sourcePath` before `url` fails on an empty
  scheme list;
- `moveNext` advances `rootIndex` before the row conversion fails.

Java `null` is `None`. String concatenation of a null host or base path
yields `"null"`, as in Java.

Behaviour of the code worth noting:

- A property type of `ref` is looked up as the string `"ref"` (kind
  `Object`); no reference is followed.
- The scheme test is the case-sensitive pattern
  `(https?|wss?|HTTPS?|WSS?):.*`, so `Http:` is a local path.
- The base URL uses the first declared scheme, as its `toString()` prints
  it. Nothing checks that exactly one server is declared: an absent scheme
  list means no prefix, and an empty one throws.
- The alias test asks whether the parameter name starts with the
  lower-cased entity name, case-sensitively on the parameter side.
- A CHAR literal loses its first and last characters, whatever they are.

## Model

| member | source | states |
|---|---|---|
| Table.OpenAPITable.constructor | openapi/src/main/java/org/apache/calcite/adapter/openapi/OpenAPITable.java:61-69 | the new table reads the entity's definition, and its column order is that definition's property names sorted; both fields start null |
| Table.OpenAPITable.OrderIsSortedPropertyNames | openapi/src/main/java/org/apache/calcite/adapter/openapi/OpenAPITable.java:68 | the column order is strictly ascending, holds exactly the property names, and has one entry per property |
| Ordering.Sort | openapi/src/main/java/org/apache/calcite/adapter/openapi/OpenAPITable.java:68 | sorting distinct names yields a permutation of them in strictly ascending String order |
| Ordering.Insert | openapi/src/main/java/org/apache/calcite/adapter/openapi/OpenAPITable.java:68 | inserting a new name into a strictly ascending sequence adds exactly that name and keeps the order strict |
| Ordering.SortSameElements | openapi/src/main/java/org/apache/calcite/adapter/openapi/OpenAPITable.java:68 | a name is in the sorted order exactly when it is a property name |
| Ordering.SortedUnique | openapi/src/main/java/org/apache/calcite/adapter/openapi/OpenAPITable.java:68 | two strictly ascending sequences with the same names are equal, so the column order is determined by the names alone |
| Strings.LessIrreflexive | openapi/src/main/java/org/apache/calcite/adapter/openapi/OpenAPITable.java:68 | no string sorts before itself |
| Strings.LessTransitive | openapi/src/main/java/org/apache/calcite/adapter/openapi/OpenAPITable.java:68 | String order is transitive |
| Strings.LessTotal | openapi/src/main/java/org/apache/calcite/adapter/openapi/OpenAPITable.java:68 | of two different strings one sorts before the other |
| Strings.LessAsymmetric | openapi/src/main/java/org/apache/calcite/adapter/openapi/OpenAPITable.java:68 | two strings never sort before each other |
| Table.OpenAPITable.GetRowType | openapi/src/main/java/org/apache/calcite/adapter/openapi/OpenAPITable.java:71-89 | the row type is one (column, kind) pair per column in order, and it exists exactly when every type string has a kind; otherwise the error names the type string and the column at the first unknown type |
| Table.OpenAPITable.FindSourcePath | openapi/src/main/java/org/apache/calcite/adapter/openapi/OpenAPITable.java:130-192 | findSourcePath returns whether the filter maps, or the exception; the two fields change exactly as the filter's outcome says, with the endpoint already recorded when url throws |
| Table.OpenAPITable.FindMatch | openapi/src/main/java/org/apache/calcite/adapter/openapi/OpenAPITable.java:130-173 | a filter that is not EQUALS(column, literal) (ColumnEquality) matches nothing; for one that is, a literal that does not encode throws, a column index out of range throws, and otherwise findFirst decides: its exception is rethrown, no entry means no match, and the entry it finds is the match, with the encoded literal as value and every earlier entry's test false |
| Table.OpenAPITable.ProbeOfNonEquality | openapi/src/main/java/org/apache/calcite/adapter/openapi/OpenAPITable.java:131-149 | a filter that is not a column = literal equality maps nothing and leaves both fields unchanged |
| Table.OpenAPITable.ProbeMaps | openapi/src/main/java/org/apache/calcite/adapter/openapi/OpenAPITable.java:150-189 | a mapping filter's endpoint is the first serving its column, by parameter name or alias; its target is built from that endpoint's URL and the encoded literal |
| Table.OpenAPITable.ProbeMapsIff | openapi/src/main/java/org/apache/calcite/adapter/openapi/OpenAPITable.java:130-189 | a filter maps exactly when it is a column = literal equality whose literal encodes, whose column index is in range, for which findFirst finds an entry, and whose URL can be built |
| Table.OpenAPITable.ProbeOfUnservedColumn | openapi/src/main/java/org/apache/calcite/adapter/openapi/OpenAPITable.java:153-178 | a column = literal equality whose column no entry serves returns false and leaves both fields unchanged |
| Table.OpenAPITable.ProbeOfServedColumn | openapi/src/main/java/org/apache/calcite/adapter/openapi/OpenAPITable.java:153-189 | when entry i is the first whose test holds, it has a sole parameter and is recorded; with a URL the target is built from that URL, the parameter, the column and the literal, and without one the call throws after recording the entry |
| Table.OpenAPITable.ProbeThrowsEarly | openapi/src/main/java/org/apache/calcite/adapter/openapi/OpenAPITable.java:150-152 | a CHAR literal that cannot be stripped (encode, line 198) and a column index out of range (order.get) throw before any field is written |
| Table.OpenAPITable.ProbeThrowsInFilter | openapi/src/main/java/org/apache/calcite/adapter/openapi/OpenAPITable.java:153-173 | an entry whose alias computation throws (lowerCaseFirst, line 214), after entries whose tests are false, makes the call throw "Input must not be empty." before any field is written |
| Table.FirstMatch | openapi/src/main/java/org/apache/calcite/adapter/openapi/OpenAPITable.java:153-173 | findFirst returns the first endpoint whose test holds, with every earlier test false; none when every test is false; or the exception of the first test that throws |
| Table.FirstMatchNone | openapi/src/main/java/org/apache/calcite/adapter/openapi/OpenAPITable.java:153-173 | when every entry's test is false, findFirst finds nothing |
| Table.FirstMatchFinds | openapi/src/main/java/org/apache/calcite/adapter/openapi/OpenAPITable.java:153-173 | when entry i's test holds and every earlier test is false, findFirst finds entry i |
| Table.FirstMatchThrows | openapi/src/main/java/org/apache/calcite/adapter/openapi/OpenAPITable.java:153-173 | when entry i's test throws and every earlier test is false, findFirst throws that exception |
| Table.EntryMatches | openapi/src/main/java/org/apache/calcite/adapter/openapi/OpenAPITable.java:155-172 | an entry without exactly one GET parameter (SoleParameter) does not serve the column; otherwise its test throws exactly when the alias throws, and holds exactly when the parameter is named as the column or its alias is the column |
| Table.Alias | openapi/src/main/java/org/apache/calcite/adapter/openapi/OpenAPITable.java:168-170 | a parameter not starting with the lower-cased entity has the empty alias; the alias throws "Input must not be empty." exactly when the parameter is the lower-cased entity and nothing more |
| Table.AliasOfPrefixed | openapi/src/main/java/org/apache/calcite/adapter/openapi/OpenAPITable.java:168-170 | a parameter named as the lower-cased entity followed by more text has that text, first character lowered, as its alias |
| Table.AliasOfBareEntityThrows | openapi/src/main/java/org/apache/calcite/adapter/openapi/OpenAPITable.java:168-169 | a parameter named exactly as the lower-cased entity makes the alias computation throw "Input must not be empty." |
| Table.AliasOfUnprefixed | openapi/src/main/java/org/apache/calcite/adapter/openapi/OpenAPITable.java:168-170 | a parameter not starting with the lower-cased entity has the empty alias |
| Table.PetIdAlias | openapi/src/main/java/org/apache/calcite/adapter/openapi/OpenAPITable.java:165-171 | in the PetStore catalog the parameter petId serves the column id of entity Pet |
| Table.BuildTarget | openapi/src/main/java/org/apache/calcite/adapter/openapi/OpenAPITable.java:185-189 | a base URL without an opening brace gets ?column=value appended |
| Table.TargetWithoutPlaceholder | openapi/src/main/java/org/apache/calcite/adapter/openapi/OpenAPITable.java:185-186 | a base URL with a brace but without this parameter's placeholder is kept unchanged, dropping the value |
| Table.TargetSubstitutesPlaceholder | openapi/src/main/java/org/apache/calcite/adapter/openapi/OpenAPITable.java:185-186 | a template whose first brace opens the parameter's placeholder keeps the text before it and gets the value in its place |
| Table.PetByIdTarget | openapi/src/main/java/org/apache/calcite/adapter/openapi/OpenAPITable.java:185-186 | the PetStore URL /v2/pet/{petId} with value 109 becomes /v2/pet/109 |
| Strings.ReplaceAbsent | openapi/src/main/java/org/apache/calcite/adapter/openapi/OpenAPITable.java:186 | String.replace (ReplaceAll) leaves a string without any occurrence of the target unchanged |
| Strings.ReplaceSkipPrefix | openapi/src/main/java/org/apache/calcite/adapter/openapi/OpenAPITable.java:186 | String.replace copies a prefix that holds no first character of the target |
| Strings.ReplacePlaceholder | openapi/src/main/java/org/apache/calcite/adapter/openapi/OpenAPITable.java:186 | String.replace on prefix, target, suffix keeps the prefix, puts the replacement in place of the target and continues on the suffix |
| Table.OpenAPITable.Scan | openapi/src/main/java/org/apache/calcite/adapter/openapi/OpenAPITable.java:91-128 | scan refuses an empty filter list and any first filter that is neither EQUALS nor AND; otherwise it succeeds exactly when one filter maps, and the plan carries the recorded target, the endpoint and every column; the fields change as the findSourcePath calls say |
| Table.OpenAPITable.Fields | openapi/src/main/java/org/apache/calcite/adapter/openapi/OpenAPITable.java:114 | the projected fields are 0 up to the column count, in order |
| Table.OpenAPITable.CountMapping | openapi/src/main/java/org/apache/calcite/adapter/openapi/OpenAPITable.java:101-103 | the filtered count runs findSourcePath on each operand in turn until one throws; its count or exception, and the fields afterwards, are those RunAnd gives for the operands' outcomes |
| Table.RunAndRecords | openapi/src/main/java/org/apache/calcite/adapter/openapi/OpenAPITable.java:104-113 | a positive count means some operand mapped, so the endpoint and the target are both recorded |
| Table.RunAndCounts | openapi/src/main/java/org/apache/calcite/adapter/openapi/OpenAPITable.java:100-104 | without an exception the AND branch counts exactly the operands that map, and leaves the fields alone when none maps |
| Table.RunAndKeepsLast | openapi/src/main/java/org/apache/calcite/adapter/openapi/OpenAPITable.java:101-103 | without an exception the fields end up holding the last mapping operand's endpoint and target |
| Table.RunAndThrows | openapi/src/main/java/org/apache/calcite/adapter/openapi/OpenAPITable.java:101-103 | the first operand that throws aborts the AND branch with its exception |
| Table.AndSucceedsIffExactlyOne | openapi/src/main/java/org/apache/calcite/adapter/openapi/OpenAPITable.java:100-104 | the AND branch yields a count of one exactly when no operand throws and exactly one maps; the fields then hold that operand's endpoint and target |
| Table.PrefixAborts | openapi/src/main/java/org/apache/calcite/adapter/openapi/OpenAPITable.java:101-103 | once some operand throws, the later operands are not evaluated |
| Table.Encode | openapi/src/main/java/org/apache/calcite/adapter/openapi/OpenAPITable.java:194-201 | a CHAR literal's text loses exactly its first and last characters, and one shorter than two characters throws; any other literal's text is used as it is |
| Table.Url | openapi/src/main/java/org/apache/calcite/adapter/openapi/OpenAPITable.java:203-210 | the URL is the first scheme with :// (no prefix for a local file, IsLocalFile, where no schemes are declared), host, base path and path; only an empty scheme list throws |
| Table.PetStoreUrl | openapi/src/main/java/org/apache/calcite/adapter/openapi/OpenAPITable.java:207-210 | the PetStore base URL, with scheme HTTP, followed by /pet/{petId} |
| Table.LowerCaseFirst | openapi/src/main/java/org/apache/calcite/adapter/openapi/OpenAPITable.java:212-217 | the empty string throws; otherwise the result has the same length, its first character lowered and the rest unchanged |
| Strings.ToLower | openapi/src/main/java/org/apache/calcite/adapter/openapi/OpenAPITable.java:168 | lower-casing keeps the length and lowers each character |
| Swagger.Lookup | openapi/src/main/java/org/apache/calcite/adapter/openapi/OpenAPITable.java:79 | a property lookup returns a property with that name from the model, or none when the name is not a property name |
| FieldType.Fill | openapi/src/main/java/org/apache/calcite/adapter/openapi/OpenAPIFieldType.java:44-50 | the static initialiser's map has exactly the simple names of the kinds as keys, each mapped to a kind with that simple name |
| FieldType.Of | openapi/src/main/java/org/apache/calcite/adapter/openapi/OpenAPIFieldType.java:64-66 | a kind found for a type string has that string as its simple name |
| FieldType.OfIsTableLookup | openapi/src/main/java/org/apache/calcite/adapter/openapi/OpenAPIFieldType.java:44-66 | of is a lookup in the map the static initialiser fills |
| FieldType.OfSimpleName | openapi/src/main/java/org/apache/calcite/adapter/openapi/OpenAPIFieldType.java:46-50 | every kind's own simple name resolves back to that kind |
| FieldType.OfCharacterised | openapi/src/main/java/org/apache/calcite/adapter/openapi/OpenAPIFieldType.java:64-66 | a type string resolves to a kind exactly when it is that kind's simple name |
| FieldType.OfUnknown | openapi/src/main/java/org/apache/calcite/adapter/openapi/OpenAPIFieldType.java:64-66 | a string that is no kind's simple name resolves to nothing |
| FieldType.OfIsCaseSensitive | openapi/src/main/java/org/apache/calcite/adapter/openapi/OpenAPIFieldType.java:64-66 | Integer and String resolve to nothing while integer resolves to INTEGER |
| FieldType.SimpleNamesDistinct | openapi/src/main/java/org/apache/calcite/adapter/openapi/OpenAPIFieldType.java:30-42 | no two kinds share a simple name, so no table entry overwrites another |
| FieldType.ValuesComplete | openapi/src/main/java/org/apache/calcite/adapter/openapi/OpenAPIFieldType.java:47 | values() lists every kind |
| Enumerator.Convert | openapi/src/main/java/org/apache/calcite/adapter/openapi/OpenAPIEnumerator.java:114-141 | a column without a kind gets the node itself and a missing node gives null; STRING, INTEGER, OBJECT and ARRAY convert; any other kind throws UnsupportedOperationException exactly when a node is present; an int is 32-bit |
| Enumerator.ConvertPresent | openapi/src/main/java/org/apache/calcite/adapter/openapi/OpenAPIEnumerator.java:121-129 | STRING reads asText (Json.AsText), INTEGER reads asInt, OBJECT and ARRAY read toString (Json.Serialize) |
| Enumerator.ConvertJsonNull | openapi/src/main/java/org/apache/calcite/adapter/openapi/OpenAPIEnumerator.java:122-125 | a JSON null member is a present node: STRING reads it as "null" and INTEGER as 0 |
| Enumerator.Collect | openapi/src/main/java/org/apache/calcite/adapter/openapi/OpenAPIEnumerator.java:158-169 | a row exists exactly when every slot converts, and holds the slot values in order; otherwise the exception is the first failing slot's |
| Enumerator.ArrayRowConverter.ConvertRow | openapi/src/main/java/org/apache/calcite/adapter/openapi/OpenAPIEnumerator.java:158-169 | convertRow is RowOf: Collect over the slots (Cells), so it fills one slot per projected field with that column's converted member, or throws at the first slot that throws |
| Enumerator.ArrayRowConverter.Kind | openapi/src/main/java/org/apache/calcite/adapter/openapi/OpenAPIEnumerator.java:164-165 | each projected column has a declared property; the kind found has its type string as simple name, and none is found only for a type string that is no kind's simple name |
| Enumerator.ArrayRowConverter.Cell | openapi/src/main/java/org/apache/calcite/adapter/openapi/OpenAPIEnumerator.java:166 | a null element throws NullPointerException; a missing member gives null; a column without a kind gets the node itself; any other exception is UnsupportedOperationException for a kind the converter does not handle |
| Enumerator.ResponseIsArray | openapi/src/main/java/org/apache/calcite/adapter/openapi/OpenAPIEnumerator.java:83-84 | a missing GET or 200 response is a null dereference; otherwise the response is an array exactly when its schema is an ArrayModel |
| Enumerator.ArrayRowConverter.FieldName | openapi/src/main/java/org/apache/calcite/adapter/openapi/OpenAPIEnumerator.java:162-164 | each projected field names a declared property |
| Enumerator.ArrayRowConverter.constructor | openapi/src/main/java/org/apache/calcite/adapter/openapi/OpenAPIEnumerator.java:152-156 | the converter keeps the model, order and fields it is given |
| Enumerator.OpenAPIEnumerator.constructor | openapi/src/main/java/org/apache/calcite/adapter/openapi/OpenAPIEnumerator.java:50-72 | the cursor starts before the first row with no current row, over the document read once |
| Enumerator.OpenAPIEnumerator.MoveNext | openapi/src/main/java/org/apache/calcite/adapter/openapi/OpenAPIEnumerator.java:82-101 | moveNext returns false exactly at the end (the array's Size, or one step for an object): an array cursor then clears the current row and a single-object cursor keeps it. Otherwise it advances by one and stores the converted element. An array cursor advances even when the conversion throws; a single-object cursor does not |
| Enumerator.OpenAPIEnumerator.Close | openapi/src/main/java/org/apache/calcite/adapter/openapi/OpenAPIEnumerator.java:74-76 | close always throws UnsupportedOperationException |
| Enumerator.OpenAPIEnumerator.Current | openapi/src/main/java/org/apache/calcite/adapter/openapi/OpenAPIEnumerator.java:78-80 | current is the row the last moveNext stored: none before the first step, and otherwise one slot per projected field |
| Enumerator.OpenAPIEnumerator.Reset | openapi/src/main/java/org/apache/calcite/adapter/openapi/OpenAPIEnumerator.java:103-105 | reset always throws UnsupportedOperationException |
| Json.Element | openapi/src/main/java/org/apache/calcite/adapter/openapi/OpenAPIEnumerator.java:89 | get(i) returns element i of an array in range, and null otherwise |
| Json.Field | openapi/src/main/java/org/apache/calcite/adapter/openapi/OpenAPIEnumerator.java:166 | get(name) returns the value of a member with that name, and null when there is none or the node is not an object |
| Json.AsInt | openapi/src/main/java/org/apache/calcite/adapter/openapi/OpenAPIEnumerator.java:125 | asInt returns a 32-bit value, equal to the node's integer when that fits |
| Json.ToInt32 | openapi/src/main/java/org/apache/calcite/adapter/openapi/OpenAPIEnumerator.java:125 | the narrowing cast lands in the 32-bit range, agrees with its argument modulo 2^32 and keeps a value that fits |
| Cache.IsRemoteSound | openapi/src/main/java/org/apache/calcite/adapter/openapi/Cache.java:48-49 | every locator the matcher accepts is in the language of the scheme pattern |
| Cache.IsRemoteComplete | openapi/src/main/java/org/apache/calcite/adapter/openapi/Cache.java:48-49 | every locator in the language of the scheme pattern is accepted |
| Cache.IsRemoteIff | openapi/src/main/java/org/apache/calcite/adapter/openapi/Cache.java:48-49 | the matcher accepts exactly the locators the pattern matches in full |
| Cache.SchemeLengthFinds | openapi/src/main/java/org/apache/calcite/adapter/openapi/Cache.java:48 | a locator spelling out an alternative followed by a colon is matched at that alternative |
| Cache.HttpIsRemote | openapi/src/main/java/org/apache/calcite/adapter/openapi/Cache.java:48-49 | an http locator is remote |
| Cache.UpperHttpsIsRemote | openapi/src/main/java/org/apache/calcite/adapter/openapi/Cache.java:48-49 | an HTTPS locator is remote |
| Cache.WssIsRemote | openapi/src/main/java/org/apache/calcite/adapter/openapi/Cache.java:48-49 | a wss locator is remote |
| Cache.MixedCaseIsLocal | openapi/src/main/java/org/apache/calcite/adapter/openapi/Cache.java:48-50 | Http:// is a local path: the pattern is case-sensitive |
| Cache.MissingColonIsLocal | openapi/src/main/java/org/apache/calcite/adapter/openapi/Cache.java:48-50 | a scheme not directly followed by a colon is local |
| Cache.OtherLocatorsAreLocal | openapi/src/main/java/org/apache/calcite/adapter/openapi/Cache.java:48-50 | ftp:// and plain paths are local |
| Cache.NoSchemeIsLocal | openapi/src/main/java/org/apache/calcite/adapter/openapi/Cache.java:48-50 | a locator whose first character starts no alternative is local |
| Cache.Cache.constructor | openapi/src/main/java/org/apache/calcite/adapter/openapi/Cache.java:35-45 | the cache starts with an empty temporary directory and no downloads |
| Cache.Cache.EntryPathIff | openapi/src/main/java/org/apache/calcite/adapter/openapi/Cache.java:55-59 | two URLs share a cache entry exactly when their encodings agree |
| Cache.Cache.EntryPathInjective | openapi/src/main/java/org/apache/calcite/adapter/openapi/Cache.java:55-59 | with an injective URL encoder, distinct URLs never share a cache entry |
| Cache.Cache.GetFile | openapi/src/main/java/org/apache/calcite/adapter/openapi/Cache.java:47-64 | a local locator is returned unchanged and nothing is fetched; a remote one is returned as its entry under the temporary directory, downloaded and logged only when that entry is absent |
| Cache.Cache.GetFileTwice | openapi/src/main/java/org/apache/calcite/adapter/openapi/Cache.java:59-63 | asking twice for one URL gives the same file and downloads at most once |

## Left out

- `OpenAPIFieldType.toType` and the SQL row type built from it: they belong to Calcite's type factory. The row type stands as (column, kind) pairs.
- The cancel flag that `scan` passes to the enumerator: nothing reads it.
- The lazy `Enumerable`: `scan` returns a plan with the target, the endpoint and the fields at the time of the call. The Java enumerable reads the table's fields only when an enumerator is created, so a later scan on the same table would change what it sees. This aliasing is not modelled.
- Reading and parsing the response document with Jackson: the enumerator's constructor takes the parsed tree. The IOException path, which leaves the root null, is not modelled.
- Enumerator.OpenAPIEnumerator.MoveNext: a response declared as an array over a document that is an object counts the object's members and gets null elements, as in Java. A missing schema, or any model other than ArrayModel, takes the single-object path.
- Concurrency: the table's fields and the cache directory are shared without synchronisation in Java; the model is sequential.
- Strings.ToLower: lowers ASCII letters only; Java's locale-dependent and full Unicode lower-casing is not modelled.
- Strings.Less: compares characters by Unicode scalar value; Java compares UTF-16 code units, which orders supplementary characters differently.
- Json: only null, booleans, integers, text, arrays and objects. Floating-point numbers are not modelled, and `toString` escapes only quotes and backslashes. Json.ParseIntOrZero accepts an optional minus sign and decimal digits, and anything else reads as 0.
- Json.Field: returns the first member with a name; Jackson's object nodes keep one member per name.
- Swagger: only the parts of the catalog the adapter reads are modelled (schemes, host, base path, paths with their GET parameters and 200 response schema, and definitions). The parser that builds the catalog is not part of this model.
- The swagger-models `Scheme` enum is not part of this model: each declared scheme is held as the text it prints as, and the PetStore lemma takes that text to be the constant name `HTTP`.
- A model whose properties are null: the catalog is taken to give every definition a property list.
- Cache.Cache.GetFile: URLEncoder.encode is a function-valued field, and the download is a function argument. The IOException of the copy, failures of java.net.URL for ws and wss, and the creation of the temporary directory are not modelled.
- Strings.ReplaceAll: requires a non-empty target; the placeholder `{param}` is never empty.
- Errors.Message: the exception texts are given but no property is stated about them.
