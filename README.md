# graphql-models: the `where` / `orderBy` translator, in Dafny

graphql-models turns a GraphQL-style query argument into the two documents
MongoDB's `aggregate()` needs:
- a filter, built from the `where` tree of field conditions and the `_or` / `_and` / `_not` connectives;
- a sort, built from the list of `orderBy` objects.

It also decides which fields get a line in the generated `where` and `orderBy` input
types. Field definitions come from the `types` factory.

The project has four modules:

- `Js` (js.dfy): the part of JavaScript's value model the library relies on.
  - Values: `undefined`, `null`, booleans, integers, strings, arrays, and plain objects.
  - A plain object is an ordered list of properties, kept in insertion order.
  - Operations: property read and assignment, `Object.assign`, `Object.entries`, spreading, string interpolation and truthiness.
  - An exception is a `Throw(message)` result.
- `Search` (search.js):
  - the operator translators `searchNumeric` / `searchBoolean`, `_stringOperator` and `searchString`;
  - the in-place helper `_extendKey`, as a method on a mutable `JsObject`;
  - the recursive walk `searchWhereRecursive`, as a method proved equal to the function `TranslateWhere`.
- `Types` (types.js): the `field` factory with its defaults and rest options, the `types` wrappers, and the `filters` name table.
- `Index` (index.js):
  - `validateFields`;
  - `createMongoFilter`: the per-field search dispatch and the combination of fragments;
  - `createMongoSort` and `createMongoResolver`;
  - the field selection and naming of `createWhereSDL` and `createOrderBySDL`.

  The loops are methods, each proved equal to a specification function. The properties the library promises are lemmas about those functions.

A `fieldDefinitions` object is its list of entries, `Prop(fieldName, definition)`.
A `where` argument is a `Where` tree. `Falsy` stands for any falsy argument (`undefined`, `null`, `false`, `0` or `""`), which all give `{}`. A node holds:
- its field conditions;
- for each of `_or`, `_and` and `_not`, whether the key is present and the list it holds.

The filter builder exists twice:
- as written: `CreateMongoFilter`, specified by `MongoFilterAsWritten`;
- corrected: `MongoFilter`, which the resolver uses (see Findings).

## Model

| member | source | states |
|---|---|---|
| `Js.Put` | src/search.js:56 | `obj[key] = v`: afterwards `key` reads `v` and every other key reads as before. An existing key keeps its position; a new key is appended. |
| `Js.Assign` | src/index.js:147 | `Object.assign(target, src)`: the keys are the union. A key `src` defines reads its last definition in `src`; any other key reads as in `target`. |
| `Js.AssignAll` | src/index.js:139 | `Object.assign({}, ...srcs)`: a key is present iff some source defines it, and it reads its last definition across the sources in order. |
| `Js.AssignAllSnoc` | src/index.js:139 | One more source: its keys join the result, and on a key it defines, its own definition beats every earlier source. |
| `Js.AssignKeepsUnique` | src/index.js:147 | `Object.assign` onto an object with unique keys leaves the keys unique. |
| `Js.FlattenHas` | src/index.js:139 | A key is defined by the concatenated sources iff some source defines it. |
| `Js.OwnEntries` | src/search.js:45 | `Object.entries`: an object's own properties; nothing for `null` / `undefined`. |
| `Js.Member` | src/index.js:111 | A property read while destructuring a definition: an object's own property. Any other value has only `length` and index keys. |
| `Js.MemberReadsOwnEntries` | src/index.js:111 | Apart from `length`, a property read finds exactly the value's own entry for that key. |
| `Js.Default` | src/types.js:4-8 | A destructuring default applies exactly when the value is `undefined`; `null` is kept. |
| `Js.Spread` | src/search.js:56 | `[...v]` succeeds on an array with its items and fails on any value that is neither an array nor a string. |
| `Search.RenameKey` | src/search.js:6 | `k.replace("_", "$")` keeps the length, and a key without `_` is unchanged. |
| `Search.RenameFirstUnderscore` | src/search.js:6 | Only the first `_` becomes `$`; everything before and after it is kept. |
| `Search.RenameOperator` | src/search.js:6 | Every GraphQL operator `_op` becomes the MongoDB operator `$op`. |
| `Search.RenamedEntries` | src/search.js:6 | `mapKeys` over the entries: same length and order, each key renamed, each value unchanged. |
| `Search.SearchNumeric` | src/search.js:5-10 | `searchNumeric` / `searchBoolean`: one key, the field name. Its condition holds exactly the renamed keys of the comparison map, including unknown operators. |
| `Search.SearchNumericKeepsValues` | src/search.js:5-7 | When no other entry renames to the same key, each entry's value reappears under its renamed key. |
| `Search.StringOperator` | src/search.js:13-42 | The 13-case table. `undefined` exactly outside it. `$options: "i"` exactly for the five case-insensitive operators. `^`-anchoring for startswith, `$`-anchoring for endswith. Plain `$regex` otherwise. |
| `Search.PlainStringOperators` | src/search.js:15-18 | `_eq`, `_ne`, `_in` and `_nin` give `{ $op: val }`, as the numeric translator does. |
| `Search.IeqIsIcontains` | src/search.js:19-28 | `_ieq` yields the same unanchored regex condition as `_icontains`. |
| `Search.IneHasNoCase` | src/search.js:13-42 | `_ine` has no case and yields `undefined`. |
| `Search.SearchString` | src/search.js:44-52 | Throws exactly on a `null` / `undefined` map. Otherwise `{ $and: L }` with one conjunct `{ [fieldName]: _stringOperator(entry) }` per entry, in entry order. |
| `Search.SearchStringEmpty` | src/search.js:44-52 | An empty comparison map gives `{ $and: [] }`. |
| `Search.Negate` | src/search.js:91-93 | `mapValues(v => ({ $not: v }))`: the same keys in the same order, each value wrapped on its own. |
| `Search.Prior` | src/search.js:56 | The list `[...obj[key]]` reads: empty for an absent key, the list itself for an array. |
| `Search.Extended` | src/search.js:55-57 | After `_extendKey`, `key` holds the old list followed by `arr` (just `arr` if absent), and every other key is unchanged. It throws exactly when the old value cannot be spread. |
| `Search.JsObject.ExtendKey` | src/search.js:55-57 | The in-place update leaves `obj.props` equal to `Extended` of the old props, or unchanged when the spread throws. |
| `Search.Collect` | src/search.js:71 | `children.map(...)` succeeds iff every child does, with one object per child in order. |
| `Search.TranslateChild` | src/search.js:88-93 | One recursive call, negated for a `_not` child. |
| `Search.MapChildren` | src/search.js:67-95 | The loop over a connective's children equals the specification map, the first throw included. |
| `Search.SearchWhereRecursive` | src/search.js:59-99 | The in-place recursive walk returns exactly `TranslateWhere`. |
| `Search.TranslateWithoutConnectives` | src/search.js:60-64 | A falsy argument gives `{}`. A node without connectives gives exactly `searchFunc`'s fragment. |
| `Search.TranslateKeepsOtherKeys` | src/search.js:64-98 | Keys other than `$or` / `$and` are exactly those of `searchFunc`'s fragment, with the same values. |
| `Search.TranslateOrStep` | src/search.js:67-73 | `$or` is the list the fragment already held followed by the translated `_or` children, or untouched when `_or` is absent. |
| `Search.TranslateAndStep` | src/search.js:75-96 | `$and` is the earlier list, then the `_and` translations, then the negated `_not` translations, or untouched when both are absent. |
| `Search.TranslateOrLayout` | src/search.js:67-73 | `$or` grows by exactly one entry per `_or` child, after the earlier entries. |
| `Search.TranslateOrChild` | src/search.js:67-73 | The entry after the earlier ones at offset `i` is the translation of `_or` child `i`. |
| `Search.TranslateAndLayout` | src/search.js:75-96 | `$and` grows by `|_and| + |_not|` entries, after the earlier entries. |
| `Search.TranslateAndChild` | src/search.js:75-81 | The entry at offset `i` is the translation of `_and` child `i`. |
| `Search.TranslateNotChild` | src/search.js:84-96 | The entry at offset `|_and| + i` is the key-by-key negation of `_not` child `i`'s translation. |
| `Search.SingleNot` | src/search.js:84-96 | A node holding only `_not: [x]` gives `{ $and: [negated x] }`. |
| `Search.DoubleNegationNests` | src/search.js:84-96 | `_not` inside `_not` nests `$not` under `$and` rather than restoring `x`. |
| `Search.TranslateTotal` | src/search.js:59-99 | If `searchFunc` never throws and leaves `$or` / `$and` absent or lists, every tree translates successfully. |
| `Types.FilterNamesAreThemselves` | src/types.js:36-43 | Every `filters` entry maps a name to the identical string, and no name is defined twice. |
| `Types.Rest` | src/types.js:9 | `...other`: exactly the options that are not named, each with its last value. |
| `Types.Field` | src/types.js:3-18 | Throws only on `null` options. `required`, `createFilter` and `createOrdeBy` default to `true`; `schemaDoc` and `filterType` are copied. |
| `Types.Defaults` | src/types.js:4-16 | The record before `...other`: its keys in order and each default. |
| `Types.FieldType` | src/types.js:11-17 | `type` is the factory's type unless a `type` among the other options overrides it. |
| `Types.FieldCopiesOther` | src/types.js:9-17 | Every option that is not named is copied with its last value. |
| `Types.CreateOrderByTravelsInOther` | src/types.js:8-17 | The `createOrderBy` that index.js reads is present only when the caller passes it. |
| `Types.Int` | src/types.js:21 | Type `"Int"` unless overridden; throws only on `null`. |
| `Types.Float` | src/types.js:22 | Type `"Float"` unless overridden; throws only on `null`. |
| `Types.String` | src/types.js:23 | Type `"String"` unless overridden; throws only on `null`. |
| `Types.Boolean` | src/types.js:24 | Type `"Boolean"` unless overridden; throws only on `null`. |
| `Types.Length` | src/types.js:26 | `.length` of an array or string. |
| `Types.Enum` | src/types.js:25-30 | Throws for absent or empty values, with the source's message for an empty list. A result always has a truthy length. |
| `Types.EnumOptions` | src/types.js:29 | `{ enumValues, ...other }`: unique keys; `enumValues` survives unless `other` overrides it. |
| `Types.EnumType` | src/types.js:29 | An enum field has type `elementType` unless `other` overrides it. |
| `Types.EnumValues` | src/types.js:29 | An enum field carries the values it was given unless `other` overrides them. |
| `Types.List` | src/types.js:31 | Type `"[" + elementType + "]"` unless overridden; throws only on `null`. |
| `Index.FilterType` | src/index.js:113-115 | `filterType` when truthy, otherwise `${type}Filter`. |
| `Index.FieldError` | src/index.js:23-26 | No error iff the definition can be destructured and has a truthy `type`. The message names the field. |
| `Index.ValidateFields` | src/index.js:22-28 | Succeeds iff every field has no error. Otherwise it throws the first field's error. |
| `Index.FactoryFieldsValidate` | src/index.js:24 | A definition built by `types` with a non-empty type name passes validation. |
| `Index.DispatchAsWritten` | src/index.js:117-134 | Each filter kind's search, in both directions: numeric for Int/Float, boolean for Boolean, string for String/Enum. Nothing for IDFilter; logged for the rest. |
| `Index.Dispatch` | src/index.js:117-122 | Corrected dispatch: `Int` identifiers numeric, `String` identifiers string, other identifiers nothing. Otherwise as written. |
| `Index.IdFilterNeverSearchedAsWritten` | src/index.js:117-122 | As written an IDFilter field contributes nothing. Corrected, an Int identifier with a condition is searched numerically. |
| `Index.Searched` | src/index.js:119-134 | The fragments of one search: none for no search or a logged one, one otherwise. A string search throws iff the condition is nullish. |
| `Index.PushedAsWritten` | src/index.js:110-136 | One iteration as written: throws iff the definition is nullish; at most one fragment; none when `createFilter` is falsy. Otherwise the fragments are those of the search `DispatchAsWritten` picks for the filter kind, called as `(whereParams, fieldName)`. |
| `Index.Pushed` | src/index.js:110-136 | One iteration corrected: as above, and no fragment when the field has no condition. Otherwise the fragments are those of the search `Dispatch` picks for the field's type and filter kind, called as `(fieldName, whereParams[fieldName])`. |
| `Index.PushedShape` | src/index.js:119-131 | Every corrected fragment has one key: the field's name, or `$and` with a list. |
| `Index.PushedHasNoOr` | src/index.js:119-131 | So a fragment never holds `$or` unless the field is named `$or`. |
| `Index.FragmentsThrowIff` | src/index.js:110-137 | The `forEach` throws iff its callback throws on some entry. |
| `Index.LoopThrowIff` | src/index.js:110-137 | `createMongoFilter`'s loop throws iff some definition is nullish. |
| `Index.MongoFilterAsWritten` | src/index.js:107-140 | Throws iff some definition is nullish. Each key reads its last definition across the fragments in field order. |
| `Index.FilterField` | src/index.js:111-135 | The callback body, branch by branch, pushes exactly what `PushedAsWritten` specifies. |
| `Index.CreateMongoFilter` | src/index.js:107-140 | The loop and `Object.assign` give exactly `MongoFilterAsWritten`. |
| `Index.ConjunctsKeepAll` | src/index.js:139 | Every conjunct of every fragment's `$and` is in the combined list. |
| `Index.Merge` | src/index.js:139 | Same keys as `Object.assign` and the same values except `$and`, which holds every fragment's conjuncts in order. |
| `Index.MergeKeepsEveryConjunct` | src/index.js:139 | No fragment's `$and` conjunct is lost. |
| `Index.MongoFilter` | src/index.js:107-140 | The corrected builder throws iff some definition is nullish. Otherwise it is the merge of the corrected fragments. |
| `Index.SwappedArguments` | src/index.js:119-124 | As written, a numeric field's fragment is keyed `[object Object]` and holds the field name. Corrected, it is keyed by the field and holds its condition. |
| `Index.EmptyFieldSearch` | src/index.js:127-131 | Corrected: a `String` field with condition `{}` gives the empty filter. |
| `Index.StringFieldSearchedAsWritten` | src/index.js:127-131 | As written, the same field is searched with swapped operands. |
| `Index.SwappedStringSearch` | src/index.js:130 | With the operands swapped, `searchString(whereParams, "a")` reads `"a"` as its comparison map. Its one entry `["0", "a"]` names no operator, giving `{ $and: [{ "[object Object]": undefined }] }`. |
| `Index.EmptyFieldSearchAsWritten` | src/index.js:107-140 | As written, the filter for that input is `$and: [{ "[object Object]": undefined }]`, not `{}`. |
| `Index.AssignOverridesAnd` | src/index.js:139 | Two string fragments: `Object.assign` keeps only the second `$and`; `Merge` keeps both conjuncts. |
| `Index.SortFlag` | src/index.js:149 | `get(fieldDefinitions, name.createOrderBy, true)`: `true` for an undefined field; otherwise the field's flag, defaulted to `true`. |
| `Index.Direction` | src/index.js:150 | Exactly `"asc"` gives 1; everything else gives -1. |
| `Index.SortableKeys` | src/index.js:148-152 | The kept names are exactly the names that are sortable. |
| `Index.SortOf` | src/index.js:148-152 | The kept fields are exactly the sortable merged keys, each mapped to the direction of its last value. |
| `Index.SortOfKeys` | src/index.js:148-152 | On unique keys, the kept fields keep the merged order. |
| `Index.Sources` | src/index.js:147 | One entry list per spread `orderBy` element. |
| `Index.MongoSort` | src/index.js:143-155 | Throws exactly when `orderBy` cannot be spread. |
| `Index.MongoSortFields` | src/index.js:143-155 | A field is sorted iff some `orderBy` object names it and it is sortable. Its direction comes from the last object naming it. |
| `Index.MongoSortEmpty` | src/index.js:143-147 | An absent or empty `orderBy` gives `{}`. |
| `Index.UndefinedFieldSorts` | src/index.js:149 | A field without a definition is sortable. |
| `Index.CreateMongoSort` | src/index.js:143-155 | The loop gives exactly `MongoSort`. |
| `Index.MongoResolver` | src/index.js:187-194 | A throwing sort throws first. Otherwise the filter is the translation of `where` with the corrected builder `MongoFilter`, not `createMongoFilter` as written. The sort is `defaultSort` iff the computed sort is empty, else the computed sort. |
| `Index.FragmentsHaveNoOr` | src/index.js:110-137 | With no field named `$or`, no corrected fragment holds `$or`. |
| `Index.MongoFilterExtensible` | src/index.js:107-140 | On destructurable definitions the corrected builder succeeds, with no `$or` and `$and` a list. |
| `Index.ResolverTotal` | src/index.js:187-194 | With destructurable definitions, no field named `$or`, and an absent or list `orderBy`, the resolver succeeds for every tree. |
| `Index.ResolverDefaultSort` | src/index.js:187-194 | Without `orderBy` the sort is `defaultSort`, or `{}` when that is absent. |
| `Index.Doc` | src/index.js:50 | `# doc\n` for a truthy doc, empty otherwise. |
| `Index.EnumInputOf` | src/index.js:54-57 | An enum input exists iff the field is filtered with the enum kind. It is named `${type}EnumFilter`, over `type`. |
| `Index.WhereFieldOf` | src/index.js:49-59 | A line exists iff `createFilter` is not falsy: the field's name and doc, with the filter kind or its enum input's name. |
| `Index.WhereFieldsMembers` | src/index.js:47-62 | A name has a `where` line iff some field of that name has `createFilter` not falsy. |
| `Index.EnumInputsMembers` | src/index.js:47-62 | An enum input for a type exists iff some filtered enum field has that type. |
| `Index.EnumInputsReferenced` | src/index.js:54-59 | Every enum input is the filter type of some `where` line. |
| `Index.WhereSpec` | src/index.js:43-69 | Throws iff some definition is nullish. The input is named `${queryName}Where`. Its lines are exactly `WhereFields` and its enum inputs exactly `EnumInputs`, in field order. |
| `Index.UnlistedFieldNotSearched` | src/index.js:112 | A field without a `where` line is never searched, as written or corrected. |
| `Index.FieldWhereSDL` | src/index.js:48-60 | The loop body gives exactly the field's enum input and line. |
| `Index.CreateWhereSDL` | src/index.js:43-69 | The loop gives exactly `WhereSpec`. |
| `Index.OrderByFieldOf` | src/index.js:73-77 | A line exists iff `createOrderBy` is not falsy, with the field's name and doc. |
| `Index.OrderByFieldsMembers` | src/index.js:71-84 | A name has an `orderBy` line iff some field of that name has `createOrderBy` not falsy. |
| `Index.OrderBySpec` | src/index.js:71-84 | Throws iff some definition is nullish. The input is named `${queryName}OrderBy`. Its lines are exactly `OrderByFields`, in field order. |
| `Index.OrderByMatchesSort` | src/index.js:73-74 | On unique field names, a defined field is offered for sorting iff `createMongoSort` keeps it. |
| `Index.CreateOrderBySDL` | src/index.js:71-84 | The loop gives exactly `OrderBySpec`. |
| `Index.OrderByOptOutSpelling` | src/index.js:73 | A factory-built field is sortable exactly according to a `createOrderBy` the caller passes, never `createOrdeBy`. |

## Left out

- src/utils.js is not part of this model: it is a constant SDL block passed through the `graphql-tag` parser. Its operator vocabulary only matters for `_ine`, which is stated by `Search.IneHasNoCase`.
- `enumType`, `enumFilterType`, `whereInput`, `createModelSDL`, `createQuerySDL` and `createModel` (src/index.js:8-20, 30-41, 86-104, 169-184) assemble template text. The whitespace layout of that text is not modelled. `createWhereSDL` and `createOrderBySDL` are modelled only for which lines, names and enum inputs appear, in which order.
- `console.error` for an unhandled filter kind (src/index.js:133) is modelled as "contributes nothing".
- Regular expressions and MongoDB matching: `$regex` values are plain strings, and nothing is evaluated against a database.
- Numbers are integers. Floating point, `NaN` and number-to-string formatting beyond integers are not modelled.
- lodash `get` with a field name containing `.` is treated as a plain lookup. Only the map-level meaning of `isEmpty`, `mapKeys` and `mapValues` is modelled.
- Objects have only own enumerable properties in insertion order. Prototype properties and methods are out of scope. So are integer-like keys, which JavaScript orders first.
  - `Js.Member`: does not model prototype members, only own entries, `length`, and index keys of strings and arrays.
- `Js.Spread`: does not model iterables other than arrays and strings. Any other value cannot be spread.
- A field whose `type` is a function value cannot be represented: `Value` has no functions. This is why the `type === types.Int` comparison is modelled by its outcome, which is never true for a string type.
- The `where` tree holds `_or`, `_and` and `_not` only as lists (`Connective`). A connective that holds a non-list value, which makes `.map` throw in JavaScript, is not modelled. Nor is a field literally named `_or`, `_and` or `_not`.
- `searchFunc` is a parameter of the translator. Aliasing between the object it returns and other objects is not modelled: the returned fragment is copied into a fresh `JsObject`.
- Engine error messages (`TypeError: ...`) are modelled as fixed strings. Only whether a call throws, and which entry triggers it, is stated.
- `Search.SearchNumeric`: states the key set and, through `Search.SearchNumericKeepsValues`, the values for operators whose renamed keys do not clash. When two operators rename to the same key, lodash's last-wins choice is stated only through `Js.Assign`.
- Inputs whose types the model cannot represent, so their error paths are not modelled:
  - a truthy `where` that is not an object, such as a number or a non-empty string, which throws at `"_or" in searchParams` (src/search.js:67);
  - `fieldDefinitions = null`, which throws at `Object.entries(null)` (src/index.js:107-110) because the default applies only to `undefined`;
  - `searchParams` that is `null` or `undefined`, which throws at `searchParams["orderBy"]` (src/index.js:188).
- `Index.MongoSort`: its own contract states only when it throws. The sorted fields, their directions and their order are stated by `Index.MongoSortFields`, `Index.SortOf` and `Index.SortOfKeys`.

Notable behaviours of the code, stated as lemmas:
- An operator outside `_stringOperator`'s table (src/search.js:13-42) yields `undefined` rather than failing (`Search.IneHasNoCase`).
- `searchString` (src/search.js:44-52) gives `{ $and: [] }` for an empty comparison map, not an empty fragment (`Search.SearchStringEmpty`).
- `_not` inside `_not` (src/search.js:84-96) nests a second `$not` instead of restoring the original condition (`Search.DoubleNegationNests`).
- A connective whose list is empty still attaches its key, for example `$or: []`, because the test is `"_or" in searchParams` (`Search.TranslateOrLayout`).
- `createMongoFilter` combines its fragments with `Object.assign` (src/index.js:139), so a later key replaces an earlier one (`Index.MongoFilterAsWritten`).

## Findings

| source | as written | input that shows it | evidently intended | confidence | as-written member | corrected member |
|---|---|---|---|---|---|---|
| src/index.js:119-131 | `searchNumeric(whereParams, fieldName)` and `searchString(whereParams, fieldName)`, the reverse of the `(fieldName, fieldValue)` parameters | an `Int` field `a` with `where = { a: { _eq: 1 } }`: the fragment is keyed `[object Object]` and holds `{ "0": "a" }`-like entries of the name | `search(fieldName, whereParams[fieldName])` | high, not executed | `Index.SwappedArguments` (with `Index.PushedAsWritten`) | `Index.Pushed` |
| src/index.js:117-122 | `type === types.Int` / `type === types.String` compare a type string with factory functions, never true | an `IDFilter` field of type `"Int"` with a condition: nothing is searched | compare with the type names `"Int"` and `"String"` | high, not executed | `Index.IdFilterNeverSearchedAsWritten` (with `Index.DispatchAsWritten`) | `Index.Dispatch` |
| src/index.js:139 | `Object.assign({}, ...searchResults)` keeps only the last fragment's `$and` | two `String` fields, each with one condition: only the second field's conjunct survives | concatenate the `$and` lists, as the test "multiple string searches should not override $and" (src/search.test.js:37) asks | high, not executed | `Index.AssignOverridesAnd` | `Index.Merge` (with `Index.MergeKeepsEveryConjunct`) |
| src/index.js:127-131 | a filtered field is searched whatever its condition, including `{}` | a `String` field `a` with `where = { a: {} }`: with the swapped operands, `searchString` reads `"a"` as the comparison map, and the filter is `{ $and: [{ "[object Object]": undefined }] }` | such a field contributes nothing, as the test "empty field searches should do nothing" (src/search.test.js:25-30) asks | medium, not executed | `Index.EmptyFieldSearchAsWritten` (with `Index.SwappedStringSearch`) | `Index.EmptyFieldSearch` (with `Index.Pushed`) |
