/**
 * The model-level entry points (src/index.js): field validation, the per-model
 * filter and sort builders handed to MongoDB, the resolver that combines them, and
 * the field selection behind the generated `where` and `orderBy` inputs.
 *
 * `fieldDefinitions` is an object; it is represented by its entries, one
 * `Prop(fieldName, definition)` per field, in order.
 */
module Index {
  import opened Js
  import opened Search
  import Types

  // ---------------------------------------------------------------------------
  // Reading a field definition.
  // ---------------------------------------------------------------------------

  /** `createFilter = true`: a field is searchable unless its definition says otherwise. */
  predicate CreatesFilter(def: Value) {
    Truthy(Default(Member(def, "createFilter"), Bool(true)))
  }

  /** `createOrderBy = true`: a field is sortable unless its definition says otherwise. */
  predicate CreatesOrderBy(def: Value) {
    Truthy(Default(Member(def, "createOrderBy"), Bool(true)))
  }

  /** The filter kind of a field: its `filterType` if truthy, otherwise `${type}Filter`. */
  function FilterType(def: Value): (r: Value)
    ensures Truthy(Member(def, "filterType")) ==> r == Member(def, "filterType")
    ensures !Truthy(Member(def, "filterType")) ==> r == Str(ToStr(Member(def, "type")) + "Filter")
  {
    var filterType := Member(def, "filterType");
    if Truthy(filterType) then filterType else Str(ToStr(Member(def, "type")) + "Filter")
  }

  /** The first definition that cannot be destructured (`null` or `undefined`), if any. */
  function FirstNullish(defs: seq<Prop>): (r: Option<nat>)
    ensures r.None? <==> forall i :: 0 <= i < |defs| ==> !Nullish(defs[i].val)
    ensures r.Some? ==> r.value < |defs| && Nullish(defs[r.value].val) &&
                        forall j :: 0 <= j < r.value ==> !Nullish(defs[j].val)
  {
    if defs == [] then None
    else if Nullish(defs[0].val) then Some(0)
    else
      var rest := FirstNullish(defs[1..]);
      assert forall i :: 1 <= i < |defs| ==> defs[i] == defs[1..][i - 1];
      if rest.None? then None else Some(rest.value + 1)
  }

  /** The first nullish definition is the one every earlier definition precedes. */
  lemma FirstNullishAt(defs: seq<Prop>, i: nat)
    requires i < |defs| && Nullish(defs[i].val)
    requires forall j :: 0 <= j < i ==> !Nullish(defs[j].val)
    ensures FirstNullish(defs) == Some(i)
  {
  }

  // ---------------------------------------------------------------------------
  // `validateFields`.
  // ---------------------------------------------------------------------------

  /** What `validateFields` objects to in one entry: a definition without a truthy `type`. */
  function FieldError(p: Prop): (r: Option<string>)
    ensures r.None? <==> !Nullish(p.val) && Truthy(Member(p.val, "type"))
    ensures !Nullish(p.val) && r.Some? ==> r.value == p.key + " has no type specified."
  {
    if Nullish(p.val) then Some(Types.DestructureError("type", p.val))
    else if !Truthy(Member(p.val, "type")) then Some(p.key + " has no type specified.")
    else None
  }

  /**
   * `validateFields(fieldDefinitions)`: throws for the first field whose definition has
   * no truthy `type`, and does nothing when every field has one.
   */
  method ValidateFields(defs: seq<Prop>) returns (r: Result<()>)
    ensures r.Ok? <==> forall i :: 0 <= i < |defs| ==> FieldError(defs[i]).None?
    ensures r.Throw? ==> exists i :: 0 <= i < |defs| && FieldError(defs[i]) == Some(r.error) &&
                          forall j :: 0 <= j < i ==> FieldError(defs[j]).None?
  {
    var i := 0;
    while i < |defs|
      invariant 0 <= i <= |defs|
      invariant forall j :: 0 <= j < i ==> FieldError(defs[j]).None?
    {
      var def := defs[i].val;
      if Nullish(def) {
        return Throw(Types.DestructureError("type", def));
      }
      if !Truthy(Member(def, "type")) {
        return Throw(defs[i].key + " has no type specified.");
      }
      i := i + 1;
    }
    return Ok(());
  }

  /** A definition built by `types` with a non-empty type name passes validation. */
  lemma FactoryFieldsValidate(name: string, t: string, opts: Value)
    requires t != "" && !opts.Null? && !Has(OwnEntries(opts), "type")
    ensures FieldError(Prop(name, Obj(Types.Field(Str(t), opts).value))).None?
  {
    Types.FieldType(Str(t), opts);
  }

  // ---------------------------------------------------------------------------
  // `createMongoFilter`: choosing a search per field.
  // ---------------------------------------------------------------------------

  /** The search a field's filter kind selects. */
  datatype SearchKind = NumericSearch | BooleanSearch | StringSearch | NoSearch | Unhandled

  /**
   * The dispatch as written. For `IDFilter` the code compares the field's type with
   * `types.Int` and `types.String`, which are the factory functions of src/types.js and
   * not type names; a field's type is a string, never one of those functions, so an
   * `IDFilter` field selects no search at all.
   */
  function DispatchAsWritten(filterType: Value): (k: SearchKind)
    ensures k == NoSearch <==> filterType == Str(Types.IDFilter)
    ensures k == NumericSearch <==> filterType in {Str(Types.IntFilter), Str(Types.FloatFilter)}
    ensures k == BooleanSearch <==> filterType == Str(Types.BooleanFilter)
    ensures k == StringSearch <==> filterType in {Str(Types.StringFilter), Str(Types.EnumFilter)}
  {
    if filterType == Str(Types.IDFilter) then NoSearch
    else if filterType == Str(Types.IntFilter) || filterType == Str(Types.FloatFilter) then NumericSearch
    else if filterType == Str(Types.BooleanFilter) then BooleanSearch
    else if filterType == Str(Types.StringFilter) || filterType == Str(Types.EnumFilter) then StringSearch
    else Unhandled
  }

  /**
   * The dispatch the `IDFilter` branch evidently intends: an `Int` identifier is
   * searched numerically, a `String` identifier as a string, any other not at all.
   */
  function Dispatch(fieldType: Value, filterType: Value): (k: SearchKind)
    ensures filterType != Str(Types.IDFilter) ==> k == DispatchAsWritten(filterType)
    ensures filterType == Str(Types.IDFilter) ==>
              k == (if fieldType == Str("Int") then NumericSearch
                    else if fieldType == Str("String") then StringSearch
                    else NoSearch)
  {
    if filterType == Str(Types.IDFilter) then
      if fieldType == Str("Int") then NumericSearch
      else if fieldType == Str("String") then StringSearch
      else NoSearch
    else DispatchAsWritten(filterType)
  }

  /**
   * As written, an `IDFilter` field contributes nothing to the filter, whatever its type
   * and condition; corrected, an `Int` identifier with a condition is searched numerically.
   */
  lemma IdFilterNeverSearchedAsWritten(p: Prop, w: Where)
    requires !Nullish(p.val) && CreatesFilter(p.val) && FilterType(p.val) == Str(Types.IDFilter)
    ensures PushedAsWritten(p, w) == Ok([])
    ensures Member(p.val, "type") == Str("Int") && OwnEntries(Member(WhereValue(w), p.key)) != [] ==>
              Pushed(p, w) == Ok([SearchNumeric(Str(p.key), Member(WhereValue(w), p.key))])
  {
  }

  /**
   * The fragments one search contributes: one for a searched field, none for a field
   * that selects no search or an unhandled kind (which the source only logs).
   */
  function Searched(kind: SearchKind, fieldName: Value, fieldValue: Value): (r: Result<seq<seq<Prop>>>)
    ensures kind in {NoSearch, Unhandled} ==> r == Ok([])
    ensures kind in {NumericSearch, BooleanSearch} ==> r == Ok([SearchNumeric(fieldName, fieldValue)])
    ensures kind == StringSearch ==> (r.Throw? <==> Nullish(fieldValue))
    ensures kind == StringSearch && r.Ok? ==> r.value == [SearchString(fieldName, fieldValue).value]
  {
    match kind
    case NumericSearch => Ok([SearchNumeric(fieldName, fieldValue)])
    case BooleanSearch => Ok([SearchNumeric(fieldName, fieldValue)])
    case StringSearch =>
      (match SearchString(fieldName, fieldValue)
       case Ok(f) => Ok([f])
       case Throw(e) => Throw(e))
    case _ => Ok([])
  }

  /** The `whereParams` object a node stands for (only its field conditions are kept). */
  function WhereValue(w: Where): (v: Value)
    ensures w.Node? ==> v == Obj(w.fields)
  {
    if w.Node? then Obj(w.fields) else Undefined
  }

  /**
   * One iteration of `createMongoFilter`'s loop as written: the search functions are
   * called as `(whereParams, fieldName)`, the reverse of their `(fieldName, fieldValue)`
   * parameters.
   */
  function PushedAsWritten(p: Prop, w: Where): (r: Result<seq<seq<Prop>>>)
    ensures r.Throw? <==> Nullish(p.val)
    ensures r.Ok? ==> |r.value| <= 1
    ensures r.Ok? && !CreatesFilter(p.val) ==> r.value == []
    ensures !Nullish(p.val) && CreatesFilter(p.val) ==>
              r == Searched(DispatchAsWritten(FilterType(p.val)), WhereValue(w), Str(p.key))
  {
    if Nullish(p.val) then Throw(Types.DestructureError("type", p.val))
    else if !CreatesFilter(p.val) then Ok([])
    else Searched(DispatchAsWritten(FilterType(p.val)), WhereValue(w), Str(p.key))
  }

  /**
   * One iteration as evidently intended: the field's own condition `whereParams[fieldName]`
   * is searched under the field's name, and a field the `where` gives no condition for
   * contributes nothing.
   */
  function Pushed(p: Prop, w: Where): (r: Result<seq<seq<Prop>>>)
    ensures r.Throw? <==> Nullish(p.val)
    ensures r.Ok? ==> |r.value| <= 1
    ensures r.Ok? && !CreatesFilter(p.val) ==> r.value == []
    ensures r.Ok? && OwnEntries(Member(WhereValue(w), p.key)) == [] ==> r.value == []
    ensures !Nullish(p.val) && CreatesFilter(p.val) && OwnEntries(Member(WhereValue(w), p.key)) != [] ==>
              r == Searched(Dispatch(Member(p.val, "type"), FilterType(p.val)), Str(p.key),
                            Member(WhereValue(w), p.key))
  {
    if Nullish(p.val) then Throw(Types.DestructureError("type", p.val))
    else if !CreatesFilter(p.val) then Ok([])
    else
      var cond := Member(WhereValue(w), p.key);
      if OwnEntries(cond) == [] then Ok([])
      else
        Searched(Dispatch(Member(p.val, "type"), FilterType(p.val)), Str(p.key), cond)
  }

  /**
   * A fragment of the corrected loop holds one key: the field's name, or `$and` with a
   * list of conjuncts.
   */
  lemma PushedShape(p: Prop, w: Where)
    requires Pushed(p, w).Ok?
    ensures forall f: seq<Prop> :: f in Pushed(p, w).value ==>
              |f| == 1 && (f[0].key == p.key || (f[0].key == "$and" && f[0].val.Arr?))
  {
    var cond := Member(WhereValue(w), p.key);
    if !CreatesFilter(p.val) || OwnEntries(cond) == [] {
      assert Pushed(p, w).value == [];
    } else {
      var kind := Dispatch(Member(p.val, "type"), FilterType(p.val));
      assert Pushed(p, w) == Searched(kind, Str(p.key), cond);
      SearchedShape(kind, Str(p.key), cond);
    }
  }

  /** So a fragment of the corrected loop never holds `$or` unless the field is named `$or`. */
  lemma PushedHasNoOr(p: Prop, w: Where)
    requires Pushed(p, w).Ok? && p.key != "$or"
    ensures forall f: seq<Prop> :: f in Pushed(p, w).value ==> !Has(f, "$or")
  {
    PushedShape(p, w);
    forall f: seq<Prop> | f in Pushed(p, w).value ensures !Has(f, "$or") {
      assert f[1..] == [];
    }
  }

  /** Each fragment of a search holds one key: the searched name, or `$and` with a list. */
  lemma SearchedShape(kind: SearchKind, fieldName: Value, fieldValue: Value)
    requires Searched(kind, fieldName, fieldValue).Ok?
    ensures forall f: seq<Prop> :: f in Searched(kind, fieldName, fieldValue).value ==>
              |f| == 1 && (f[0].key == ToStr(fieldName) || (f[0].key == "$and" && f[0].val.Arr?))
  {
    match kind
    case NumericSearch =>
      assert Searched(kind, fieldName, fieldValue).value == [SearchNumeric(fieldName, fieldValue)];
    case BooleanSearch =>
      assert Searched(kind, fieldName, fieldValue).value == [SearchNumeric(fieldName, fieldValue)];
    case StringSearch =>
      assert Searched(kind, fieldName, fieldValue).value == [SearchString(fieldName, fieldValue).value];
    case _ =>
  }

  /** The callback of `createMongoFilter`'s loop, as written or corrected. */
  function Step(w: Where, asWritten: bool): Prop -> Result<seq<seq<Prop>>>
  {
    p => if asWritten then PushedAsWritten(p, w) else Pushed(p, w)
  }

  /** Either callback throws exactly on a definition that cannot be destructured. */
  lemma StepThrowIff(w: Where, asWritten: bool, p: Prop)
    ensures Step(w, asWritten)(p).Throw? <==> Nullish(p.val)
  {
    if asWritten {
      assert Step(w, asWritten)(p) == PushedAsWritten(p, w);
    } else {
      assert Step(w, asWritten)(p) == Pushed(p, w);
    }
  }

  /**
   * The fragments a `forEach` over the definitions collects with the callback `step`,
   * field by field in order; the first callback that throws ends the loop.
   */
  function Fragments(defs: seq<Prop>, step: Prop -> Result<seq<seq<Prop>>>): Result<seq<seq<Prop>>>
    decreases |defs|
  {
    if defs == [] then Ok([])
    else
      var prior := Fragments(defs[..|defs| - 1], step);
      var pushed := step(defs[|defs| - 1]);
      if prior.Throw? then prior
      else if pushed.Throw? then pushed
      else Ok(prior.value + pushed.value)
  }

  /** The loop throws exactly when the callback throws on some definition. */
  lemma {:induction false} FragmentsThrowIff(defs: seq<Prop>, step: Prop -> Result<seq<seq<Prop>>>)
    ensures Fragments(defs, step).Throw? <==> exists i :: 0 <= i < |defs| && step(defs[i]).Throw?
  {
    if defs != [] {
      var init, last := defs[..|defs| - 1], defs[|defs| - 1];
      FragmentsThrowIff(init, step);
      if exists i :: 0 <= i < |defs| && step(defs[i]).Throw? {
        var i :| 0 <= i < |defs| && step(defs[i]).Throw?;
        if i < |init| {
          assert step(init[i]).Throw?;
        }
      }
      if Fragments(init, step).Throw? {
        var i :| 0 <= i < |init| && step(init[i]).Throw?;
        assert step(defs[i]).Throw?;
      }
    }
  }

  /** `createMongoFilter`'s loop throws exactly when some definition cannot be destructured. */
  lemma LoopThrowIff(defs: seq<Prop>, w: Where, asWritten: bool)
    ensures Fragments(defs, Step(w, asWritten)).Throw? <==> exists i :: 0 <= i < |defs| && Nullish(defs[i].val)
  {
    FragmentsThrowIff(defs, Step(w, asWritten));
    forall i | 0 <= i < |defs| ensures Step(w, asWritten)(defs[i]).Throw? <==> Nullish(defs[i].val) {
      StepThrowIff(w, asWritten, defs[i]);
    }
  }

  /** Once a prefix of the definitions has thrown, the whole loop has thrown the same error. */
  lemma {:induction false} FragmentsKeepThrow(defs: seq<Prop>, n: nat, step: Prop -> Result<seq<seq<Prop>>>)
    requires n <= |defs| && Fragments(defs[..n], step).Throw?
    ensures Fragments(defs, step) == Fragments(defs[..n], step)
    decreases |defs| - n
  {
    if n < |defs| {
      assert defs[..n + 1][..n] == defs[..n];
      FragmentsKeepThrow(defs, n + 1, step);
    } else {
      assert defs[..n] == defs;
    }
  }

  /** One more iteration of the loop: a throw ends it, otherwise the field's fragments are appended. */
  lemma FragmentsStep(defs: seq<Prop>, n: nat, step: Prop -> Result<seq<seq<Prop>>>, acc: seq<seq<Prop>>)
    requires n < |defs| && Fragments(defs[..n], step) == Ok(acc)
    ensures step(defs[n]).Throw? ==> Fragments(defs, step) == step(defs[n])
    ensures step(defs[n]).Ok? ==> Fragments(defs[..n + 1], step) == Ok(acc + step(defs[n]).value)
  {
    assert defs[..n + 1][..n] == defs[..n] && defs[..n + 1][n] == defs[n];
    if Fragments(defs[..n + 1], step).Throw? {
      FragmentsKeepThrow(defs, n + 1, step);
    }
  }

  /** `createMongoFilter(fieldDefinitions)(whereParams)` as written: `Object.assign({}, ...searchResults)`. */
  function MongoFilterAsWritten(defs: seq<Prop>, w: Where): (r: Result<seq<Prop>>)
    ensures r.Throw? <==> exists i :: 0 <= i < |defs| && Nullish(defs[i].val)
    ensures r.Ok? <==> Fragments(defs, Step(w, true)).Ok?
    ensures r.Ok? ==> forall k :: Get(r.value, k) == LastDef(Flatten(Fragments(defs, Step(w, true)).value), k)
  {
    LoopThrowIff(defs, w, true);
    match Fragments(defs, Step(w, true))
    case Throw(e) => Throw(e)
    case Ok(frags) => Ok(AssignAll(frags))
  }

  /**
   * The body of `createMongoFilter`'s `forEach` callback for a definition that can be
   * destructured: the fragments it pushes onto `searchResults`, branch by branch.
   */
  method FilterField(p: Prop, w: Where) returns (pushed: seq<seq<Prop>>)
    requires !Nullish(p.val)
    ensures PushedAsWritten(p, w) == Ok(pushed)
  {
    pushed := [];
    var def := p.val;
    if Truthy(Default(Member(def, "createFilter"), Bool(true))) {
      var filterType := Member(def, "filterType");
      if !Truthy(filterType) {
        filterType := Str(ToStr(Member(def, "type")) + "Filter");
      }
      assert PushedAsWritten(p, w) == Searched(DispatchAsWritten(filterType), WhereValue(w), Str(p.key));
      if filterType == Str(Types.IDFilter) {
        // `type === types.Int` and `type === types.String` never hold: see DispatchAsWritten.
        assert DispatchAsWritten(filterType) == NoSearch;
      } else if filterType == Str(Types.IntFilter) || filterType == Str(Types.FloatFilter) {
        assert DispatchAsWritten(filterType) == NumericSearch;
        pushed := [SearchNumeric(WhereValue(w), Str(p.key))];
      } else if filterType == Str(Types.BooleanFilter) {
        assert DispatchAsWritten(filterType) == BooleanSearch;
        pushed := [SearchNumeric(WhereValue(w), Str(p.key))];
      } else if filterType == Str(Types.StringFilter) || filterType == Str(Types.EnumFilter) {
        assert DispatchAsWritten(filterType) == StringSearch;
        var s := SearchString(WhereValue(w), Str(p.key));
        pushed := [s.value];
      } else {
        // Unhandled filter kind: logged, nothing pushed.
        assert DispatchAsWritten(filterType) == Unhandled;
      }
    }
  }

  /**
   * `createMongoFilter(fieldDefinitions)(whereParams)` as the source is written: the
   * loop pushes each field's fragment, and `Object.assign` combines them.
   */
  method CreateMongoFilter(defs: seq<Prop>, w: Where) returns (r: Result<seq<Prop>>)
    ensures r == MongoFilterAsWritten(defs, w)
  {
    var searchResults: seq<seq<Prop>> := [];
    var i := 0;
    while i < |defs|
      invariant 0 <= i <= |defs|
      invariant Fragments(defs[..i], Step(w, true)) == Ok(searchResults)
    {
      FragmentsStep(defs, i, Step(w, true), searchResults);
      assert Step(w, true)(defs[i]) == PushedAsWritten(defs[i], w);
      if Nullish(defs[i].val) {
        return Throw(Types.DestructureError("type", defs[i].val));
      }
      var pushed := FilterField(defs[i], w);
      searchResults := searchResults + pushed;
      i := i + 1;
    }
    assert defs[..i] == defs;
    return Ok(AssignAll(searchResults));
  }

  // ---------------------------------------------------------------------------
  // Combining fragments so that no `$and` conjunct is lost.
  // ---------------------------------------------------------------------------

  /** The conjuncts a fragment holds under `$and`. */
  function AndList(frag: seq<Prop>): (r: seq<Value>)
    ensures Get(frag, "$and").Arr? ==> r == Get(frag, "$and").items
  {
    if Get(frag, "$and").Arr? then Get(frag, "$and").items else []
  }

  /** Every fragment's `$and` conjuncts, fragments in order. */
  function Conjuncts(frags: seq<seq<Prop>>): (r: seq<Value>)
    ensures frags == [] ==> r == []
  {
    if frags == [] then [] else Conjuncts(frags[..|frags| - 1]) + AndList(frags[|frags| - 1])
  }

  /** Each conjunct of each fragment appears in the combined list. */
  lemma {:induction false} ConjunctsKeepAll(frags: seq<seq<Prop>>, i: nat, c: Value)
    requires i < |frags| && c in AndList(frags[i])
    ensures c in Conjuncts(frags)
  {
    var init := frags[..|frags| - 1];
    if i < |init| {
      assert init[i] == frags[i];
      ConjunctsKeepAll(init, i, c);
    }
  }

  /**
   * The combination the test "multiple string searches should not override $and"
   * asks for: `Object.assign` for every key but `$and`, whose lists are concatenated.
   */
  function Merge(frags: seq<seq<Prop>>): (r: seq<Prop>)
    ensures forall k :: Has(r, k) <==> Has(Flatten(frags), k)
    ensures forall k :: k != "$and" ==> Get(r, k) == LastDef(Flatten(frags), k)
    ensures Has(r, "$and") ==> Get(r, "$and") == Arr(Conjuncts(frags))
  {
    var combined := AssignAll(frags);
    if Has(combined, "$and") then Put(combined, "$and", Arr(Conjuncts(frags))) else combined
  }

  /** No fragment's conjunct is dropped by `Merge`, while `Object.assign` keeps only the last list. */
  lemma MergeKeepsEveryConjunct(frags: seq<seq<Prop>>, i: nat, c: Value)
    requires i < |frags| && Get(frags[i], "$and").Arr? && c in Get(frags[i], "$and").items
    ensures Has(Merge(frags), "$and") && Get(Merge(frags), "$and").Arr?
    ensures c in Get(Merge(frags), "$and").items
  {
    FlattenHas(frags, "$and");
    assert Has(frags[i], "$and");
    ConjunctsKeepAll(frags, i, c);
  }

  /** The filter builder with the argument order, the `IDFilter` dispatch and the combination corrected. */
  function MongoFilter(defs: seq<Prop>, w: Where): (r: Result<seq<Prop>>)
    ensures r.Throw? <==> exists i :: 0 <= i < |defs| && Nullish(defs[i].val)
    ensures r.Ok? <==> Fragments(defs, Step(w, false)).Ok?
    ensures r.Ok? ==> r.value == Merge(Fragments(defs, Step(w, false)).value)
  {
    LoopThrowIff(defs, w, false);
    match Fragments(defs, Step(w, false))
    case Throw(e) => Throw(e)
    case Ok(frags) => Ok(Merge(frags))
  }

  /**
   * As written, a numeric field's fragment is keyed by the string of `whereParams`, which
   * is `[object Object]`, and holds the field's name as its condition; corrected, it is
   * keyed by the field's name and holds the field's own condition.
   */
  lemma SwappedArguments(p: Prop, w: Where)
    requires w.Node? && !Nullish(p.val) && CreatesFilter(p.val)
    requires FilterType(p.val) == Str(Types.IntFilter)
    ensures PushedAsWritten(p, w) == Ok([SearchNumeric(Obj(w.fields), Str(p.key))])
    ensures PushedAsWritten(p, w).value[0][0].key == "[object Object]"
    ensures OwnEntries(Member(Obj(w.fields), p.key)) != [] ==>
              Pushed(p, w) == Ok([SearchNumeric(Str(p.key), Member(Obj(w.fields), p.key))]) &&
              Pushed(p, w).value[0][0].key == p.key
  {
  }

  /** A loop over a single definition yields exactly what its callback yields. */
  lemma FragmentsOfOne(p: Prop, step: Prop -> Result<seq<seq<Prop>>>)
    ensures Fragments([p], step) == step(p)
  {
    assert [p][..0] == [];
    if step(p).Ok? {
      assert [] + step(p).value == step(p).value;
    }
  }

  /** The definition of the tests below: a `String` field `a`. */
  function StringFieldA(): seq<Prop>
  {
    [Prop("a", Obj([Prop("type", Str("String"))]))]
  }

  /** The `where` tree of the tests below: field `a` with the empty condition `{}`. */
  function EmptyConditionOnA(): Where
  {
    Node([Prop("a", Obj([]))], Absent, Absent, Absent)
  }

  /**
   * The test "empty field searches should do nothing": once corrected, a `String` field
   * `a` with the condition `{}` gives the empty filter.
   */
  lemma EmptyFieldSearch()
    ensures MongoFilter(StringFieldA(), EmptyConditionOnA()) == Ok([])
  {
    var defs, w := StringFieldA(), EmptyConditionOnA();
    FragmentsOfOne(defs[0], Step(w, false));
    assert Step(w, false)(defs[0]) == Pushed(defs[0], w);
    assert OwnEntries(Member(WhereValue(w), "a")) == [];
    assert Pushed(defs[0], w) == Ok([]);
  }

  /** As written, the same input searches `a` anyway, with the operands swapped. */
  lemma StringFieldSearchedAsWritten()
    ensures PushedAsWritten(StringFieldA()[0], EmptyConditionOnA()) ==
            Ok([SearchString(WhereValue(EmptyConditionOnA()), Str("a")).value])
  {
    var def := StringFieldA()[0].val;
    assert Member(def, "filterType") == Undefined && Member(def, "createFilter") == Undefined;
    assert Member(def, "type") == Str("String");
    assert FilterType(def) == Str(Types.StringFilter);
    assert DispatchAsWritten(FilterType(def)) == StringSearch;
  }

  /** No string operator is a decimal index: every operator starts with `_`. */
  lemma IndexNamesNoOperator()
    ensures "0" !in StringOperators
  {
    forall op | op in StringOperators ensures op[0] == '_' { }
  }

  /**
   * With the operands swapped, the string `"a"` is taken as the comparison map: its one
   * entry `["0", "a"]` names no operator, and the `where` object becomes the key.
   */
  lemma SwappedStringSearch(fields: seq<Prop>)
    ensures SearchString(Obj(fields), Str("a")) ==
            Ok([Prop("$and", Arr([Obj([Prop("[object Object]", Undefined)])]))])
  {
    EntriesOfA();
    var r := SearchString(Obj(fields), Str("a"));
    var c := r.value[0].val.items;
    assert |c| == 1 && c[0] == Obj([Prop(ToStr(Obj(fields)), StringOperator("0", Str("a")))]);
    assert c == [Obj([Prop("[object Object]", Undefined)])];
  }

  /** The string `"a"` has the one entry `["0", "a"]`, and `"0"` names no operator. */
  lemma EntriesOfA()
    ensures OwnEntries(Str("a")) == [Prop("0", Str("a"))]
    ensures StringOperator("0", Str("a")) == Undefined
  {
    assert Chars("a") == [Str("a")] by { assert "a"[..0] == []; }
    assert [Str("a")][..0] == [];
    assert NatToString(0) == "0";
    IndexNamesNoOperator();
  }

  /** As written, the loop for that input pushes one fragment, from the swapped string search. */
  lemma EmptyFieldFragmentsAsWritten()
    ensures Fragments(StringFieldA(), Step(EmptyConditionOnA(), true)) ==
            Ok([[Prop("$and", Arr([Obj([Prop("[object Object]", Undefined)])]))]])
  {
    var defs, w := StringFieldA(), EmptyConditionOnA();
    FragmentsOfOne(defs[0], Step(w, true));
    assert Step(w, true)(defs[0]) == PushedAsWritten(defs[0], w);
    StringFieldSearchedAsWritten();
    SwappedStringSearch(w.fields);
  }

  /**
   * As written, the same input gives `{ $and: [{ "[object Object]": undefined }] }`
   * rather than `{}`.
   */
  lemma EmptyFieldSearchAsWritten()
    ensures MongoFilterAsWritten(StringFieldA(), EmptyConditionOnA()).Ok?
    ensures Has(MongoFilterAsWritten(StringFieldA(), EmptyConditionOnA()).value, "$and")
    ensures Get(MongoFilterAsWritten(StringFieldA(), EmptyConditionOnA()).value, "$and") ==
            Arr([Obj([Prop("[object Object]", Undefined)])])
  {
    EmptyFieldFragmentsAsWritten();
    var and := Prop("$and", Arr([Obj([Prop("[object Object]", Undefined)])]));
    var frags: seq<seq<Prop>> := [[and]];
    assert Flatten(frags) == [and] by { assert frags[..0] == []; }
    FlattenHas(frags, "$and");
    LastDefSingle([and], 0);
  }

  /**
   * The test "multiple string searches should not override $and": the fragments of two
   * string fields both hold `$and`; `Object.assign` keeps only the second list, `Merge`
   * keeps both conjuncts in field order.
   */
  lemma AssignOverridesAnd()
    ensures var a := Obj([Prop("a", Obj([Prop("$eq", Str("1"))]))]);
            var b := Obj([Prop("b", Obj([Prop("$eq", Str("2"))]))]);
            var frags := [[Prop("$and", Arr([a]))], [Prop("$and", Arr([b]))]];
            Get(AssignAll(frags), "$and") == Arr([b]) && Get(Merge(frags), "$and") == Arr([a, b])
  {
    var a := Obj([Prop("a", Obj([Prop("$eq", Str("1"))]))]);
    var b := Obj([Prop("b", Obj([Prop("$eq", Str("2"))]))]);
    var frags := [[Prop("$and", Arr([a]))], [Prop("$and", Arr([b]))]];
    assert frags[..1][..0] == [];
    assert Conjuncts(frags) == [a, b];
    FlattenHas(frags, "$and");
  }

  // ---------------------------------------------------------------------------
  // `createMongoSort`.
  // ---------------------------------------------------------------------------

  /**
   * `get(fieldDefinitions, `${fieldName}.createOrderBy`, true)`: the field's own
   * `createOrderBy`, or `true` when the field or the flag is missing.
   */
  function SortFlag(defs: seq<Prop>, name: string): (r: Value)
    ensures !Has(defs, name) ==> r == Bool(true)
    ensures Has(defs, name) && !Nullish(Get(defs, name)) ==> r == Default(Member(Get(defs, name), "createOrderBy"), Bool(true))
  {
    var def := Get(defs, name);
    Default(if Nullish(def) then Undefined else Member(def, "createOrderBy"), Bool(true))
  }

  /** Whether `createMongoSort` keeps a field of the merged `orderBy`. */
  predicate Sortable(defs: seq<Prop>, name: string) {
    Truthy(SortFlag(defs, name))
  }

  /** `order === "asc" ? 1 : -1`. */
  function Direction(order: Value): (r: Value)
    ensures r == Num(1) <==> order == Str("asc")
    ensures r == Num(-1) <==> order != Str("asc")
  {
    if order == Str("asc") then Num(1) else Num(-1)
  }

  /** The keys of `ks` that `createMongoSort` keeps, in order. */
  function SortableKeys(defs: seq<Prop>, ks: seq<string>): (r: seq<string>)
    ensures forall k :: k in r <==> k in ks && Sortable(defs, k)
  {
    if ks == [] then []
    else
      var init := ks[..|ks| - 1];
      var last := ks[|ks| - 1];
      assert ks == init + [last];
      SortableKeys(defs, init) + (if Sortable(defs, last) then [last] else [])
  }

  /**
   * The object the loop over `Object.entries(mergedOrderBy)` builds, entry by entry:
   * `ret[fieldName] = order === "asc" ? 1 : -1` for every kept field.
   */
  function SortOf(defs: seq<Prop>, merged: seq<Prop>): (r: seq<Prop>)
    ensures forall k :: Has(r, k) <==> Has(merged, k) && Sortable(defs, k)
    ensures forall k :: Has(r, k) ==> Get(r, k) == Direction(LastDef(merged, k))
  {
    if merged == [] then []
    else
      var init := merged[..|merged| - 1];
      var last := merged[|merged| - 1];
      assert merged == init + [last];
      var prev := SortOf(defs, init);
      forall k ensures Has(merged, k) <==> Has(init, k) || Has([last], k)
        ensures LastDef(merged, k) == if Has([last], k) then LastDef([last], k) else LastDef(init, k)
      {
        LastDefAppend(init, [last], k);
      }
      assert forall k :: Has([last], k) <==> k == last.key;
      if Sortable(defs, last.key) then Put(prev, last.key, Direction(last.val)) else prev
  }

  /** One more entry of the loop over `Object.entries(mergedOrderBy)`. */
  lemma SortOfSnoc(defs: seq<Prop>, init: seq<Prop>, last: Prop)
    ensures SortOf(defs, init + [last]) ==
            if Sortable(defs, last.key) then Put(SortOf(defs, init), last.key, Direction(last.val))
            else SortOf(defs, init)
    ensures SortableKeys(defs, Keys(init) + [last.key]) ==
            SortableKeys(defs, Keys(init)) + if Sortable(defs, last.key) then [last.key] else []
  {
    assert (init + [last])[..|init|] == init;
    var ks := Keys(init) + [last.key];
    assert ks[..|ks| - 1] == Keys(init);
  }

  /** One iteration of `createMongoSort`'s loop extends `SortOf` by one merged entry. */
  lemma SortStep(defs: seq<Prop>, merged: seq<Prop>, i: nat)
    requires i < |merged|
    ensures SortOf(defs, merged[..i + 1]) ==
            if Truthy(SortFlag(defs, merged[i].key))
            then Put(SortOf(defs, merged[..i]), merged[i].key, if merged[i].val == Str("asc") then Num(1) else Num(-1))
            else SortOf(defs, merged[..i])
  {
    assert merged[..i + 1] == merged[..i] + [merged[i]];
    SortOfSnoc(defs, merged[..i], merged[i]);
  }

  /** On an object with unique keys, the kept fields keep the order of `orderBy`. */
  lemma {:induction false} SortOfKeys(defs: seq<Prop>, merged: seq<Prop>)
    requires UniqueKeys(merged)
    ensures Keys(SortOf(defs, merged)) == SortableKeys(defs, Keys(merged))
    decreases |merged|
  {
    if merged != [] {
      var init := merged[..|merged| - 1];
      var last := merged[|merged| - 1];
      assert merged == init + [last];
      SortOfKeys(defs, init);
      assert Keys(merged) == Keys(init) + [last.key];
      forall j | 0 <= j < |init| ensures init[j].key != last.key {
        assert init[j] == merged[j];
      }
      NotHasWhenAbsent(init, last.key);
      SortOfSnoc(defs, init, last);
    }
  }

  /** The objects `orderByParams` spreads into `Object.assign`, one per element. */
  function Sources(items: seq<Value>): (r: seq<seq<Prop>>)
    ensures |r| == |items|
    ensures forall i :: 0 <= i < |items| ==> r[i] == OwnEntries(items[i])
  {
    seq(|items|, i requires 0 <= i < |items| => OwnEntries(items[i]))
  }

  /** The error spreading a value that is not iterable throws. */
  const NotIterableError := "TypeError: orderByParams is not iterable"

  /**
   * `createMongoSort(orderByParams = [], fieldDefinitions)` as a value: the
   * `orderBy` objects merged with `Object.assign`, then each kept field mapped to
   * `1` for `"asc"` and `-1` for anything else.
   */
  function MongoSort(orderBy: Value, defs: seq<Prop>): (r: Result<seq<Prop>>)
    ensures r.Throw? <==> Spread(Default(orderBy, Arr([]))).None?
  {
    match Spread(Default(orderBy, Arr([])))
    case None => Throw(NotIterableError)
    case Some(items) => Ok(SortOf(defs, AssignAll(Sources(items))))
  }

  /**
   * A field is in the sort exactly when some `orderBy` object names it and its
   * definition does not switch `createOrderBy` off; its direction comes from the last
   * object that names it.
   */
  lemma MongoSortFields(items: seq<Value>, defs: seq<Prop>, k: string)
    ensures MongoSort(Arr(items), defs).Ok?
    ensures var r := MongoSort(Arr(items), defs).value;
            (Has(r, k) <==> (exists i :: 0 <= i < |items| && Has(OwnEntries(items[i]), k)) && Sortable(defs, k)) &&
            (Has(r, k) ==> Get(r, k) == Direction(LastDef(Flatten(Sources(items)), k)))
  {
    var srcs := Sources(items);
    var merged := AssignAll(srcs);
    FlattenHas(srcs, k);
    AssignKeepsUnique([], Flatten(srcs));
    UniqueLastDef(merged, k);
  }

  /** An absent or empty `orderBy` sorts on nothing. */
  lemma MongoSortEmpty(defs: seq<Prop>)
    ensures MongoSort(Undefined, defs) == Ok([])
    ensures MongoSort(Arr([]), defs) == Ok([])
  {
    assert Flatten(Sources([])) == [];
  }

  /** A field that has no definition is sorted on: `get` falls back to `true`. */
  lemma UndefinedFieldSorts(defs: seq<Prop>, k: string)
    requires !Has(defs, k)
    ensures Sortable(defs, k)
  {
  }

  /**
   * `createMongoSort`: merges the `orderBy` objects, then fills `ret` field by field.
   */
  method CreateMongoSort(orderBy: Value, defs: seq<Prop>) returns (r: Result<seq<Prop>>)
    ensures r == MongoSort(orderBy, defs)
  {
    var orderByParams := Default(orderBy, Arr([]));
    var spread := Spread(orderByParams);
    if spread.None? {
      return Throw(NotIterableError);
    }
    var mergedOrderBy := AssignAll(Sources(spread.value));
    var ret: seq<Prop> := [];
    var i := 0;
    while i < |mergedOrderBy|
      invariant 0 <= i <= |mergedOrderBy|
      invariant ret == SortOf(defs, mergedOrderBy[..i])
    {
      var fieldName, order := mergedOrderBy[i].key, mergedOrderBy[i].val;
      SortStep(defs, mergedOrderBy, i);
      if Truthy(SortFlag(defs, fieldName)) {
        ret := Put(ret, fieldName, if order == Str("asc") then Num(1) else Num(-1));
      }
      i := i + 1;
    }
    assert mergedOrderBy[..i] == mergedOrderBy;
    return Ok(ret);
  }

  // ---------------------------------------------------------------------------
  // `createMongoResolver`.
  // ---------------------------------------------------------------------------

  /** The pair `[filter, sort]` handed to MongoDB's `aggregate()`. */
  datatype Resolved = Resolved(filter: seq<Prop>, sort: Value)

  /** `createMongoFilter(fieldDefinitions)`, the `searchFunc` of the resolver. */
  function FilterFor(defs: seq<Prop>): Where -> Result<seq<Prop>> {
    w => MongoFilter(defs, w)
  }

  /**
   * `createMongoResolver(searchParams, fieldDefinitions, defaultSort = {})`: the sort
   * is computed first, then the filter, by the recursive translator driven by the
   * per-model filter builder; an empty sort gives way to `defaultSort`.
   */
  function MongoResolver(where: Where, orderBy: Value, defs: seq<Prop>, defaultSort: Value): (r: Result<Resolved>)
    ensures MongoSort(orderBy, defs).Throw? ==> r == Throw(MongoSort(orderBy, defs).error)
    ensures r.Ok? <==> MongoSort(orderBy, defs).Ok? && TranslateWhere(where, FilterFor(defs)).Ok?
    ensures r.Ok? ==> r.value.filter == TranslateWhere(where, FilterFor(defs)).value
    ensures r.Ok? && MongoSort(orderBy, defs).value == [] ==> r.value.sort == Default(defaultSort, Obj([]))
    ensures r.Ok? && MongoSort(orderBy, defs).value != [] ==> r.value.sort == Obj(MongoSort(orderBy, defs).value)
  {
    match MongoSort(orderBy, defs)
    case Throw(e) => Throw(e)
    case Ok(mongoSort) =>
      match TranslateWhere(where, FilterFor(defs))
      case Throw(e) => Throw(e)
      case Ok(filter) => Ok(Resolved(filter, if mongoSort == [] then Default(defaultSort, Obj([])) else Obj(mongoSort)))
  }

  /** With field names other than `$or`, no fragment of the corrected loop holds `$or`. */
  lemma {:induction false} FragmentsHaveNoOr(defs: seq<Prop>, w: Where)
    requires forall i :: 0 <= i < |defs| ==> defs[i].key != "$or"
    requires Fragments(defs, Step(w, false)).Ok?
    ensures forall j :: 0 <= j < |Fragments(defs, Step(w, false)).value| ==> !Has(Fragments(defs, Step(w, false)).value[j], "$or")
    decreases |defs|
  {
    if defs != [] {
      var init := defs[..|defs| - 1];
      var last := defs[|defs| - 1];
      assert forall i :: 0 <= i < |init| ==> init[i] == defs[i];
      FragmentsHaveNoOr(init, w);
      PushedHasNoOr(last, w);
      assert Step(w, false)(last) == Pushed(last, w);
      var a, b := Fragments(init, Step(w, false)).value, Pushed(last, w).value;
      assert Fragments(defs, Step(w, false)).value == a + b;
      forall j | 0 <= j < |a + b| ensures !Has((a + b)[j], "$or") {
        if j >= |a| {
          assert (a + b)[j] == b[j - |a|];
        }
      }
    }
  }

  /**
   * The corrected filter builder never throws on definitions that can be destructured,
   * and its result is one `searchWhereRecursive` can extend: no `$or`, and `$and`, when
   * present, a list.
   */
  lemma MongoFilterExtensible(defs: seq<Prop>, w: Where)
    requires forall i :: 0 <= i < |defs| ==> !Nullish(defs[i].val) && defs[i].key != "$or"
    ensures MongoFilter(defs, w).Ok? && Extensible(MongoFilter(defs, w).value)
    ensures !Has(MongoFilter(defs, w).value, "$or")
  {
    LoopThrowIff(defs, w, false);
    var frags := Fragments(defs, Step(w, false)).value;
    FragmentsHaveNoOr(defs, w);
    FlattenHas(frags, "$or");
  }

  /**
   * The resolver succeeds for every `where` tree when every field definition can be
   * destructured, no field is named `$or`, and `orderBy` is absent or a list.
   */
  lemma ResolverTotal(where: Where, orderBy: Value, defs: seq<Prop>, defaultSort: Value)
    requires forall i :: 0 <= i < |defs| ==> !Nullish(defs[i].val) && defs[i].key != "$or"
    requires orderBy.Undefined? || orderBy.Arr?
    ensures MongoResolver(where, orderBy, defs, defaultSort).Ok?
  {
    forall x ensures FilterFor(defs)(x).Ok? && Extensible(FilterFor(defs)(x).value) {
      MongoFilterExtensible(defs, x);
    }
    TranslateTotal(where, FilterFor(defs));
  }

  /** Without `orderBy`, the resolver sorts by `defaultSort`, or by `{}` when that is absent too. */
  lemma ResolverDefaultSort(where: Where, defs: seq<Prop>, defaultSort: Value)
    requires MongoResolver(where, Undefined, defs, defaultSort).Ok?
    ensures MongoResolver(where, Undefined, defs, defaultSort).value.sort == Default(defaultSort, Obj([]))
  {
    MongoSortEmpty(defs);
  }

  // ---------------------------------------------------------------------------
  // `createWhereSDL` and `createOrderBySDL`: which fields and names appear.
  // ---------------------------------------------------------------------------

  /** A line `${schemaDoc}${fieldName}: ${finalFilterType}` of the `where` input. */
  datatype WhereField = WhereField(doc: string, name: string, filterType: string)

  /** An `input ${name} { _eq _ne _in _nin }` block for an enum field of type `elementType`. */
  datatype EnumFilterInput = EnumFilterInput(name: string, elementType: string)

  /** The `where` SDL: the enum filter inputs, then the input `name` with its field lines. */
  datatype WhereSDL = WhereSDL(enums: seq<EnumFilterInput>, name: string, fields: seq<WhereField>)

  /** A line `${schemaDoc}${fieldName}: OrderBy` of the `orderBy` input. */
  datatype OrderByField = OrderByField(doc: string, name: string)

  /** The `orderBy` SDL: the input `name` with its field lines. */
  datatype OrderBySDL = OrderBySDL(name: string, fields: seq<OrderByField>)

  /** `schemaDoc ? `# ${schemaDoc}\n` : ""`. */
  function Doc(schemaDoc: Value): (r: string)
    ensures Truthy(schemaDoc) ==> r == "# " + ToStr(schemaDoc) + "\n"
    ensures !Truthy(schemaDoc) ==> r == ""
  {
    if Truthy(schemaDoc) then "# " + ToStr(schemaDoc) + "\n" else ""
  }

  /** Whether a field's filter kind is `EnumFilter`, which gets an input of its own. */
  predicate IsEnumField(def: Value) {
    FilterType(def) == Str(Types.EnumFilter)
  }

  /** The enum filter input of a field: named `${type}EnumFilter`, over `type`. */
  function EnumInputOf(p: Prop): (r: Option<EnumFilterInput>)
    ensures r.Some? <==> CreatesFilter(p.val) && IsEnumField(p.val)
    ensures r.Some? ==> r.value.elementType == ToStr(Member(p.val, "type")) &&
                        r.value.name == r.value.elementType + "EnumFilter"
  {
    if CreatesFilter(p.val) && IsEnumField(p.val) then
      Some(EnumFilterInput(TypeName(p.val) + "EnumFilter", TypeName(p.val)))
    else None
  }

  /**
   * The `where` line of a field: listed when `createFilter` is not falsy, with filter
   * type `filterType` if truthy or `${type}Filter` otherwise, except that the enum kind
   * names the field's own enum filter input.
   */
  function WhereFieldOf(p: Prop): (r: Option<WhereField>)
    ensures r.Some? <==> CreatesFilter(p.val)
    ensures r.Some? ==> r.value.name == p.key && r.value.doc == Doc(Member(p.val, "schemaDoc"))
    ensures r.Some? && !IsEnumField(p.val) ==> r.value.filterType == ToStr(FilterType(p.val))
    ensures r.Some? && IsEnumField(p.val) ==> r.value.filterType == EnumInputOf(p).value.name
  {
    if !CreatesFilter(p.val) then None
    else
      Some(WhereField(Doc(Member(p.val, "schemaDoc")), p.key, FilterTypeName(p.val)))
  }

  /** The filter type a listed field names: its own enum filter input, or its filter kind. */
  function FilterTypeName(def: Value): string {
    if IsEnumField(def) then TypeName(def) + "EnumFilter" else ToStr(FilterType(def))
  }

  /** The field's `type`, interpolated into a template. */
  function TypeName(def: Value): string {
    ToStr(Member(def, "type"))
  }

  /** The lines `createWhereSDL` pushes onto `queryWhere`, field by field. */
  function WhereFields(defs: seq<Prop>): seq<WhereField> {
    if defs == [] then []
    else
      var last := defs[|defs| - 1];
      WhereFields(defs[..|defs| - 1]) + (if CreatesFilter(last.val) then [WhereFieldOf(last).value] else [])
  }

  /** The inputs `createWhereSDL` pushes onto `enums`, field by field. */
  function EnumInputs(defs: seq<Prop>): seq<EnumFilterInput> {
    if defs == [] then []
    else
      var last := defs[|defs| - 1];
      EnumInputs(defs[..|defs| - 1]) + (if EnumInputOf(last).Some? then [EnumInputOf(last).value] else [])
  }

  /** A field has a line in the `where` input exactly when `createFilter` is not falsy. */
  lemma {:induction false} WhereFieldsMembers(defs: seq<Prop>, name: string)
    ensures (exists f: WhereField :: f in WhereFields(defs) && f.name == name) <==>
            (exists j :: 0 <= j < |defs| && defs[j].key == name && CreatesFilter(defs[j].val))
  {
    if defs != [] {
      var init := defs[..|defs| - 1];
      var last := defs[|defs| - 1];
      WhereFieldsMembers(init, name);
      assert forall j :: 0 <= j < |init| ==> init[j] == defs[j];
      if CreatesFilter(last.val) {
        assert WhereFieldOf(last).value.name == last.key;
        assert WhereFieldOf(last).value in WhereFields(defs);
      }
    }
  }

  /** A field has an enum filter input exactly when it is listed with the enum kind. */
  lemma {:induction false} EnumInputsMembers(defs: seq<Prop>, elementType: string)
    ensures (exists e: EnumFilterInput :: e in EnumInputs(defs) && e.elementType == elementType) <==>
            (exists j :: 0 <= j < |defs| && CreatesFilter(defs[j].val) && IsEnumField(defs[j].val) &&
                         ToStr(Member(defs[j].val, "type")) == elementType)
  {
    if defs != [] {
      var init := defs[..|defs| - 1];
      var last := defs[|defs| - 1];
      EnumInputsMembers(init, elementType);
      assert forall j :: 0 <= j < |init| ==> init[j] == defs[j];
      if EnumInputOf(last).Some? {
        assert EnumInputOf(last).value in EnumInputs(defs);
      }
    }
  }

  /** Every enum filter input is the filter type of a line of the `where` input. */
  lemma {:induction false} EnumInputsReferenced(defs: seq<Prop>, e: EnumFilterInput)
    requires e in EnumInputs(defs)
    ensures exists f: WhereField :: f in WhereFields(defs) && f.filterType == e.name
  {
    var init := defs[..|defs| - 1];
    var last := defs[|defs| - 1];
    if e in EnumInputs(init) {
      EnumInputsReferenced(init, e);
      var f: WhereField :| f in WhereFields(init) && f.filterType == e.name;
      assert f in WhereFields(defs);
    } else {
      assert e == EnumInputOf(last).value;
      assert WhereFieldOf(last).value in WhereFields(defs);
    }
  }

  /**
   * `createWhereSDL(queryName, fieldDefinitions)` as a value: the input is named
   * `${queryName}Where`; the first definition that cannot be destructured throws.
   */
  function WhereSpec(queryName: string, defs: seq<Prop>): (r: Result<WhereSDL>)
    ensures r.Throw? <==> exists i :: 0 <= i < |defs| && Nullish(defs[i].val)
    ensures r.Ok? ==> r.value.name == queryName + "Where"
    ensures r.Ok? ==> r.value.fields == WhereFields(defs) && r.value.enums == EnumInputs(defs)
  {
    match FirstNullish(defs)
    case Some(i) => Throw(Types.DestructureError("type", defs[i].val))
    case None => Ok(WhereSDL(EnumInputs(defs), queryName + "Where", WhereFields(defs)))
  }

  /** A field left out of the `where` input is never searched, as written or corrected. */
  lemma UnlistedFieldNotSearched(p: Prop, w: Where)
    requires !Nullish(p.val) && WhereFieldOf(p).None?
    ensures PushedAsWritten(p, w) == Ok([]) && Pushed(p, w) == Ok([])
  {
  }

  /** One more field adds its line and, for the enum kind, its filter input. */
  lemma WhereSDLStep(defs: seq<Prop>, i: nat)
    requires i < |defs|
    ensures WhereFields(defs[..i + 1]) ==
            WhereFields(defs[..i]) + (if WhereFieldOf(defs[i]).Some? then [WhereFieldOf(defs[i]).value] else [])
    ensures EnumInputs(defs[..i + 1]) ==
            EnumInputs(defs[..i]) + (if EnumInputOf(defs[i]).Some? then [EnumInputOf(defs[i]).value] else [])
  {
    assert defs[..i + 1][..i] == defs[..i];
  }

  /**
   * The body of `createWhereSDL`'s loop for one field: its enum filter input, if it has
   * the enum kind, and its `where` line, if `createFilter` is not falsy.
   */
  method FieldWhereSDL(fieldName: string, def: Value) returns (input: Option<EnumFilterInput>, line: Option<WhereField>)
    requires !Nullish(def)
    ensures input == EnumInputOf(Prop(fieldName, def)) && line == WhereFieldOf(Prop(fieldName, def))
  {
    input, line := None, None;
    if Truthy(Default(Member(def, "createFilter"), Bool(true))) {
      var schemaDoc := Doc(Member(def, "schemaDoc"));
      var finalFilterType := FilterType(def);
      var filterTypeName := ToStr(finalFilterType);
      if finalFilterType == Str(Types.EnumFilter) {
        filterTypeName := TypeName(def) + "EnumFilter";
        input := Some(EnumFilterInput(filterTypeName, TypeName(def)));
      }
      line := Some(WhereField(schemaDoc, fieldName, filterTypeName));
    }
  }

  /**
   * `createWhereSDL`: pushes each listed field's line onto `queryWhere` and each enum
   * field's filter input onto `enums`, in field order.
   */
  method CreateWhereSDL(queryName: string, defs: seq<Prop>) returns (r: Result<WhereSDL>)
    ensures r == WhereSpec(queryName, defs)
  {
    var enums: seq<EnumFilterInput> := [];
    var queryWhere: seq<WhereField> := [];
    var i := 0;
    while i < |defs|
      invariant 0 <= i <= |defs|
      invariant forall j :: 0 <= j < i ==> !Nullish(defs[j].val)
      invariant enums == EnumInputs(defs[..i]) && queryWhere == WhereFields(defs[..i])
    {
      var fieldName, def := defs[i].key, defs[i].val;
      if Nullish(def) {
        FirstNullishAt(defs, i);
        return Throw(Types.DestructureError("type", def));
      }
      WhereSDLStep(defs, i);
      var input, line := FieldWhereSDL(fieldName, def);
      assert Prop(fieldName, def) == defs[i];
      if input.Some? {
        enums := enums + [input.value];
      }
      if line.Some? {
        queryWhere := queryWhere + [line.value];
      }
      i := i + 1;
    }
    assert defs[..i] == defs;
    assert FirstNullish(defs).None?;
    assert WhereSpec(queryName, defs) == Ok(WhereSDL(EnumInputs(defs), queryName + "Where", WhereFields(defs)));
    return Ok(WhereSDL(enums, queryName + "Where", queryWhere));
  }

  /** The `orderBy` line of a field: listed when `createOrderBy` is not falsy. */
  function OrderByFieldOf(p: Prop): (r: Option<OrderByField>)
    ensures r.Some? <==> CreatesOrderBy(p.val)
    ensures r.Some? ==> r.value.name == p.key && r.value.doc == Doc(Member(p.val, "schemaDoc"))
  {
    if CreatesOrderBy(p.val) then Some(OrderByField(Doc(Member(p.val, "schemaDoc")), p.key)) else None
  }

  /** The lines `createOrderBySDL` pushes onto `queryOrderBy`, field by field. */
  function OrderByFields(defs: seq<Prop>): seq<OrderByField> {
    if defs == [] then []
    else
      var last := defs[|defs| - 1];
      OrderByFields(defs[..|defs| - 1]) + (if CreatesOrderBy(last.val) then [OrderByFieldOf(last).value] else [])
  }

  /**
   * `createOrderBySDL(queryName, fieldDefinitions)` as a value: the input is named
   * `${queryName}OrderBy`; the first definition that cannot be destructured throws.
   */
  function OrderBySpec(queryName: string, defs: seq<Prop>): (r: Result<OrderBySDL>)
    ensures r.Throw? <==> exists i :: 0 <= i < |defs| && Nullish(defs[i].val)
    ensures r.Ok? ==> r.value.name == queryName + "OrderBy"
    ensures r.Ok? ==> r.value.fields == OrderByFields(defs)
  {
    match FirstNullish(defs)
    case Some(i) => Throw(Types.DestructureError("schemaDoc", defs[i].val))
    case None => Ok(OrderBySDL(queryName + "OrderBy", OrderByFields(defs)))
  }

  /** A field has a line in the `orderBy` input exactly when `createOrderBy` is not falsy. */
  lemma {:induction false} OrderByFieldsMembers(defs: seq<Prop>, name: string)
    ensures (exists f: OrderByField :: f in OrderByFields(defs) && f.name == name) <==>
            (exists j :: 0 <= j < |defs| && defs[j].key == name && CreatesOrderBy(defs[j].val))
  {
    if defs != [] {
      var init := defs[..|defs| - 1];
      var last := defs[|defs| - 1];
      OrderByFieldsMembers(init, name);
      assert forall j :: 0 <= j < |init| ==> init[j] == defs[j];
      if CreatesOrderBy(last.val) {
        assert OrderByFieldOf(last).value.name == last.key;
        assert OrderByFieldOf(last).value in OrderByFields(defs);
      }
    }
  }

  /**
   * The `orderBy` input and the sort builder agree: a defined field is offered for
   * sorting exactly when `createMongoSort` keeps it.
   */
  lemma OrderByMatchesSort(defs: seq<Prop>, i: nat)
    requires UniqueKeys(defs) && i < |defs| && !Nullish(defs[i].val)
    ensures OrderByFieldOf(defs[i]).Some? <==> Sortable(defs, defs[i].key)
  {
    GetFirst(defs, i);
  }

  /** One more field adds its `orderBy` line when it is listed. */
  lemma OrderBySDLStep(defs: seq<Prop>, i: nat)
    requires i < |defs|
    ensures OrderByFields(defs[..i + 1]) ==
            OrderByFields(defs[..i]) + (if CreatesOrderBy(defs[i].val) then [OrderByFieldOf(defs[i]).value] else [])
  {
    assert defs[..i + 1][..i] == defs[..i];
  }

  /**
   * `createOrderBySDL`: pushes each listed field's line onto `queryOrderBy`, in field
   * order.
   */
  method CreateOrderBySDL(queryName: string, defs: seq<Prop>) returns (r: Result<OrderBySDL>)
    ensures r == OrderBySpec(queryName, defs)
  {
    var queryOrderBy: seq<OrderByField> := [];
    var i := 0;
    while i < |defs|
      invariant 0 <= i <= |defs|
      invariant forall j :: 0 <= j < i ==> !Nullish(defs[j].val)
      invariant queryOrderBy == OrderByFields(defs[..i])
    {
      var fieldName, def := defs[i].key, defs[i].val;
      if Nullish(def) {
        FirstNullishAt(defs, i);
        return Throw(Types.DestructureError("schemaDoc", def));
      }
      OrderBySDLStep(defs, i);
      if Truthy(Default(Member(def, "createOrderBy"), Bool(true))) {
        queryOrderBy := queryOrderBy + [OrderByField(Doc(Member(def, "schemaDoc")), fieldName)];
      }
      i := i + 1;
    }
    assert defs[..i] == defs;
    assert FirstNullish(defs).None?;
    assert OrderBySpec(queryName, defs) == Ok(OrderBySDL(queryName + "OrderBy", OrderByFields(defs)));
    return Ok(OrderBySDL(queryName + "OrderBy", queryOrderBy));
  }

  /**
   * `field` defaults the misspelled `createOrdeBy`, which nothing reads: whether a field
   * it builds is sortable depends only on a `createOrderBy` the caller passes among the
   * other options, and never on `createOrdeBy`.
   */
  lemma OrderByOptOutSpelling(t: Value, opts: Value)
    requires !opts.Null?
    ensures CreatesOrderBy(Obj(Types.Field(t, opts).value)) <==>
            Truthy(Default(LastDef(OwnEntries(opts), "createOrderBy"), Bool(true)))
  {
    Types.CreateOrderByTravelsInOther(t, opts);
  }
}
