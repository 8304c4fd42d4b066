/**
 * Field descriptors and filter names (src/types.js): `field(type)(options)` builds a
 * field definition with defaults, and `types` wraps it for the scalar, enum and list
 * types.
 */
module Types {
  import opened Js

  // ---------------------------------------------------------------------------
  // The `filters` name table.
  // ---------------------------------------------------------------------------

  const IntFilter := "IntFilter"
  const IDFilter := "IDFilter"
  const EnumFilter := "EnumFilter"
  const FloatFilter := "FloatFilter"
  const StringFilter := "StringFilter"
  const BooleanFilter := "BooleanFilter"

  /** `filters`: every entry maps a filter name to the identical string. */
  const Filters: seq<Prop> := [
    Prop(IntFilter, Str(IntFilter)),
    Prop(IDFilter, Str(IDFilter)),
    Prop(EnumFilter, Str(EnumFilter)),
    Prop(FloatFilter, Str(FloatFilter)),
    Prop(StringFilter, Str(StringFilter)),
    Prop(BooleanFilter, Str(BooleanFilter))
  ]

  /** Each filter name is defined once and maps to itself. */
  lemma FilterNamesAreThemselves()
    ensures UniqueKeys(Filters)
    ensures forall i :: 0 <= i < |Filters| ==> Filters[i].val == Str(Filters[i].key)
  {
  }

  // ---------------------------------------------------------------------------
  // The `field` factory.
  // ---------------------------------------------------------------------------

  /**
   * The options `field` destructures by name; `...other` collects the rest. The
   * default is spelled `createOrdeBy`, so a caller's `createOrderBy` is not among them.
   */
  const NamedOptions: set<string> := {"required", "schemaDoc", "filterType", "createFilter", "createOrdeBy"}

  /** The TypeError that destructuring `null` or `undefined` throws. */
  function DestructureError(prop: string, v: Value): string {
    DestructurePrefix + prop + "' of '" + ToStr(v) + "' as it is " + ToStr(v) + "."
  }

  const DestructurePrefix := "TypeError: Cannot destructure property '"

  /** A rest pattern `...other`: the properties not named by the pattern, in order. */
  function Rest(es: seq<Prop>, named: set<string>): (r: seq<Prop>)
    ensures forall k :: Has(r, k) <==> Has(es, k) && k !in named
    ensures forall k :: k !in named ==> LastDef(r, k) == LastDef(es, k)
  {
    if es == [] then []
    else
      var t := Rest(es[1..], named);
      if es[0].key in named then t
      else
        var r := [es[0]] + t;
        assert r[0] == es[0] && r[1..] == t;
        r
  }

  /**
   * `field(type)(options)`: `required`, `createFilter` and `createOrdeBy` default to
   * `true`, `schemaDoc` and `filterType` to `undefined`; every other option is copied
   * after them and so overrides them, `type` included. An absent `options` is `{}`;
   * `null` cannot be destructured.
   */
  function Field(t: Value, opts: Value): (r: Result<seq<Prop>>)
    ensures r.Throw? <==> opts.Null?
    ensures r.Ok? ==> forall k :: k in NamedOptions ==> Has(r.value, k)
    ensures r.Ok? ==> Get(r.value, "required") == Default(Member(opts, "required"), Bool(true))
    ensures r.Ok? ==> Get(r.value, "createFilter") == Default(Member(opts, "createFilter"), Bool(true))
    ensures r.Ok? ==> Get(r.value, "createOrdeBy") == Default(Member(opts, "createOrdeBy"), Bool(true))
    ensures r.Ok? ==> Get(r.value, "schemaDoc") == Member(opts, "schemaDoc")
    ensures r.Ok? ==> Get(r.value, "filterType") == Member(opts, "filterType")
  {
    if opts.Null? then Throw(DestructureError("required", opts))
    else Ok(Assign(Defaults(t, opts), Rest(OwnEntries(opts), NamedOptions)))
  }

  /** `type` is not among the options `field` destructures by name. */
  lemma TypeIsNotNamed()
    ensures "type" !in NamedOptions
  {
    forall k | k in NamedOptions ensures |k| >= 8 { }
  }

  /** `enumValues` is copied through `...other`, not destructured by name. */
  lemma EnumValuesIsNotNamed()
    ensures "enumValues" !in NamedOptions && "enumValues" != "type"
  {
    forall k | k in NamedOptions ensures k[0] != 'e' { }
  }

  /** `type` is set first, so a `type` among the other options overrides it. */
  lemma FieldType(t: Value, opts: Value)
    requires !opts.Null?
    ensures Has(Field(t, opts).value, "type")
    ensures Get(Field(t, opts).value, "type") ==
              if Has(OwnEntries(opts), "type") then LastDef(OwnEntries(opts), "type") else t
  {
    var base, rest := Defaults(t, opts), Rest(OwnEntries(opts), NamedOptions);
    assert Field(t, opts).value == Assign(base, rest);
    HasIffInKeys(base, "type");
    TypeIsNotNamed();
    assert Has(rest, "type") <==> Has(OwnEntries(opts), "type");
    assert LastDef(rest, "type") == LastDef(OwnEntries(opts), "type");
  }

  /** Every option that is not destructured by name is copied through unchanged. */
  lemma FieldCopiesOther(t: Value, opts: Value, k: string)
    requires !opts.Null? && k !in NamedOptions && k != "type"
    ensures Has(Field(t, opts).value, k) <==> Has(OwnEntries(opts), k)
    ensures Get(Field(t, opts).value, k) == LastDef(OwnEntries(opts), k)
  {
    var base := Defaults(t, opts);
    HasIffInKeys(base, k);
    assert k !in Keys(base);
  }

  /** The object literal `field` builds before `...other` is spread into it. */
  function Record(t: Value, required: Value, schemaDoc: Value, filterType: Value, createFilter: Value,
                  createOrdeBy: Value): (r: seq<Prop>)
    ensures Keys(r) == ["type", "required", "schemaDoc", "filterType", "createFilter", "createOrdeBy"]
    ensures forall k :: k in NamedOptions ==> Has(r, k)
    ensures Get(r, "type") == t && Get(r, "required") == required && Get(r, "schemaDoc") == schemaDoc
    ensures Get(r, "filterType") == filterType && Get(r, "createFilter") == createFilter
    ensures Get(r, "createOrdeBy") == createOrdeBy
  {
    var r := [
      Prop("type", t), Prop("required", required), Prop("schemaDoc", schemaDoc),
      Prop("filterType", filterType), Prop("createFilter", createFilter), Prop("createOrdeBy", createOrdeBy)
    ];
    GetFirst(r, 0); GetFirst(r, 1); GetFirst(r, 2); GetFirst(r, 3); GetFirst(r, 4); GetFirst(r, 5);
    r
  }

  /** The defaults of `field`, applied to the options the caller passed. */
  function Defaults(t: Value, opts: Value): (r: seq<Prop>)
    ensures Keys(r) == ["type", "required", "schemaDoc", "filterType", "createFilter", "createOrdeBy"]
    ensures forall k :: k in NamedOptions ==> Has(r, k)
    ensures Get(r, "type") == t
    ensures Get(r, "required") == Default(Member(opts, "required"), Bool(true))
    ensures Get(r, "schemaDoc") == Member(opts, "schemaDoc")
    ensures Get(r, "filterType") == Member(opts, "filterType")
    ensures Get(r, "createFilter") == Default(Member(opts, "createFilter"), Bool(true))
    ensures Get(r, "createOrdeBy") == Default(Member(opts, "createOrdeBy"), Bool(true))
  {
    Record(t, Default(Member(opts, "required"), Bool(true)), Member(opts, "schemaDoc"), Member(opts, "filterType"),
           Default(Member(opts, "createFilter"), Bool(true)), Default(Member(opts, "createOrdeBy"), Bool(true)))
  }

  /**
   * The key spelled `createOrderBy`, which index.js reads, is not a named option:
   * it is carried by `...other`, and it is absent unless the caller passes it.
   */
  lemma CreateOrderByTravelsInOther(t: Value, opts: Value)
    requires !opts.Null?
    ensures var r := Field(t, opts).value;
            Has(r, "createOrderBy") == Has(OwnEntries(opts), "createOrderBy") &&
            Get(r, "createOrderBy") == LastDef(OwnEntries(opts), "createOrderBy")
  {
    FieldCopiesOther(t, opts, "createOrderBy");
  }

  // ---------------------------------------------------------------------------
  // `types`.
  // ---------------------------------------------------------------------------

  /** `types.Int(options)`. */
  function Int(opts: Value): (r: Result<seq<Prop>>)
    ensures r.Throw? <==> opts.Null?
    ensures r.Ok? && !Has(OwnEntries(opts), "type") ==> Get(r.value, "type") == Str("Int")
  {
    if opts.Null? then Field(Str("Int"), opts)
    else FieldType(Str("Int"), opts); Field(Str("Int"), opts)
  }

  /** `types.Float(options)`. */
  function Float(opts: Value): (r: Result<seq<Prop>>)
    ensures r.Throw? <==> opts.Null?
    ensures r.Ok? && !Has(OwnEntries(opts), "type") ==> Get(r.value, "type") == Str("Float")
  {
    if opts.Null? then Field(Str("Float"), opts)
    else FieldType(Str("Float"), opts); Field(Str("Float"), opts)
  }

  /** `types.String(options)`. */
  function String(opts: Value): (r: Result<seq<Prop>>)
    ensures r.Throw? <==> opts.Null?
    ensures r.Ok? && !Has(OwnEntries(opts), "type") ==> Get(r.value, "type") == Str("String")
  {
    if opts.Null? then Field(Str("String"), opts)
    else FieldType(Str("String"), opts); Field(Str("String"), opts)
  }

  /** `types.Boolean(options)`. */
  function Boolean(opts: Value): (r: Result<seq<Prop>>)
    ensures r.Throw? <==> opts.Null?
    ensures r.Ok? && !Has(OwnEntries(opts), "type") ==> Get(r.value, "type") == Str("Boolean")
  {
    if opts.Null? then Field(Str("Boolean"), opts)
    else FieldType(Str("Boolean"), opts); Field(Str("Boolean"), opts)
  }

  /** `enumValues.length`, read from a value that is not `null`. */
  function Length(v: Value): (r: Value)
    requires !v.Null?
    ensures v.Arr? ==> r == Num(|v.items|)
    ensures v.Str? ==> r == Num(|v.s|)
  {
    Member(v, "length")
  }

  /**
   * `types.Enum(elementType, enumValues = [], other)`: throws unless the values have a
   * truthy length; otherwise a field of type `elementType` whose options are
   * `{ enumValues, ...other }`.
   */
  function Enum(elementType: Value, enumValues: Value, other: Value): (r: Result<seq<Prop>>)
    ensures enumValues.Undefined? ==> r.Throw?
    ensures enumValues.Arr? ==> (r.Throw? <==> enumValues.items == [])
    ensures enumValues.Arr? && enumValues.items == [] ==>
              r == Throw("Error: enum values must be provided for " + ToStr(elementType))
    ensures r.Ok? ==> !enumValues.Null? && Truthy(Length(Default(enumValues, Arr([]))))
  {
    var values := Default(enumValues, Arr([]));
    if values.Null? then Throw("TypeError: Cannot read properties of null (reading 'length')")
    else if !Truthy(Length(values)) then
      Throw("Error: enum values must be provided for " + ToStr(elementType))
    else
      Ok(Field(elementType, Obj(EnumOptions(values, other))).value)
  }

  /** An enum field has type `elementType` unless another option overrides it. */
  lemma EnumType(elementType: Value, enumValues: Value, other: Value)
    requires Enum(elementType, enumValues, other).Ok? && !Has(OwnEntries(other), "type")
    ensures Get(Enum(elementType, enumValues, other).value, "type") == elementType
  {
    var opts := EnumOptions(enumValues, other);
    assert Enum(elementType, enumValues, other).value == Field(elementType, Obj(opts)).value;
    FieldType(elementType, Obj(opts));
  }

  /** An enum field carries the enum values it was given unless another option overrides them. */
  lemma EnumValues(elementType: Value, enumValues: Value, other: Value)
    requires Enum(elementType, enumValues, other).Ok? && !Has(OwnEntries(other), "enumValues")
    ensures Get(Enum(elementType, enumValues, other).value, "enumValues") == enumValues
  {
    var opts := EnumOptions(enumValues, other);
    assert Enum(elementType, enumValues, other).value == Field(elementType, Obj(opts)).value;
    EnumValuesIsNotNamed();
    FieldCopiesOther(elementType, Obj(opts), "enumValues");
    UniqueLastDef(opts, "enumValues");
    assert OwnEntries(Obj(opts)) == opts;
  }

  /** The options object `{ enumValues, ...other }`. */
  function EnumOptions(values: Value, other: Value): (r: seq<Prop>)
    ensures UniqueKeys(r)
    ensures Has(r, "type") <==> Has(OwnEntries(other), "type")
    ensures !Has(OwnEntries(other), "enumValues") ==> Get(r, "enumValues") == values
  {
    var first := [Prop("enumValues", values)];
    assert first[1..] == [] && !Has(first, "type");
    AssignKeepsUnique(first, OwnEntries(other));
    Assign(first, OwnEntries(other))
  }

  /** `types.List(elementType, other)`: a field of type `[elementType]`. */
  function List(elementType: Value, other: Value): (r: Result<seq<Prop>>)
    ensures r.Throw? <==> other.Null?
    ensures r.Ok? && !Has(OwnEntries(other), "type") ==>
              Get(r.value, "type") == Str("[" + ToStr(elementType) + "]")
  {
    var t := Str("[" + ToStr(elementType) + "]");
    if other.Null? then Field(t, other)
    else FieldType(t, other); Field(t, other)
  }
}
