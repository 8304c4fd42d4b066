/**
 * Translation of a GraphQL `where` argument into a MongoDB filter document
 * (src/search.js): the per-field operator translators and the recursive walk
 * over the `_or` / `_and` / `_not` tree.
 */
module Search {
  import opened Js

  // ---------------------------------------------------------------------------
  // Numeric and boolean fields: operator keys are renamed, values pass through.
  // ---------------------------------------------------------------------------

  /** `k.replace("_", "$")`: the first underscore, if any, becomes a dollar sign. */
  function RenameKey(k: string): (r: string)
    ensures |r| == |k|
    ensures '_' !in k ==> r == k
  {
    if k == [] then []
    else if k[0] == '_' then "$" + k[1..]
    else [k[0]] + RenameKey(k[1..])
  }

  /** Only the first underscore is replaced: everything before it and after it is kept. */
  lemma {:induction false} RenameFirstUnderscore(k: string, i: nat)
    requires i < |k| && k[i] == '_' && forall j :: 0 <= j < i ==> k[j] != '_'
    ensures RenameKey(k) == k[..i] + "$" + k[i + 1..]
  {
    if i == 0 {
      assert k[..0] == [] && k[1..] == k[i + 1..];
    } else {
      RenameFirstUnderscore(k[1..], i - 1);
      assert k[..i] == [k[0]] + k[1..][..i - 1];
      assert k[1..][i..] == k[i + 1..];
    }
  }

  /** A GraphQL operator name `_op` becomes the MongoDB operator `$op`. */
  lemma RenameOperator(op: string)
    ensures RenameKey("_" + op) == "$" + op
  {
    var k := "_" + op;
    assert k[0] == '_' && k[..0] == [] && k[1..] == op;
  }

  /** The entries of a comparison map with every key renamed, in the same order. */
  function RenamedEntries(es: seq<Prop>): (r: seq<Prop>)
    ensures |r| == |es|
    ensures forall i :: 0 <= i < |es| ==> r[i] == Prop(RenameKey(es[i].key), es[i].val)
  {
    seq(|es|, i requires 0 <= i < |es| => Prop(RenameKey(es[i].key), es[i].val))
  }

  /**
   * `searchNumeric(fieldName, fieldValue)`, which is also `searchBoolean`:
   * `{ [fieldName]: mapKeys(fieldValue, (_, k) => k.replace("_", "$")) }`.
   * The result is a single-key object whose one condition has the renamed keys.
   */
  function SearchNumeric(fieldName: Value, fieldValue: Value): (r: seq<Prop>)
    ensures |r| == 1 && r[0].key == ToStr(fieldName) && r[0].val.Obj?
    ensures forall k :: Has(r[0].val.props, k) <==>
              exists i :: 0 <= i < |OwnEntries(fieldValue)| && RenameKey(OwnEntries(fieldValue)[i].key) == k
  {
    var renamed := RenamedEntries(OwnEntries(fieldValue));
    var cond := Assign([], renamed);
    assert forall k :: Has(cond, k) <==> Has(renamed, k);
    assert forall k :: Has(renamed, k) <==> exists i :: 0 <= i < |renamed| && renamed[i].key == k by {
      forall k { HasIffSomeKey(renamed, k); }
    }
    [Prop(ToStr(fieldName), Obj(cond))]
  }

  /**
   * Every entry `op: v` of the comparison map reappears as `RenameKey(op): v`, provided
   * no other entry is renamed to the same key (lodash keeps the last value on a clash).
   */
  lemma SearchNumericKeepsValues(fieldName: Value, fieldValue: Value, i: nat)
    requires i < |OwnEntries(fieldValue)|
    requires forall j :: 0 <= j < |OwnEntries(fieldValue)| && j != i ==>
               RenameKey(OwnEntries(fieldValue)[j].key) != RenameKey(OwnEntries(fieldValue)[i].key)
    ensures var cond := SearchNumeric(fieldName, fieldValue)[0].val.props;
            var e := OwnEntries(fieldValue)[i];
            Has(cond, RenameKey(e.key)) && Get(cond, RenameKey(e.key)) == e.val
  {
    var renamed := RenamedEntries(OwnEntries(fieldValue));
    LastDefSingle(renamed, i);
  }

  // ---------------------------------------------------------------------------
  // String and enum fields: a closed table of thirteen operators.
  // ---------------------------------------------------------------------------

  /** The operators `_stringOperator` has a case for. `_ine` is not among them. */
  const StringOperators: set<string> :=
    {"_eq", "_ne", "_ieq", "_regex", "_iregex", "_contains", "_icontains",
     "_startswith", "_istartswith", "_endswith", "_iendswith", "_in", "_nin"}

  /** The operators whose condition carries `$options: "i"`. */
  const CaseInsensitiveOperators: set<string> :=
    {"_ieq", "_iregex", "_icontains", "_istartswith", "_iendswith"}

  /**
   * `_stringOperator([op, val])`: the MongoDB condition for one operator, or
   * `undefined` (no `return` reached) for an operator outside the table.
   */
  function StringOperator(op: string, val: Value): (r: Value)
    ensures r.Undefined? <==> op !in StringOperators
    ensures r.Obj? <==> op in StringOperators
    ensures op in CaseInsensitiveOperators ==> r.Obj? && Get(r.props, "$options") == Str("i")
    ensures op in StringOperators - CaseInsensitiveOperators ==> r.Obj? && !Has(r.props, "$options")
    ensures op in {"_startswith", "_istartswith"} ==>
              r.Obj? && Get(r.props, "$regex") == Str("^" + ToStr(val))
    ensures op in {"_endswith", "_iendswith"} ==>
              r.Obj? && Get(r.props, "$regex") == Str(ToStr(val) + "$")
    ensures op in {"_ieq", "_regex", "_iregex", "_contains", "_icontains"} ==>
              r.Obj? && Get(r.props, "$regex") == val
  {
    match op
    case "_eq" => Obj([Prop("$eq", val)])
    case "_ne" => Obj([Prop("$ne", val)])
    case "_ieq" => Obj([Prop("$regex", val), Prop("$options", Str("i"))])
    case "_regex" => Obj([Prop("$regex", val)])
    case "_iregex" => Obj([Prop("$regex", val), Prop("$options", Str("i"))])
    case "_contains" => Obj([Prop("$regex", val)])
    case "_icontains" => Obj([Prop("$regex", val), Prop("$options", Str("i"))])
    case "_startswith" => Obj([Prop("$regex", Str("^" + ToStr(val)))])
    case "_istartswith" => Obj([Prop("$regex", Str("^" + ToStr(val))), Prop("$options", Str("i"))])
    case "_endswith" => Obj([Prop("$regex", Str(ToStr(val) + "$"))])
    case "_iendswith" => Obj([Prop("$regex", Str(ToStr(val) + "$")), Prop("$options", Str("i"))])
    case "_in" => Obj([Prop("$in", val)])
    case "_nin" => Obj([Prop("$nin", val)])
    case _ => Undefined
  }

  /**
   * The four plain operators give the condition the numeric translator would give:
   * the operator renamed to its `$` form, holding the value unchanged.
   */
  lemma PlainStringOperators(op: string, val: Value)
    requires op in {"_eq", "_ne", "_in", "_nin"}
    ensures StringOperator(op, val) == Obj([Prop(RenameKey(op), val)])
  {
    var name := op[1..];
    assert op == "_" + name;
    RenameOperator(name);
    assert op == "_eq" ==> "$" + name == "$eq";
    assert op == "_ne" ==> "$" + name == "$ne";
    assert op == "_in" ==> "$" + name == "$in";
    assert op == "_nin" ==> "$" + name == "$nin";
  }

  /**
   * `_ieq` is not an equality test: it yields the same unanchored regex condition
   * as `_icontains`, so it also matches values that merely contain `val`.
   */
  lemma IeqIsIcontains(val: Value)
    ensures StringOperator("_ieq", val) == StringOperator("_icontains", val)
  {
  }

  /** `_ine` is declared by the schema but has no case, so it translates to `undefined`. */
  lemma IneHasNoCase(val: Value)
    ensures StringOperator("_ine", val) == Undefined
  {
  }

  /**
   * `searchString(fieldName, fieldValue)`: `{ $and: [{ [fieldName]: cond }, ...] }`
   * with one single-key conjunct per entry of the comparison map, in entry order.
   * `Object.entries` throws on `null` and `undefined`.
   */
  function SearchString(fieldName: Value, fieldValue: Value): (r: Result<seq<Prop>>)
    ensures r.Throw? <==> Nullish(fieldValue)
    ensures r.Ok? ==> |r.value| == 1 && r.value[0].key == "$and" && r.value[0].val.Arr?
    ensures r.Ok? ==>
              var conjuncts := r.value[0].val.items;
              var es := OwnEntries(fieldValue);
              |conjuncts| == |es| &&
              forall i :: 0 <= i < |es| ==>
                conjuncts[i] == Obj([Prop(ToStr(fieldName), StringOperator(es[i].key, es[i].val))])
  {
    if Nullish(fieldValue) then Throw("TypeError: Cannot convert undefined or null to object")
    else
      var es := OwnEntries(fieldValue);
      Ok([Prop("$and", Arr(seq(|es|, i requires 0 <= i < |es| =>
        Obj([Prop(ToStr(fieldName), StringOperator(es[i].key, es[i].val))]))))])
  }

  /** An empty comparison map gives `{ $and: [] }`, not `{}`. */
  lemma SearchStringEmpty(fieldName: Value)
    ensures SearchString(fieldName, Obj([])) == Ok([Prop("$and", Arr([]))])
  {
  }

  // ---------------------------------------------------------------------------
  // The recursive `where` translator.
  // ---------------------------------------------------------------------------

  /**
   * A `where` argument. `Falsy` is `undefined` / `null`. A node holds its
   * field-keyed comparison maps and, for each connective, whether the key is
   * present and the list it holds.
   */
  datatype Where =
    | Falsy
    | Node(fields: seq<Prop>, orKids: Connective, andKids: Connective, notKids: Connective)

  datatype Connective = Absent | Present(kids: seq<Where>)

  /** The number of children a connective contributes (none when absent). */
  function Count(c: Connective): (n: nat)
    ensures c.Present? ==> n == |c.kids|
    ensures c.Absent? ==> n == 0
  {
    if c.Present? then |c.kids| else 0
  }

  /**
   * `mapValues(fragment, v => ({ $not: v }))`: the same keys in the same order,
   * each value wrapped on its own.
   */
  function Negate(frag: seq<Prop>): (r: seq<Prop>)
    ensures Keys(r) == Keys(frag)
    ensures forall k :: Has(r, k) == Has(frag, k)
    ensures forall k :: Has(frag, k) ==> Get(r, k) == Obj([Prop("$not", Get(frag, k))])
  {
    if frag == [] then []
    else
      var t := Negate(frag[1..]);
      var r := [Prop(frag[0].key, Obj([Prop("$not", frag[0].val)]))] + t;
      assert r[1..] == t;
      assert Keys(r) == [frag[0].key] + Keys(t);
      r
  }

  function NotIterable(key: string): string {
    "TypeError: " + key + " is not iterable"
  }

  /**
   * The list already held under `key`, as `[...obj[key]]` sees it: empty when the key
   * is absent, `None` when the value present cannot be spread.
   */
  function Prior(d: seq<Prop>, key: string): (r: Option<seq<Value>>)
    ensures !Has(d, key) ==> r == Some([])
    ensures Has(d, key) && Get(d, key).Arr? ==> r == Some(Get(d, key).items)
  {
    if Has(d, key) then Spread(Get(d, key)) else Some([])
  }

  /**
   * The object `_extendKey(obj, key, arr)` leaves behind: `obj[key]` becomes the old
   * list followed by `arr`, or `arr` itself when `key` was absent; nothing else changes.
   * Spreading a value that is not iterable throws.
   */
  function Extended(d: seq<Prop>, key: string, arr: seq<Value>): (r: Result<seq<Prop>>)
    ensures r.Ok? <==> Prior(d, key).Some?
    ensures r.Throw? ==> r.error == NotIterable(key)
    ensures r.Ok? ==> Has(r.value, key) && Get(r.value, key) == Arr(Prior(d, key).value + arr)
    ensures r.Ok? ==> forall k :: k != key ==> Has(r.value, k) == Has(d, k) && Get(r.value, k) == Get(d, k)
  {
    match Prior(d, key)
    case None => Throw(NotIterable(key))
    case Some(prior) => Ok(Put(d, key, Arr(prior + arr)))
  }

  /** A mutable JavaScript object: the `ret` that the translator grows in place. */
  class JsObject {
    var props: seq<Prop>

    constructor (props: seq<Prop>)
      ensures this.props == props
    {
      this.props := props;
    }
  }

  /** `_extendKey(obj, key, arr)`: extend `obj[key]` in place if present, set it otherwise. */
  method ExtendKey(obj: JsObject, key: string, arr: seq<Value>) returns (r: Result<()>)
    modifies obj
    ensures r.Ok? <==> Extended(old(obj.props), key, arr).Ok?
    ensures r.Ok? ==> obj.props == Extended(old(obj.props), key, arr).value
    ensures r.Throw? ==> r.error == NotIterable(key) && obj.props == old(obj.props)
  {
    if Has(obj.props, key) {
      var prior := Spread(Get(obj.props, key));
      assert Prior(obj.props, key) == prior;
      if prior.None? {
        return Throw(NotIterable(key));
      }
      obj.props := Put(obj.props, key, Arr(prior.value + arr));
    } else {
      assert Prior(obj.props, key) == Some([]) && [] + arr == arr;
      obj.props := Put(obj.props, key, Arr(arr));
    }
    return Ok(());
  }

  /** One child's translation; a `_not` child's is negated key by key. */
  function ChildResult(kid: Where, negate: bool, searchFunc: Where -> Result<seq<Prop>>)
    : Result<seq<Prop>>
    decreases kid, 2
  {
    var t := TranslateWhere(kid, searchFunc);
    if negate && t.Ok? then Ok(Negate(t.value)) else t
  }

  /** The translations of the children under connective `c` of node `w`, in order. */
  function ChildResults(w: Where, c: Connective, negate: bool, searchFunc: Where -> Result<seq<Prop>>)
    : (rs: seq<Result<seq<Prop>>>)
    requires w.Node? && (c == w.orKids || c == w.andKids || c == w.notKids)
    ensures |rs| == Count(c)
    ensures forall i :: 0 <= i < |rs| ==> rs[i] == ChildResult(c.kids[i], negate, searchFunc)
    decreases w, 0
  {
    if c.Absent? then []
    else seq(|c.kids|, i requires 0 <= i < |c.kids| => ChildResult(c.kids[i], negate, searchFunc))
  }

  /** `results.map(...)` where any callback may throw: the first throw wins. */
  function Collect(rs: seq<Result<seq<Prop>>>): (r: Result<seq<Value>>)
    ensures r.Ok? <==> forall i :: 0 <= i < |rs| ==> rs[i].Ok?
    ensures r.Ok? ==> |r.value| == |rs| && forall i :: 0 <= i < |rs| ==> r.value[i] == Obj(rs[i].value)
  {
    if rs == [] then Ok([])
    else
      var init := rs[..|rs| - 1];
      var last := rs[|rs| - 1];
      assert forall i :: 0 <= i < |init| ==> init[i] == rs[i];
      match Collect(init)
      case Throw(e) => Throw(e)
      case Ok(vs) => if last.Throw? then Throw(last.error) else Ok(vs + [Obj(last.value)])
  }

  /** Once a prefix of the results has thrown, the whole map has thrown the same error. */
  lemma {:induction false} CollectKeepsThrow(rs: seq<Result<seq<Prop>>>, n: nat)
    requires n <= |rs| && Collect(rs[..n]).Throw?
    ensures Collect(rs) == Collect(rs[..n])
    decreases |rs| - n
  {
    if n < |rs| {
      assert rs[..n + 1][..n] == rs[..n];
      CollectKeepsThrow(rs, n + 1);
    } else {
      assert rs[..n] == rs;
    }
  }

  /** One more element of `results.map(...)`: a throw ends the map, a value is appended. */
  lemma CollectStep(rs: seq<Result<seq<Prop>>>, n: nat, out: seq<Value>)
    requires n < |rs| && Collect(rs[..n]) == Ok(out)
    ensures rs[n].Throw? ==> Collect(rs) == Throw(rs[n].error)
    ensures rs[n].Ok? ==> Collect(rs[..n + 1]) == Ok(out + [Obj(rs[n].value)])
  {
    assert rs[..n + 1][..n] == rs[..n] && rs[..n + 1][n] == rs[n];
    if rs[n].Throw? {
      CollectKeepsThrow(rs, n + 1);
    }
  }

  /** One `if ("_x" in searchParams) _extendKey(ret, key, children)` step. */
  function Attach(acc: Result<seq<Prop>>, key: string, present: bool, kids: Result<seq<Value>>)
    : Result<seq<Prop>>
  {
    if acc.Throw? || !present then acc
    else if kids.Throw? then Throw(kids.error)
    else Extended(acc.value, key, kids.value)
  }

  /** What a successful `Attach` step says about its input and output. */
  lemma AttachOk(acc: Result<seq<Prop>>, key: string, present: bool, kids: Result<seq<Value>>)
    requires Attach(acc, key, present, kids).Ok?
    ensures acc.Ok?
    ensures !present ==> Attach(acc, key, present, kids) == acc
    ensures present ==>
              var r := Attach(acc, key, present, kids).value;
              kids.Ok? && Prior(acc.value, key).Some? &&
              Has(r, key) && Get(r, key) == Arr(Prior(acc.value, key).value + kids.value)
  {
  }

  /** A successful `Attach` step leaves every other key as it was. */
  lemma AttachFrame(acc: Result<seq<Prop>>, key: string, present: bool, kids: Result<seq<Value>>, k: string)
    requires Attach(acc, key, present, kids).Ok? && k != key
    ensures acc.Ok?
    ensures var r := Attach(acc, key, present, kids).value;
            Has(r, k) == Has(acc.value, k) && Get(r, k) == Get(acc.value, k)
  {
  }

  /**
   * `searchWhereRecursive(searchParams, searchFunc)` as a value: `{}` for a falsy
   * argument; otherwise `searchFunc(searchParams)` extended under `$or` by the `_or`
   * children, then under `$and` by the `_and` children and by the negated `_not`
   * children.
   */
  function TranslateWhere(w: Where, searchFunc: Where -> Result<seq<Prop>>): Result<seq<Prop>>
    decreases w, 1
  {
    if w.Falsy? then Ok([])
    else
      var r0 := searchFunc(w);
      var r1 := Attach(r0, "$or", w.orKids.Present?, Collect(ChildResults(w, w.orKids, false, searchFunc)));
      var r2 := Attach(r1, "$and", w.andKids.Present?, Collect(ChildResults(w, w.andKids, false, searchFunc)));
      Attach(r2, "$and", w.notKids.Present?, Collect(ChildResults(w, w.notKids, true, searchFunc)))
  }

  /** One child, translated by a recursive call; a `_not` child's result is negated. */
  method TranslateChild(kid: Where, negate: bool, searchFunc: Where -> Result<seq<Prop>>)
    returns (t: Result<seq<Prop>>)
    ensures t == ChildResult(kid, negate, searchFunc)
    decreases kid, 2
  {
    t := SearchWhereRecursive(kid, searchFunc);
    if negate && t.Ok? {
      t := Ok(Negate(t.value));
    }
  }

  /** The children under one connective, translated in order by recursive calls. */
  method MapChildren(w: Where, c: Connective, negate: bool, searchFunc: Where -> Result<seq<Prop>>)
    returns (r: Result<seq<Value>>)
    requires w.Node? && (c == w.orKids || c == w.andKids || c == w.notKids)
    ensures r == Collect(ChildResults(w, c, negate, searchFunc))
    decreases w, 0
  {
    ghost var rs := ChildResults(w, c, negate, searchFunc);
    if c.Absent? {
      return Ok([]);
    }
    var out: seq<Value> := [];
    var i := 0;
    while i < |c.kids|
      invariant 0 <= i <= |c.kids|
      invariant Collect(rs[..i]) == Ok(out)
    {
      var t := TranslateChild(c.kids[i], negate, searchFunc);
      CollectStep(rs, i, out);
      if t.Throw? {
        return Throw(t.error);
      }
      out := out + [Obj(t.value)];
      i := i + 1;
    }
    assert i == |rs|;
    assert rs[..i] == rs;
    assert Collect(rs) == Ok(out);
    return Ok(out);
  }

  /**
   * `searchWhereRecursive`: starts from the object `searchFunc` returns and grows it in
   * place with `_extendKey`, recursing into the children of each connective.
   */
  method SearchWhereRecursive(w: Where, searchFunc: Where -> Result<seq<Prop>>)
    returns (r: Result<seq<Prop>>)
    ensures r == TranslateWhere(w, searchFunc)
    decreases w, 1
  {
    if w.Falsy? {
      return Ok([]);
    }
    var base := searchFunc(w);
    if base.Throw? {
      return base;
    }
    var ret := new JsObject(base.value);
    if w.orKids.Present? {
      var kids := MapChildren(w, w.orKids, false, searchFunc);
      if kids.Throw? {
        return Throw(kids.error);
      }
      var e := ExtendKey(ret, "$or", kids.value);
      if e.Throw? {
        return Throw(e.error);
      }
    }
    if w.andKids.Present? {
      var kids := MapChildren(w, w.andKids, false, searchFunc);
      if kids.Throw? {
        return Throw(kids.error);
      }
      var e := ExtendKey(ret, "$and", kids.value);
      if e.Throw? {
        return Throw(e.error);
      }
    }
    if w.notKids.Present? {
      var kids := MapChildren(w, w.notKids, true, searchFunc);
      if kids.Throw? {
        return Throw(kids.error);
      }
      var e := ExtendKey(ret, "$and", kids.value);
      if e.Throw? {
        return Throw(e.error);
      }
    }
    return Ok(ret.props);
  }

  // ---------------------------------------------------------------------------
  // Properties of the translation.
  // ---------------------------------------------------------------------------

  /**
   * A falsy argument translates to `{}`; a node without connectives translates to
   * exactly what `searchFunc` returns for it.
   */
  lemma TranslateWithoutConnectives(w: Where, searchFunc: Where -> Result<seq<Prop>>)
    requires w.Falsy? || (w.orKids.Absent? && w.andKids.Absent? && w.notKids.Absent?)
    ensures w.Falsy? ==> TranslateWhere(w, searchFunc) == Ok([])
    ensures w.Node? ==> TranslateWhere(w, searchFunc) == searchFunc(w)
  {
  }

  /** The three steps of one translation, each from the one before. */
  lemma TranslateSteps(w: Where, searchFunc: Where -> Result<seq<Prop>>)
    returns (base: seq<Prop>, afterOr: seq<Prop>, afterAnd: seq<Prop>)
    requires w.Node? && TranslateWhere(w, searchFunc).Ok?
    ensures searchFunc(w) == Ok(base)
    ensures Attach(Ok(base), "$or", w.orKids.Present?, Collect(ChildResults(w, w.orKids, false, searchFunc))) == Ok(afterOr)
    ensures Attach(Ok(afterOr), "$and", w.andKids.Present?, Collect(ChildResults(w, w.andKids, false, searchFunc))) == Ok(afterAnd)
    ensures Attach(Ok(afterAnd), "$and", w.notKids.Present?, Collect(ChildResults(w, w.notKids, true, searchFunc)))
            == TranslateWhere(w, searchFunc)
  {
    var r0 := searchFunc(w);
    var r1 := Attach(r0, "$or", w.orKids.Present?, Collect(ChildResults(w, w.orKids, false, searchFunc)));
    var r2 := Attach(r1, "$and", w.andKids.Present?, Collect(ChildResults(w, w.andKids, false, searchFunc)));
    base, afterOr, afterAnd := r0.value, r1.value, r2.value;
  }

  /**
   * Keys other than `$or` and `$and` are exactly those of `searchFunc`'s fragment,
   * with the same values: the connectives never touch field conditions.
   */
  lemma TranslateKeepsOtherKeys(w: Where, searchFunc: Where -> Result<seq<Prop>>, k: string)
    requires w.Node? && TranslateWhere(w, searchFunc).Ok?
    requires k != "$or" && k != "$and"
    ensures searchFunc(w).Ok?
    ensures var r := TranslateWhere(w, searchFunc).value;
            Has(r, k) == Has(searchFunc(w).value, k) && Get(r, k) == Get(searchFunc(w).value, k)
  {
    var base, afterOr, afterAnd := TranslateSteps(w, searchFunc);
  }

  /** The value a successful map over the children of `c` yields for child `i`. */
  lemma CollectedChild(w: Where, c: Connective, negate: bool, searchFunc: Where -> Result<seq<Prop>>, i: nat)
    requires w.Node? && (c == w.orKids || c == w.andKids || c == w.notKids)
    requires Collect(ChildResults(w, c, negate, searchFunc)).Ok? && i < Count(c)
    ensures var vals := Collect(ChildResults(w, c, negate, searchFunc)).value;
            |vals| == Count(c) && TranslateWhere(c.kids[i], searchFunc).Ok? &&
            vals[i] == Obj(if negate then Negate(TranslateWhere(c.kids[i], searchFunc).value)
                           else TranslateWhere(c.kids[i], searchFunc).value)
  {
    var rs := ChildResults(w, c, negate, searchFunc);
    assert rs[i] == ChildResult(c.kids[i], negate, searchFunc);
  }

  /** The `$or` list of a successful translation, as a whole list. */
  lemma TranslateOrStep(w: Where, searchFunc: Where -> Result<seq<Prop>>) returns (ors: Result<seq<Value>>)
    requires w.Node? && TranslateWhere(w, searchFunc).Ok?
    ensures searchFunc(w).Ok?
    ensures ors == Collect(ChildResults(w, w.orKids, false, searchFunc))
    ensures var base := searchFunc(w).value;
            var r := TranslateWhere(w, searchFunc).value;
            (w.orKids.Absent? ==> Has(r, "$or") == Has(base, "$or") && Get(r, "$or") == Get(base, "$or")) &&
            (w.orKids.Present? ==>
               ors.Ok? && Prior(base, "$or").Some? && Has(r, "$or") &&
               Get(r, "$or") == Arr(Prior(base, "$or").value + ors.value))
  {
    var base, afterOr, afterAnd := TranslateSteps(w, searchFunc);
    ors := Collect(ChildResults(w, w.orKids, false, searchFunc));
    AttachOk(Ok(base), "$or", w.orKids.Present?, ors);
    AttachFrame(Ok(afterOr), "$and", w.andKids.Present?, Collect(ChildResults(w, w.andKids, false, searchFunc)), "$or");
    AttachFrame(Ok(afterAnd), "$and", w.notKids.Present?, Collect(ChildResults(w, w.notKids, true, searchFunc)), "$or");
  }

  /** The `$and` list of a successful translation, as a whole list. */
  lemma TranslateAndStep(w: Where, searchFunc: Where -> Result<seq<Prop>>)
    returns (andVals: seq<Value>, notVals: seq<Value>)
    requires w.Node? && TranslateWhere(w, searchFunc).Ok?
    ensures searchFunc(w).Ok?
    ensures w.andKids.Present? ==> Collect(ChildResults(w, w.andKids, false, searchFunc)) == Ok(andVals)
    ensures w.andKids.Absent? ==> andVals == []
    ensures w.notKids.Present? ==> Collect(ChildResults(w, w.notKids, true, searchFunc)) == Ok(notVals)
    ensures w.notKids.Absent? ==> notVals == []
    ensures |andVals| == Count(w.andKids) && |notVals| == Count(w.notKids)
    ensures var base := searchFunc(w).value;
            var r := TranslateWhere(w, searchFunc).value;
            (w.andKids.Absent? && w.notKids.Absent? ==>
               Has(r, "$and") == Has(base, "$and") && Get(r, "$and") == Get(base, "$and")) &&
            (w.andKids.Present? || w.notKids.Present? ==>
               Prior(base, "$and").Some? && Has(r, "$and") &&
               Get(r, "$and") == Arr(Prior(base, "$and").value + andVals + notVals))
  {
    var base, afterOr, afterAnd := TranslateSteps(w, searchFunc);
    var ands := Collect(ChildResults(w, w.andKids, false, searchFunc));
    var nots := Collect(ChildResults(w, w.notKids, true, searchFunc));
    AttachFrame(Ok(base), "$or", w.orKids.Present?, Collect(ChildResults(w, w.orKids, false, searchFunc)), "$and");
    assert Prior(afterOr, "$and") == Prior(base, "$and");
    AttachOk(Ok(afterOr), "$and", w.andKids.Present?, ands);
    AttachOk(Ok(afterAnd), "$and", w.notKids.Present?, nots);
    andVals := if w.andKids.Present? then ands.value else [];
    notVals := if w.notKids.Present? then nots.value else [];
    if w.andKids.Present? && w.notKids.Present? {
      var prior := Prior(base, "$and").value;
      assert prior + andVals + notVals == (prior + andVals) + notVals;
    } else if w.notKids.Present? {
      assert afterAnd == afterOr && andVals == [];
      var prior := Prior(base, "$and").value;
      assert prior + andVals == prior;
    } else if w.andKids.Present? {
      assert notVals == [];
      var prior := Prior(base, "$and").value;
      assert prior + andVals + notVals == prior + andVals;
    }
  }

  /**
   * `$or` grows by exactly one translated child per `_or` entry, after the list
   * `searchFunc`'s fragment already held: the positions and lengths.
   */
  lemma TranslateOrLayout(w: Where, searchFunc: Where -> Result<seq<Prop>>)
    requires w.Node? && TranslateWhere(w, searchFunc).Ok? && w.orKids.Present?
    ensures searchFunc(w).Ok? && Prior(searchFunc(w).value, "$or").Some?
    ensures var prior := Prior(searchFunc(w).value, "$or").value;
            var got := Get(TranslateWhere(w, searchFunc).value, "$or");
            got.Arr? && |got.items| == |prior| + Count(w.orKids) && got.items[..|prior|] == prior
  {
    var ors := TranslateOrStep(w, searchFunc);
    var prior := Prior(searchFunc(w).value, "$or").value;
    assert (prior + ors.value)[..|prior|] == prior;
  }

  /** Entry `|prior| + i` of `$or` is the translation of `_or` child `i`. */
  lemma TranslateOrChild(w: Where, searchFunc: Where -> Result<seq<Prop>>, i: nat)
    requires w.Node? && TranslateWhere(w, searchFunc).Ok? && i < Count(w.orKids)
    ensures searchFunc(w).Ok? && Prior(searchFunc(w).value, "$or").Some?
    ensures var prior := Prior(searchFunc(w).value, "$or").value;
            var got := Get(TranslateWhere(w, searchFunc).value, "$or");
            got.Arr? && |prior| + i < |got.items| &&
            TranslateWhere(w.orKids.kids[i], searchFunc).Ok? &&
            got.items[|prior| + i] == Obj(TranslateWhere(w.orKids.kids[i], searchFunc).value)
  {
    var ors := TranslateOrStep(w, searchFunc);
    CollectedChild(w, w.orKids, false, searchFunc, i);
    var prior := Prior(searchFunc(w).value, "$or").value;
    assert (prior + ors.value)[|prior| + i] == ors.value[i];
  }

  /**
   * `$and` grows by one translated child per `_and` entry and then by one negated
   * child per `_not` entry, after the list `searchFunc`'s fragment already held: the
   * positions and lengths.
   */
  lemma TranslateAndLayout(w: Where, searchFunc: Where -> Result<seq<Prop>>)
    requires w.Node? && TranslateWhere(w, searchFunc).Ok?
    requires w.andKids.Present? || w.notKids.Present?
    ensures searchFunc(w).Ok? && Prior(searchFunc(w).value, "$and").Some?
    ensures var prior := Prior(searchFunc(w).value, "$and").value;
            var got := Get(TranslateWhere(w, searchFunc).value, "$and");
            got.Arr? && |got.items| == |prior| + Count(w.andKids) + Count(w.notKids) &&
            got.items[..|prior|] == prior
  {
    var andVals, notVals := TranslateAndStep(w, searchFunc);
    var prior := Prior(searchFunc(w).value, "$and").value;
    assert (prior + andVals + notVals)[..|prior|] == prior;
  }

  /** Where the pieces of a three-part list sit. */
  lemma ConcatEntries(a: seq<Value>, b: seq<Value>, c: seq<Value>)
    ensures |a + b + c| == |a| + |b| + |c|
    ensures forall i :: 0 <= i < |b| ==> (a + b + c)[|a| + i] == b[i]
    ensures forall i :: 0 <= i < |c| ==> (a + b + c)[|a| + |b| + i] == c[i]
  {
  }

  /** Entry `|prior| + i` of `$and` is the translation of `_and` child `i`. */
  lemma TranslateAndChild(w: Where, searchFunc: Where -> Result<seq<Prop>>, i: nat)
    requires w.Node? && TranslateWhere(w, searchFunc).Ok? && i < Count(w.andKids)
    ensures searchFunc(w).Ok? && Prior(searchFunc(w).value, "$and").Some?
    ensures var prior := Prior(searchFunc(w).value, "$and").value;
            var got := Get(TranslateWhere(w, searchFunc).value, "$and");
            got.Arr? && |prior| + i < |got.items| &&
            TranslateWhere(w.andKids.kids[i], searchFunc).Ok? &&
            got.items[|prior| + i] == Obj(TranslateWhere(w.andKids.kids[i], searchFunc).value)
  {
    var andVals, notVals := TranslateAndStep(w, searchFunc);
    CollectedChild(w, w.andKids, false, searchFunc, i);
    ConcatEntries(Prior(searchFunc(w).value, "$and").value, andVals, notVals);
  }

  /** Entry `|prior| + |_and| + i` of `$and` is the negated translation of `_not` child `i`. */
  lemma TranslateNotChild(w: Where, searchFunc: Where -> Result<seq<Prop>>, i: nat)
    requires w.Node? && TranslateWhere(w, searchFunc).Ok? && i < Count(w.notKids)
    ensures searchFunc(w).Ok? && Prior(searchFunc(w).value, "$and").Some?
    ensures var prior := Prior(searchFunc(w).value, "$and").value;
            var got := Get(TranslateWhere(w, searchFunc).value, "$and");
            got.Arr? && |prior| + Count(w.andKids) + i < |got.items| &&
            TranslateWhere(w.notKids.kids[i], searchFunc).Ok? &&
            got.items[|prior| + Count(w.andKids) + i] ==
              Obj(Negate(TranslateWhere(w.notKids.kids[i], searchFunc).value))
  {
    var andVals, notVals := TranslateAndStep(w, searchFunc);
    CollectedChild(w, w.notKids, true, searchFunc, i);
    ConcatEntries(Prior(searchFunc(w).value, "$and").value, andVals, notVals);
  }

  /**
   * A node that holds only `_not: [x]`, on which `searchFunc` gives `{}`, translates to
   * `{ $and: [negated x] }`.
   */
  lemma SingleNot(x: Where, searchFunc: Where -> Result<seq<Prop>>)
    requires searchFunc(Node([], Absent, Absent, Present([x]))) == Ok([])
    requires TranslateWhere(x, searchFunc).Ok?
    ensures TranslateWhere(Node([], Absent, Absent, Present([x])), searchFunc) ==
            Ok([Prop("$and", Arr([Obj(Negate(TranslateWhere(x, searchFunc).value))]))])
  {
    var w := Node([], Absent, Absent, Present([x]));
    var rs := ChildResults(w, w.notKids, true, searchFunc);
    var vals := [Obj(Negate(TranslateWhere(x, searchFunc).value))];
    assert rs[0] == ChildResult(x, true, searchFunc) == Ok(Negate(TranslateWhere(x, searchFunc).value));
    assert rs[..0] == [] && rs[..1] == rs;
    CollectStep(rs, 0, []);
    assert [] + [Obj(rs[0].value)] == vals;
    assert TranslateWhere(w, searchFunc) == Attach(Ok([]), "$and", true, Collect(rs));
    assert Put([], "$and", Arr([] + vals)) == [Prop("$and", Arr(vals))];
  }

  /**
   * Negation is applied per key and never cancels: `{ _not: [{ _not: [x] }] }` gives
   * `$and` holding `{ $and: { $not: [negated x] } }`, not the translation of `x`.
   */
  lemma DoubleNegationNests(x: Where, searchFunc: Where -> Result<seq<Prop>>)
    requires forall v: Where :: v.Node? && v.fields == [] ==> searchFunc(v) == Ok([])
    requires TranslateWhere(x, searchFunc).Ok?
    ensures var inner := Node([], Absent, Absent, Present([x]));
            var once := Obj(Negate(TranslateWhere(x, searchFunc).value));
            TranslateWhere(Node([], Absent, Absent, Present([inner])), searchFunc) ==
            Ok([Prop("$and", Arr([Obj([Prop("$and", Obj([Prop("$not", Arr([once]))]))])]))])
  {
    var inner := Node([], Absent, Absent, Present([x]));
    var once := Obj(Negate(TranslateWhere(x, searchFunc).value));
    SingleNot(x, searchFunc);
    SingleNot(inner, searchFunc);
    var t := [Prop("$and", Arr([once]))];
    assert Negate(t) == [Prop("$and", Obj([Prop("$not", Arr([once]))]))] by {
      assert t[1..] == [];
    }
  }

  /** `$or` and `$and`, when present, hold lists that `_extendKey` can spread. */
  predicate Extensible(frag: seq<Prop>) {
    (Has(frag, "$or") ==> Get(frag, "$or").Arr?) && (Has(frag, "$and") ==> Get(frag, "$and").Arr?)
  }

  /** A map over children that each translate successfully succeeds. */
  lemma CollectTotal(w: Where, c: Connective, negate: bool, searchFunc: Where -> Result<seq<Prop>>)
    requires w.Node? && (c == w.orKids || c == w.andKids || c == w.notKids)
    requires forall i :: 0 <= i < Count(c) ==> TranslateWhere(c.kids[i], searchFunc).Ok?
    ensures Collect(ChildResults(w, c, negate, searchFunc)).Ok?
  {
    var rs := ChildResults(w, c, negate, searchFunc);
    forall i | 0 <= i < |rs| ensures rs[i].Ok? {
      assert rs[i] == ChildResult(c.kids[i], negate, searchFunc);
    }
  }

  /** Extending a key that is absent or holds a list succeeds and leaves a list there. */
  lemma AttachList(acc: seq<Prop>, key: string, present: bool, kids: Result<seq<Value>>)
    requires kids.Ok? && (Has(acc, key) ==> Get(acc, key).Arr?)
    ensures Attach(Ok(acc), key, present, kids).Ok?
    ensures var r := Attach(Ok(acc), key, present, kids).value;
            Has(r, key) ==> Get(r, key).Arr?
  {
  }

  /**
   * When `searchFunc` never throws and leaves `$or` / `$and` absent or lists, the
   * translation of every `where` tree succeeds.
   */
  lemma {:induction false} TranslateTotal(w: Where, searchFunc: Where -> Result<seq<Prop>>)
    requires forall x :: searchFunc(x).Ok? && Extensible(searchFunc(x).value)
    ensures TranslateWhere(w, searchFunc).Ok?
    decreases w
  {
    if w.Node? {
      forall i | 0 <= i < Count(w.orKids) ensures TranslateWhere(w.orKids.kids[i], searchFunc).Ok? {
        TranslateTotal(w.orKids.kids[i], searchFunc);
      }
      forall i | 0 <= i < Count(w.andKids) ensures TranslateWhere(w.andKids.kids[i], searchFunc).Ok? {
        TranslateTotal(w.andKids.kids[i], searchFunc);
      }
      forall i | 0 <= i < Count(w.notKids) ensures TranslateWhere(w.notKids.kids[i], searchFunc).Ok? {
        TranslateTotal(w.notKids.kids[i], searchFunc);
      }
      var ors := Collect(ChildResults(w, w.orKids, false, searchFunc));
      var ands := Collect(ChildResults(w, w.andKids, false, searchFunc));
      var nots := Collect(ChildResults(w, w.notKids, true, searchFunc));
      CollectTotal(w, w.orKids, false, searchFunc);
      CollectTotal(w, w.andKids, false, searchFunc);
      CollectTotal(w, w.notKids, true, searchFunc);
      var base := searchFunc(w).value;
      AttachList(base, "$or", w.orKids.Present?, ors);
      AttachFrame(Ok(base), "$or", w.orKids.Present?, ors, "$and");
      var r1 := Attach(Ok(base), "$or", w.orKids.Present?, ors).value;
      AttachList(r1, "$and", w.andKids.Present?, ands);
      var r2 := Attach(Ok(r1), "$and", w.andKids.Present?, ands).value;
      AttachList(r2, "$and", w.notKids.Present?, nots);
    }
  }
}
