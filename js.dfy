/**
 * The fragment of JavaScript's value model that the translator relies on.
 *
 * A plain object is an ordered sequence of properties: JavaScript keeps string
 * keys in insertion order, assignment to an existing key keeps its position,
 * and reading a missing key gives `undefined`. Numbers are integers here.
 */
module Js {

  datatype Value =
    | Undefined
    | Null
    | Bool(b: bool)
    | Num(n: int)
    | Str(s: string)
    | Arr(items: seq<Value>)
    | Obj(props: seq<Prop>)

  /** One own enumerable property of a plain object. */
  datatype Prop = Prop(key: string, val: Value)

  datatype Option<+T> = None | Some(value: T)

  /** The outcome of a call that may throw: the thrown message is kept as text. */
  datatype Result<+T> = Ok(value: T) | Throw(error: string)

  predicate Nullish(v: Value) {
    v.Undefined? || v.Null?
  }

  /** JavaScript truthiness (`if (v)`, `!v`). */
  predicate Truthy(v: Value) {
    match v
    case Undefined => false
    case Null => false
    case Bool(b) => b
    case Num(n) => n != 0
    case Str(s) => s != ""
    case Arr(_) => true
    case Obj(_) => true
  }

  /** `v` unless it is `undefined`: the rule for a destructuring default `{ x = d }`. */
  function Default(v: Value, d: Value): (r: Value)
    ensures v.Undefined? ==> r == d
    ensures !v.Undefined? ==> r == v
  {
    if v.Undefined? then d else v
  }

  /** The keys of an object, in order. */
  function Keys(d: seq<Prop>): (ks: seq<string>)
    ensures |ks| == |d|
    ensures forall i :: 0 <= i < |d| ==> ks[i] == d[i].key
  {
    if d == [] then [] else [d[0].key] + Keys(d[1..])
  }

  /** `k in obj` for an own property. */
  predicate Has(d: seq<Prop>, k: string) {
    d != [] && (d[0].key == k || Has(d[1..], k))
  }

  lemma {:induction false} HasIffInKeys(d: seq<Prop>, k: string)
    ensures Has(d, k) <==> k in Keys(d)
  {
    if d != [] {
      HasIffInKeys(d[1..], k);
      assert Keys(d) == [d[0].key] + Keys(d[1..]);
    }
  }

  lemma {:induction false} HasIffSomeKey(d: seq<Prop>, k: string)
    ensures Has(d, k) <==> exists i :: 0 <= i < |d| && d[i].key == k
  {
    if d != [] {
      HasIffSomeKey(d[1..], k);
      if Has(d[1..], k) {
        var i :| 0 <= i < |d[1..]| && d[1..][i].key == k;
        assert d[i + 1].key == k;
      }
      if exists i :: 0 <= i < |d| && d[i].key == k {
        var i :| 0 <= i < |d| && d[i].key == k;
        if i > 0 { assert d[1..][i - 1].key == k; }
      }
    }
  }

  /** `obj[k]`: the value of the property named `k`, `undefined` when there is none. */
  function Get(d: seq<Prop>, k: string): (r: Value)
    ensures !Has(d, k) ==> r == Undefined
  {
    if d == [] then Undefined else if d[0].key == k then d[0].val else Get(d[1..], k)
  }

  /** Reading a key gives the value of its first definition. */
  lemma {:induction false} GetFirst(d: seq<Prop>, i: nat)
    requires i < |d| && forall j :: 0 <= j < i ==> d[j].key != d[i].key
    ensures Has(d, d[i].key) && Get(d, d[i].key) == d[i].val
  {
    if i > 0 {
      forall j | 0 <= j < i - 1 ensures d[1..][j].key != d[1..][i - 1].key {
        assert d[1..][j] == d[j + 1];
      }
      GetFirst(d[1..], i - 1);
    }
  }

  /** `obj[k] = v`: overwrite in place when `k` is present, append otherwise. */
  function Put(d: seq<Prop>, k: string, v: Value): (r: seq<Prop>)
    ensures Has(r, k) && Get(r, k) == v
    ensures forall k' :: k' != k ==> Has(r, k') == Has(d, k') && Get(r, k') == Get(d, k')
    ensures Keys(r) == if Has(d, k) then Keys(d) else Keys(d) + [k]
  {
    if d == [] then
      var r := [Prop(k, v)];
      assert r[0].key == k && r[1..] == [];
      r
    else if d[0].key == k then
      var r := [Prop(k, v)] + d[1..];
      assert r[0].key == k && r[1..] == d[1..];
      assert Keys(r) == [k] + Keys(d[1..]);
      r
    else
      var t := Put(d[1..], k, v);
      var r := [d[0]] + t;
      assert r[0] == d[0] && r[1..] == t;
      assert Keys(r) == [d[0].key] + Keys(t);
      assert forall k' :: Has(r, k') == (d[0].key == k' || Has(t, k'));
      assert forall k' :: Get(r, k') == if d[0].key == k' then d[0].val else Get(t, k');
      r
  }

  /**
   * The value the LAST property definition for `k` in `defs` gives it (`undefined` when
   * there is none): what a later assignment to the same key leaves behind.
   */
  function LastDef(defs: seq<Prop>, k: string): (r: Value)
    ensures !Has(defs, k) ==> r == Undefined
  {
    if defs == [] then Undefined
    else if Has(defs[1..], k) then LastDef(defs[1..], k)
    else if defs[0].key == k then defs[0].val
    else Undefined
  }

  lemma {:induction false} LastDefAppend(x: seq<Prop>, y: seq<Prop>, k: string)
    ensures Has(x + y, k) <==> Has(x, k) || Has(y, k)
    ensures LastDef(x + y, k) == if Has(y, k) then LastDef(y, k) else LastDef(x, k)
  {
    if x == [] {
      assert x + y == y;
    } else {
      assert (x + y)[0] == x[0] && (x + y)[1..] == x[1..] + y;
      LastDefAppend(x[1..], y, k);
    }
  }

  /** The value of a key defined exactly once is the value of that definition. */
  lemma {:induction false} LastDefSingle(defs: seq<Prop>, i: nat)
    requires i < |defs|
    requires forall j :: 0 <= j < |defs| && j != i ==> defs[j].key != defs[i].key
    ensures Has(defs, defs[i].key) && LastDef(defs, defs[i].key) == defs[i].val
  {
    var k := defs[i].key;
    if i == 0 {
      NotHasWhenAbsent(defs[1..], k);
    } else {
      forall j | 0 <= j < |defs[1..]| && j != i - 1
        ensures defs[1..][j].key != defs[1..][i - 1].key
      {
        assert defs[1..][j] == defs[j + 1];
      }
      LastDefSingle(defs[1..], i - 1);
    }
  }

  lemma {:induction false} NotHasWhenAbsent(defs: seq<Prop>, k: string)
    requires forall j :: 0 <= j < |defs| ==> defs[j].key != k
    ensures !Has(defs, k)
  {
    if defs != [] {
      NotHasWhenAbsent(defs[1..], k);
    }
  }

  /** No key is defined twice, as in every object JavaScript builds. */
  predicate UniqueKeys(d: seq<Prop>) {
    forall i, j :: 0 <= i < j < |d| ==> d[i].key != d[j].key
  }

  /** In an object with unique keys, the first and the last definition of a key agree. */
  lemma {:induction false} UniqueLastDef(d: seq<Prop>, k: string)
    requires UniqueKeys(d)
    ensures LastDef(d, k) == Get(d, k)
  {
    if d != [] {
      if d[0].key == k {
        NotHasWhenAbsent(d[1..], k);
      } else {
        UniqueLastDef(d[1..], k);
      }
    }
  }

  /** Assignment never defines a key twice. */
  lemma PutKeepsUnique(d: seq<Prop>, k: string, v: Value)
    requires UniqueKeys(d)
    ensures UniqueKeys(Put(d, k, v))
  {
    var r := Put(d, k, v);
    var kr, kd := Keys(r), Keys(d);
    HasIffInKeys(d, k);
    forall i, j | 0 <= i < j < |r| ensures r[i].key != r[j].key {
      assert r[i].key == kr[i] && r[j].key == kr[j];
      if j < |d| {
        assert kr[i] == kd[i] == d[i].key && kr[j] == kd[j] == d[j].key;
      } else {
        assert kr[j] == k && kr[i] == kd[i] && kd[i] in kd;
      }
    }
  }

  /** `Object.assign` onto an object with unique keys keeps them unique. */
  lemma {:induction false} AssignKeepsUnique(target: seq<Prop>, src: seq<Prop>)
    requires UniqueKeys(target)
    ensures UniqueKeys(Assign(target, src))
    decreases |src|
  {
    if src != [] {
      PutKeepsUnique(target, src[0].key, src[0].val);
      AssignKeepsUnique(Put(target, src[0].key, src[0].val), src[1..]);
    }
  }

  /** `Object.assign(target, src)`: copy the properties of `src`, in order, onto `target`. */
  function Assign(target: seq<Prop>, src: seq<Prop>): (r: seq<Prop>)
    ensures forall k :: Has(r, k) <==> Has(target, k) || Has(src, k)
    ensures forall k :: Get(r, k) == if Has(src, k) then LastDef(src, k) else Get(target, k)
    decreases |src|
  {
    if src == [] then target else Assign(Put(target, src[0].key, src[0].val), src[1..])
  }

  /** Every property definition of every source, sources in order. */
  function Flatten(srcs: seq<seq<Prop>>): (r: seq<Prop>)
    ensures srcs == [] ==> r == []
  {
    if srcs == [] then [] else Flatten(srcs[..|srcs| - 1]) + srcs[|srcs| - 1]
  }

  /** `Object.assign({}, ...srcs)`. */
  function AssignAll(srcs: seq<seq<Prop>>): (r: seq<Prop>)
    ensures forall k :: Has(r, k) <==> Has(Flatten(srcs), k)
    ensures forall k :: Get(r, k) == LastDef(Flatten(srcs), k)
  {
    Assign([], Flatten(srcs))
  }

  /**
   * Adding one more source to `Object.assign`: its keys join the result, and on a key
   * it holds its own (last) definition wins over everything assigned before.
   */
  lemma AssignAllSnoc(srcs: seq<seq<Prop>>, last: seq<Prop>, k: string)
    ensures Has(AssignAll(srcs + [last]), k) <==> Has(AssignAll(srcs), k) || Has(last, k)
    ensures Get(AssignAll(srcs + [last]), k) ==
              if Has(last, k) then LastDef(last, k) else Get(AssignAll(srcs), k)
  {
    assert (srcs + [last])[..|srcs|] == srcs;
    assert Flatten(srcs + [last]) == Flatten(srcs) + last;
    LastDefAppend(Flatten(srcs), last, k);
  }

  /** A key is defined by the concatenated sources exactly when some source defines it. */
  lemma {:induction false} FlattenHas(srcs: seq<seq<Prop>>, k: string)
    ensures Has(Flatten(srcs), k) <==> exists i :: 0 <= i < |srcs| && Has(srcs[i], k)
  {
    if srcs != [] {
      var init := srcs[..|srcs| - 1];
      FlattenHas(init, k);
      LastDefAppend(Flatten(init), srcs[|srcs| - 1], k);
      if exists i :: 0 <= i < |init| && Has(init[i], k) {
        var i :| 0 <= i < |init| && Has(init[i], k);
        assert srcs[i] == init[i];
      }
      if exists i :: 0 <= i < |srcs| && Has(srcs[i], k) {
        var i :| 0 <= i < |srcs| && Has(srcs[i], k);
        if i < |init| { assert init[i] == srcs[i]; }
      }
    }
  }

  function NatToString(n: nat): (r: string)
    ensures r != []
  {
    var digit := "0123456789"[n % 10];
    if n < 10 then [digit] else NatToString(n / 10) + [digit]
  }

  function IntToString(n: int): string {
    if n < 0 then "-" + NatToString(-n) else NatToString(n)
  }

  /** The string a template literal `${v}` interpolates (`ToString`). */
  function ToStr(v: Value): string {
    match v
    case Undefined => "undefined"
    case Null => "null"
    case Bool(b) => if b then "true" else "false"
    case Num(n) => IntToString(n)
    case Str(s) => s
    case Arr(items) => Join(items)
    case Obj(_) => "[object Object]"
  }

  /** `items.join()`: the elements' strings, `null` and `undefined` as empty, comma-separated. */
  function Join(items: seq<Value>): string
    decreases items
  {
    if items == [] then ""
    else
      var last := items[|items| - 1];
      var s := if Nullish(last) then "" else ToStr(last);
      if |items| == 1 then s else Join(items[..|items| - 1]) + "," + s
  }

  /**
   * The own enumerable properties of `v` as `Object.entries` and lodash's iterators
   * visit them: an object's properties, a string's or array's indices; nothing for
   * the other primitives.
   */
  function OwnEntries(v: Value): (r: seq<Prop>)
    ensures Nullish(v) ==> r == []
    ensures v.Obj? ==> r == v.props
  {
    match v
    case Obj(ps) => ps
    case Str(s) => Indexed(Chars(s))
    case Arr(items) => Indexed(items)
    case _ => []
  }

  /** The one-character strings of `s`, in order. */
  function Chars(s: string): (r: seq<Value>)
    ensures |r| == |s|
  {
    if s == [] then [] else Chars(s[..|s| - 1]) + [Str([s[|s| - 1]])]
  }

  /** The entries `[index, element]` of a list, indices written in decimal. */
  function Indexed(items: seq<Value>): (r: seq<Prop>)
    ensures |r| == |items|
  {
    if items == [] then []
    else Indexed(items[..|items| - 1]) + [Prop(NatToString(|items| - 1), items[|items| - 1])]
  }

  /**
   * Reading the property `k` of a value that is not `null` or `undefined`: an own
   * entry, or the `length` of a string or array; primitives have no other properties.
   */
  function Member(v: Value, k: string): (r: Value)
    ensures v.Obj? ==> r == Get(v.props, k)
    ensures !v.Obj? && !MayBeIndex(k) && k != "length" ==> r == Undefined
  {
    match v
    case Obj(ps) => Get(ps, k)
    case Str(s) => if k == "length" then Num(|s|) else if MayBeIndex(k) then Get(Indexed(Chars(s)), k)
                   else Undefined
    case Arr(items) => if k == "length" then Num(|items|) else if MayBeIndex(k) then Get(Indexed(items), k)
                   else Undefined
    case _ => Undefined
  }

  /** Whether `k` starts like an array index; other keys name no element. */
  predicate MayBeIndex(k: string) {
    |k| > 0 && '0' <= k[0] <= '9'
  }

  /** Apart from `length`, a property read finds the value's own entry for the key. */
  lemma MemberReadsOwnEntries(v: Value, k: string)
    requires k != "length"
    ensures Member(v, k) == Get(OwnEntries(v), k)
  {
    match v
    case Str(s) => if !MayBeIndex(k) { IndexedKeysAreDigits(Chars(s), k); }
    case Arr(items) => if !MayBeIndex(k) { IndexedKeysAreDigits(items, k); }
    case _ =>
  }

  /** Indices are written in decimal, so every index key starts with a digit. */
  lemma {:induction false} IndexedKeysAreDigits(items: seq<Value>, k: string)
    requires !MayBeIndex(k)
    ensures !Has(Indexed(items), k)
  {
    var d := Indexed(items);
    forall j | 0 <= j < |d| ensures d[j].key != k {
      IndexedKey(items, j);
      DecimalStartsWithDigit(j);
    }
    NotHasWhenAbsent(d, k);
  }

  /** The key of entry `j` of `Indexed(items)` is `j` in decimal. */
  lemma {:induction false} IndexedKey(items: seq<Value>, j: nat)
    requires j < |items|
    ensures Indexed(items)[j].key == NatToString(j)
    decreases |items|
  {
    if j < |items| - 1 {
      IndexedKey(items[..|items| - 1], j);
    }
  }

  /** A decimal numeral starts with a digit. */
  lemma {:induction false} DecimalStartsWithDigit(n: nat)
    ensures MayBeIndex(NatToString(n))
  {
    if n >= 10 {
      DecimalStartsWithDigit(n / 10);
    }
  }

  /** The elements `[...v]` produces, or `None` when `v` is not iterable (a TypeError). */
  function Spread(v: Value): (r: Option<seq<Value>>)
    ensures v.Arr? ==> r == Some(v.items)
    ensures !v.Arr? && !v.Str? ==> r == None
  {
    match v
    case Arr(items) => Some(items)
    case Str(s) => Some(Chars(s))
    case _ => None
  }
}
