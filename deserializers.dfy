/**
 * The deserializer closures both generators build, as data, and what running
 * one on a value does. The primitives (`deserialize_int`, ...) and the
 * combinator factories (`get_deserialize_list`, ...) are the same expressions
 * in gena/deserializer.py and flask_peewee_restful/deserializer.py; the two
 * files differ in the dict combinator (`DDict` here, `DDictValues` there) and
 * in how a dataclass closure is reached (`DRef` into a heap of closures that
 * are filled in after they are registered, `DInline` for the legacy closures
 * that are complete when created).
 */
module Deserializers {
  import opened Wrappers
  import opened Py
  import opened Text

  datatype Deser =
    | DInt                                    // deserialize_int
    | DFloat                                  // deserialize_float
    | DBool                                   // deserialize_bool
    | DStr                                    // deserialize_str
    | DNone                                   // deserialize_none
    | DNullable(inner: Deser)                 // deserialize_nullable, deserialize_optional_arg
    | DList(item: Deser)                      // get_deserialize_list
    | DTuple(items: seq<Deser>)               // get_deserialize_tuple
    | DHomTuple(item: Deser)                  // get_deserialize_homogeneous_tuple
    | DSet(item: Deser)                       // get_deserialize_set
    | DDict(key: Deser, val: Deser)           // get_deserialize_dict(key, item)
    | DDictValues(val: Deser)                 // the legacy get_deserialize_dict(item)
    | DLiteral(values: seq<Value>)            // deserialize_literal
    | DUnion(members: seq<Deser>)             // deserialize_n_args
    | DEnum(cls: string, memberValues: seq<Value>) // an Enum class used as its own constructor
    | DRef(id: nat)                           // a dataclass / TypedDict closure of the heap
    | DInline(closure: Closure)               // a legacy dataclass / TypedDict closure

  /** One entry of `field2deserializer`, with its `field2optional` flag. */
  datatype FieldDeser = FieldDeser(name: string, deser: Deser, optional: bool)

  datatype Closure =
    /** deserialize_dataclass; `required` lists the fields the constructor
        `CLS(**output)` cannot do without (no default, no default factory). */
    | DataclassClosure(cls: string, required: seq<string>, defaults: map<string, Value>, fields: seq<FieldDeser>)
    /** deserialize_typed_dict */
    | TypedDictClosure(fields: seq<FieldDeser>)

  // ---------------------------------------------------------------------
  // Primitives.

  /** `int(value) == value` for a finite float. */
  predicate Integral(x: real) {
    x == x.Floor as real
  }

  function DeserializeInt(v: Value): (r: Result<Value, Exc>)
    ensures r.Failure? ==> r.error == ValueError
  {
    match v
    case VInt(_) => Success(v)
    case VBool(_) => Success(v)
    case VStr(s) =>
      (match ParseInt(s)
       case Some(i) => Success(VInt(i))
       case None => Failure(ValueError))
    case VFloat(x) => if Integral(x) then Success(VInt(x.Floor)) else Failure(ValueError)
    case _ => Failure(ValueError)
  }

  function DeserializeFloat(v: Value): (r: Result<Value, Exc>)
    ensures r.Failure? ==> r.error == ValueError
  {
    match v
    case VInt(_) => Success(v)
    case VBool(_) => Success(v)
    case VFloat(_) => Success(v)
    case VStr(s) =>
      (match ParseDecimal(s)
       case Some(x) => Success(VFloat(x))
       case None => Failure(ValueError))
    case _ => Failure(ValueError)
  }

  function DeserializeBool(v: Value): (r: Result<Value, Exc>)
    ensures r.Failure? ==> r.error == ValueError
  {
    match v
    case VBool(_) => Success(v)
    case VStr(s) => if s != "true" && s != "false" then Failure(ValueError) else Success(VBool(s == "true"))
    case _ => Failure(ValueError)
  }

  function DeserializeStr(v: Value): (r: Result<Value, Exc>)
    ensures r.Success? <==> v.VStr?
    ensures r.Success? ==> r.value == v
    ensures r.Failure? ==> r.error == ValueError
  {
    if v.VStr? then Success(v) else Failure(ValueError)
  }

  function DeserializeNone(v: Value): (r: Result<Value, Exc>)
    ensures r.Success? <==> v == VNone
    ensures r.Success? ==> r.value == VNone
    ensures r.Failure? ==> r.error == ValueError
  {
    if v != VNone then Failure(ValueError) else Success(v)
  }

  /** deserialize_int keeps every `int`, bools included; parses strings; takes integral floats. */
  lemma DeserializeIntSpec(v: Value)
    ensures IsPyInt(v) ==> DeserializeInt(v) == Success(v)
    ensures v.VFloat? ==> (DeserializeInt(v).Success? <==> Integral(v.r))
    ensures v.VFloat? && Integral(v.r) ==> DeserializeInt(v).value.VInt? && DeserializeInt(v).value.i as real == v.r
    ensures v.VStr? ==> (DeserializeInt(v).Success? <==> ParseInt(v.s).Some?)
    ensures v.VStr? && ParseInt(v.s).Some? ==> DeserializeInt(v) == Success(VInt(ParseInt(v.s).value))
    ensures !(IsPyInt(v) || v.VFloat? || v.VStr?) ==> DeserializeInt(v) == Failure(ValueError)
  {
  }

  /** The text `str(i)` deserializes back to `i`. */
  lemma DeserializeIntShowInt(i: int)
    ensures DeserializeInt(VStr(ShowInt(i))) == Success(VInt(i))
  {
    ParseShowInt(i);
  }

  /** deserialize_bool accepts only a bool or exactly "true" / "false", and "true" means True. */
  lemma DeserializeBoolSpec(v: Value)
    ensures DeserializeBool(v).Success? <==> v.VBool? || v == VStr("true") || v == VStr("false")
    ensures v.VBool? ==> DeserializeBool(v) == Success(v)
    ensures DeserializeBool(VStr("true")) == Success(VBool(true))
    ensures DeserializeBool(VStr("false")) == Success(VBool(false))
  {
  }

  // ---------------------------------------------------------------------
  // Sequencing helpers.

  /** deserialize_n_args given each member's result: the first result that is not a
      ValueError (a success, or an exception the `except ValueError` lets through);
      ValueError when every member raised ValueError. */
  function FirstNotValueError(rs: seq<Result<Value, Exc>>): (r: Result<Value, Exc>)
    ensures (forall i | 0 <= i < |rs| :: rs[i] == Failure(ValueError)) <==> r == Failure(ValueError)
    ensures r != Failure(ValueError) ==>
      exists i | 0 <= i < |rs| :: rs[i] == r && forall j | 0 <= j < i :: rs[j] == Failure(ValueError)
  {
    if |rs| == 0 then Failure(ValueError)
    else if rs[0] != Failure(ValueError) then rs[0]
    else FirstNotValueError(rs[1..])
  }

  /** `{x for x in xs}` given the hashable values: equal values collapse onto the first. */
  function AddToSet(items: seq<Value>, x: Value): seq<Value> {
    if InValues(x, items) then items else items + [x]
  }

  function BuildSet(xs: seq<Value>): (r: seq<Value>)
    ensures |r| <= |xs|
    decreases |xs|
  {
    if |xs| == 0 then [] else AddToSet(BuildSet(xs[..|xs| - 1]), xs[|xs| - 1])
  }

  /** `{k: v for ...}` given the key/value pairs, in order. */
  function BuildDict(kvs: seq<Entry>): (r: seq<Entry>)
    ensures |r| <= |kvs|
    decreases |kvs|
  {
    if |kvs| == 0 then []
    else
      var last := kvs[|kvs| - 1];
      DictSet(BuildDict(kvs[..|kvs| - 1]), last.key, last.val)
  }

  /** `x` is, as an object, one of `xs`. */
  predicate IsOneOf(xs: seq<Value>, x: Value) {
    exists i | 0 <= i < |xs| :: xs[i] == x
  }

  /** No two items of the set are equal. */
  predicate DistinctItems(r: seq<Value>) {
    forall j, k | 0 <= j < k < |r| :: !PyEq(r[j], r[k])
  }

  /** Every item of the set is one of the values. */
  predicate ItemsFrom(r: seq<Value>, xs: seq<Value>) {
    forall j {:trigger IsOneOf(xs, r[j])} | 0 <= j < |r| :: IsOneOf(xs, r[j])
  }

  /** Every value is in the set. */
  predicate Covers(r: seq<Value>, xs: seq<Value>) {
    forall i {:trigger InValues(xs[i], r)} | 0 <= i < |xs| :: InValues(xs[i], r)
  }

  /** Adding a value keeps the three properties, for the values with it appended. */
  lemma AddToSetKeeps(init: seq<Value>, r: seq<Value>, x: Value)
    requires DistinctItems(r) && ItemsFrom(r, init) && Covers(r, init)
    ensures var r' := AddToSet(r, x);
      DistinctItems(r') && ItemsFrom(r', init + [x]) && Covers(r', init + [x])
  {
    var r', xs := AddToSet(r, x), init + [x];
    if !InValues(x, r) {
      assert r' == r + [x];
      forall j | 0 <= j < |r| ensures !PyEq(r[j], x) {
        PyEqSymmetric(r[j], x);
      }
    }
    forall j | 0 <= j < |r'| ensures IsOneOf(xs, r'[j]) {
      if j < |r| {
        assert IsOneOf(init, r[j]);
        var i :| 0 <= i < |init| && init[i] == r[j];
        assert xs[i] == r'[j];
      } else {
        assert xs[|init|] == r'[j];
      }
    }
    forall i | 0 <= i < |xs| ensures InValues(xs[i], r') {
      if i < |init| {
        assert InValues(init[i], r);
        var j :| 0 <= j < |r| && PyEq(init[i], r[j]);
        assert PyEq(xs[i], r'[j]);
      } else if !InValues(x, r) {
        assert PyEq(xs[i], r'[|r|]);
      }
    }
  }

  /** A set built from values has no two equal items, holds only those values, and
      holds each of them up to equality: equal values collapse onto the first seen. */
  lemma {:induction false} BuildSetContents(xs: seq<Value>)
    ensures DistinctItems(BuildSet(xs)) && ItemsFrom(BuildSet(xs), xs) && Covers(BuildSet(xs), xs)
    decreases |xs|
  {
    if |xs| > 0 {
      var init, x := xs[..|xs| - 1], xs[|xs| - 1];
      BuildSetContents(init);
      AddToSetKeeps(init, BuildSet(init), x);
      assert xs == init + [x];
    }
  }

  /** The value of the last pair whose key equals `k`, if any. */
  function LastValue(kvs: seq<Entry>, k: Value): Option<Value>
    decreases |kvs|
  {
    if |kvs| == 0 then None
    else if PyEq(kvs[|kvs| - 1].key, k) then Some(kvs[|kvs| - 1].val)
    else LastValue(kvs[..|kvs| - 1], k)
  }

  /** No two keys of the dict are equal. */
  predicate DistinctKeys(r: seq<Entry>) {
    forall j, k | 0 <= j < k < |r| :: !PyEq(r[j].key, r[k].key)
  }

  /** `k` is, as an object, the key of one of the pairs. */
  predicate IsKeyOf(kvs: seq<Entry>, k: Value) {
    exists i | 0 <= i < |kvs| :: kvs[i].key == k
  }

  /** Every key of the dict is a key object of the pairs. */
  predicate KeysFrom(r: seq<Entry>, kvs: seq<Entry>) {
    forall j {:trigger IsKeyOf(kvs, r[j].key)} | 0 <= j < |r| :: IsKeyOf(kvs, r[j].key)
  }

  /** Every key of the pairs is in the dict. */
  predicate HasKeys(r: seq<Entry>, kvs: seq<Entry>) {
    forall i {:trigger FindKey(r, kvs[i].key)} | 0 <= i < |kvs| :: FindKey(r, kvs[i].key).Some?
  }

  /** Every value of the dict is that of the last pair whose key equals its key. */
  predicate LastValues(r: seq<Entry>, kvs: seq<Entry>) {
    forall j | 0 <= j < |r| :: LastValue(kvs, r[j].key) == Some(r[j].val)
  }

  lemma PyEqSymmetric(a: Value, b: Value)
    ensures PyEq(a, b) <==> PyEq(b, a)
  {
  }

  /** A value equal to `a` is equal to whatever `a` equals, and to nothing else. */
  lemma PyEqThrough(a: Value, b: Value, c: Value)
    requires PyEq(a, b)
    ensures PyEq(b, c) <==> PyEq(a, c)
  {
  }

  /** One pair more: the last value for `k` is the new pair's if its key equals `k`. */
  lemma LastValueSnoc(kvs: seq<Entry>, e: Entry, k: Value)
    ensures LastValue(kvs + [e], k) == if PyEq(e.key, k) then Some(e.val) else LastValue(kvs, k)
  {
    assert (kvs + [e])[..|kvs|] == kvs;
  }

  /** The last value for `k` comes from a pair whose key equals `k` and after which no
      key equals `k`. */
  lemma {:induction false} LastValueAt(kvs: seq<Entry>, k: Value)
    ensures LastValue(kvs, k).Some? ==>
      exists i | 0 <= i < |kvs| :: PyEq(kvs[i].key, k) && kvs[i].val == LastValue(kvs, k).value
        && forall l | i < l < |kvs| :: !PyEq(kvs[l].key, k)
    decreases |kvs|
  {
    if |kvs| > 0 && !PyEq(kvs[|kvs| - 1].key, k) {
      var init := kvs[..|kvs| - 1];
      LastValueAt(init, k);
      if LastValue(init, k).Some? {
        var i :| 0 <= i < |init| && PyEq(init[i].key, k) && init[i].val == LastValue(init, k).value
          && forall l | i < l < |init| :: !PyEq(init[l].key, k);
        assert forall l | i < l < |kvs| :: !PyEq(kvs[l].key, k);
      }
    }
  }

  /** `d[k] = v` on a key equal to none of the dict's appends the pair and keeps the
      four properties. */
  lemma {:induction false} AppendPair(init: seq<Entry>, r: seq<Entry>, e: Entry)
    requires DistinctKeys(r) && KeysFrom(r, init) && HasKeys(r, init) && LastValues(r, init)
    requires forall j | 0 <= j < |r| :: !PyEq(r[j].key, e.key)
    ensures DistinctKeys(r + [e]) && KeysFrom(r + [e], init + [e])
    ensures HasKeys(r + [e], init + [e]) && LastValues(r + [e], init + [e])
  {
    var r', kvs := r + [e], init + [e];
    forall j | 0 <= j < |r'| ensures IsKeyOf(kvs, r'[j].key) {
      if j < |r| {
        assert IsKeyOf(init, r[j].key);
      var i :| 0 <= i < |init| && init[i].key == r[j].key;
        assert kvs[i].key == r'[j].key;
      } else {
        assert kvs[|init|].key == r'[j].key;
      }
    }
    forall i | 0 <= i < |kvs| ensures FindKey(r', kvs[i].key).Some? {
      if i < |init| {
        var j := FindKey(r, init[i].key).value;
        assert PyEq(r'[j].key, kvs[i].key);
      } else {
        assert PyEq(r'[|r|].key, kvs[i].key);
      }
    }
    forall j | 0 <= j < |r'| ensures LastValue(kvs, r'[j].key) == Some(r'[j].val) {
      LastValueSnoc(init, e, r'[j].key);
      if j < |r| {
        PyEqSymmetric(r[j].key, e.key);
      }
    }
  }

  /** `d[k] = v` on a key equal to the dict's key at `p` replaces that value only, and
      keeps the four properties. */
  lemma {:induction false} ReplaceValue(init: seq<Entry>, r: seq<Entry>, e: Entry, p: nat)
    requires DistinctKeys(r) && KeysFrom(r, init) && HasKeys(r, init) && LastValues(r, init)
    requires p < |r| && PyEq(r[p].key, e.key)
    ensures var r' := r[p := Entry(r[p].key, e.val)];
      DistinctKeys(r') && KeysFrom(r', init + [e]) && HasKeys(r', init + [e]) && LastValues(r', init + [e])
  {
    var r', kvs := r[p := Entry(r[p].key, e.val)], init + [e];
    forall j | 0 <= j < |r'| ensures IsKeyOf(kvs, r'[j].key) {
      assert IsKeyOf(init, r[j].key);
      var i :| 0 <= i < |init| && init[i].key == r[j].key;
      assert kvs[i].key == r'[j].key;
    }
    forall i | 0 <= i < |kvs| ensures FindKey(r', kvs[i].key).Some? {
      if i < |init| {
        var j := FindKey(r, init[i].key).value;
        assert PyEq(r'[j].key, kvs[i].key);
      } else {
        assert PyEq(r'[p].key, kvs[i].key);
      }
    }
    forall j | 0 <= j < |r'| ensures LastValue(kvs, r'[j].key) == Some(r'[j].val) {
      LastValueSnoc(init, e, r'[j].key);
      if j != p {
        PyEqSymmetric(r[j].key, r[p].key);
        PyEqThrough(r[p].key, e.key, r[j].key);
      } else {
        PyEqSymmetric(r[p].key, e.key);
      }
    }
  }

  /** A dict built from key/value pairs has no two equal keys; it holds every key it was
      given, each stored under a key object it was given, with the value of the last
      pair whose key equals it. */
  lemma {:induction false} BuildDictContents(kvs: seq<Entry>)
    ensures DistinctKeys(BuildDict(kvs)) && KeysFrom(BuildDict(kvs), kvs)
    ensures HasKeys(BuildDict(kvs), kvs) && LastValues(BuildDict(kvs), kvs)
    decreases |kvs|
  {
    if |kvs| > 0 {
      var init, e := kvs[..|kvs| - 1], kvs[|kvs| - 1];
      var r := BuildDict(init);
      BuildDictContents(init);
      assert kvs == init + [e];
      assert BuildDict(kvs) == DictSet(r, e.key, e.val);
      match FindKey(r, e.key)
      case None => AppendPair(init, r, e);
      case Some(p) => ReplaceValue(init, r, e, p);
    }
  }

  /** An element whose result must be hashable: TypeError otherwise. */
  function MustHash(r: Result<Value, Exc>): Result<Value, Exc> {
    if r.Success? && !Hashable(r.value) then Failure(TypeError) else r
  }

  /** The Enum constructor `E(value)`: a member of E itself, or the first member whose
      value equals `value`; ValueError otherwise. */
  function EnumLookup(cls: string, members: seq<Value>, v: Value): (r: Result<Value, Exc>)
    ensures r.Success? ==> r.value.VEnum? && r.value.cls == cls && r.value.value in members
    ensures r.Failure? ==> r.error == ValueError
    ensures v.VEnum? && v.cls == cls && v.value in members ==> r == Success(v)
    ensures !(v.VEnum? && v.cls == cls && v.value in members) ==> (r.Success? <==> InValues(v, members))
    ensures !(v.VEnum? && v.cls == cls && v.value in members) && r.Success? ==>
      exists i | 0 <= i < |members| :: r.value == VEnum(cls, members[i]) && PyEq(v, members[i])
        && forall j | 0 <= j < i :: !PyEq(v, members[j])
  {
    if v.VEnum? && v.cls == cls && v.value in members then Success(v)
    else match FirstEq(members, v)
      case Some(i) => Success(VEnum(cls, members[i]))
      case None => Failure(ValueError)
  }

  /** The first position of a value equal to `v`. */
  function FirstEq(values: seq<Value>, v: Value): (r: Option<nat>)
    ensures r.Some? ==> r.value < |values| && PyEq(v, values[r.value])
                        && forall j | 0 <= j < r.value :: !PyEq(v, values[j])
    ensures r.None? <==> !InValues(v, values)
  {
    if |values| == 0 then None
    else if PyEq(v, values[0]) then Some(0)
    else match FirstEq(values[1..], v)
      case Some(j) => Some(j + 1)
      case None => None
  }

  // ---------------------------------------------------------------------
  // Running a deserializer.

  function DSize(d: Deser): (n: nat)
    ensures n >= 1
  {
    match d
    case DNullable(x) => 1 + DSize(x)
    case DList(x) => 1 + DSize(x)
    case DTuple(ds) => 1 + DSizes(ds)
    case DHomTuple(x) => 1 + DSize(x)
    case DSet(x) => 1 + DSize(x)
    case DDict(k, x) => 1 + DSize(k) + DSize(x)
    case DDictValues(x) => 1 + DSize(x)
    case DUnion(ds) => 1 + DSizes(ds)
    case DInline(c) => 1 + FSizes(c.fields)
    case _ => 1
  }

  function DSizes(ds: seq<Deser>): (n: nat)
    ensures forall i | 0 <= i < |ds| :: DSize(ds[i]) < n
  {
    if |ds| == 0 then 0 else DSize(ds[0]) + DSizes(ds[1..]) + 1
  }

  function FSizes(fs: seq<FieldDeser>): (n: nat)
    ensures forall i | 0 <= i < |fs| :: DSize(fs[i].deser) < n
  {
    if |fs| == 0 then 0 else DSize(fs[0].deser) + FSizes(fs[1..]) + 1
  }

  /** The key `name` of a dict's entries (`field in value` / `value[field]`). */
  function FieldValue(entries: seq<Entry>, name: string): Option<Value> {
    match FindKey(entries, VStr(name))
    case Some(k) => Some(entries[k].val)
    case None => None
  }

  /**
   * Calling deserializer `d` on `v`. Closures are looked up in `heap` as they
   * stand at call time, which is how a recursive dataclass reaches itself.
   * A `DRef` outside the heap does not arise (see `RefsIn`); it is a KeyError.
   */
  function Run(heap: seq<Closure>, d: Deser, v: Value): Result<Value, Exc>
    decreases v, 1, DSize(d), 2
  {
    match d
    case DInt => DeserializeInt(v)
    case DFloat => DeserializeFloat(v)
    case DBool => DeserializeBool(v)
    case DStr => DeserializeStr(v)
    case DNone => DeserializeNone(v)
    case DNullable(inner) => if v == VNone then Success(VNone) else Run(heap, inner, v)
    case DList(item) => RunList(heap, item, v)
    case DTuple(ds) => RunTuple(heap, ds, v)
    case DHomTuple(item) => RunHomTuple(heap, item, v)
    case DSet(item) => RunSet(heap, item, v)
    case DDict(kd, vd) => RunDict(heap, kd, vd, v)
    case DDictValues(vd) => RunDictValues(heap, vd, v)
    case DLiteral(values) => RunLiteral(values, v)
    case DUnion(ds) => RunUnion(heap, ds, v)
    case DEnum(cls, members) => EnumLookup(cls, members, v)
    case DRef(id) => if id < |heap| then RunClosure(heap, heap[id], v) else Failure(KeyError)
    case DInline(c) => RunClosure(heap, c, v)
  }

  /** deserialize_list */
  function RunList(heap: seq<Closure>, item: Deser, v: Value): Result<Value, Exc>
    decreases v, 1, DSize(DList(item)), 0
  {
    if !v.VList? then Failure(ValueError)
    else
      var rs := seq(|v.items|, i requires 0 <= i < |v.items| => Run(heap, item, v.items[i]));
      match Collect(rs) case Success(xs) => Success(VList(xs)) case Failure(e) => Failure(e)
  }

  /** deserialize_tuple of get_deserialize_tuple */
  function RunTuple(heap: seq<Closure>, ds: seq<Deser>, v: Value): Result<Value, Exc>
    decreases v, 1, DSize(DTuple(ds)), 0
  {
    if !v.VList? then Failure(ValueError)
    else if |v.items| != |ds| then Failure(ValueError)
    else
      var rs := seq(|ds|, i requires 0 <= i < |ds| => Run(heap, ds[i], v.items[i]));
      match Collect(rs) case Success(xs) => Success(VTuple(xs)) case Failure(e) => Failure(e)
  }

  /** deserialize_tuple of get_deserialize_homogeneous_tuple */
  function RunHomTuple(heap: seq<Closure>, item: Deser, v: Value): Result<Value, Exc>
    decreases v, 1, DSize(DHomTuple(item)), 0
  {
    if !(v.VList? || v.VTuple?) then Failure(ValueError)
    else
      var rs := seq(|v.items|, i requires 0 <= i < |v.items| => Run(heap, item, v.items[i]));
      match Collect(rs) case Success(xs) => Success(VTuple(xs)) case Failure(e) => Failure(e)
  }

  /** deserialize_set */
  function RunSet(heap: seq<Closure>, item: Deser, v: Value): Result<Value, Exc>
    decreases v, 1, DSize(DSet(item)), 0
  {
    if !v.VSet? then Failure(ValueError)
    else
      var rs := seq(|v.items|, i requires 0 <= i < |v.items| => MustHash(Run(heap, item, v.items[i])));
      match Collect(rs) case Success(xs) => Success(VSet(BuildSet(xs))) case Failure(e) => Failure(e)
  }

  /** deserialize_dict of get_deserialize_dict(key, item) */
  function RunDict(heap: seq<Closure>, kd: Deser, vd: Deser, v: Value): Result<Value, Exc>
    decreases v, 1, DSize(DDict(kd, vd)), 1
  {
    if !v.VDict? then Failure(ValueError)
    else match Collect(PairsOf(heap, kd, vd, v)) case Success(kvs) => Success(VDict(BuildDict(kvs))) case Failure(e) => Failure(e)
  }

  /** Each entry with its key and value deserialized: the key's exception first, then the
      value's, then TypeError for an unhashable key. */
  function PairsOf(heap: seq<Closure>, kd: Deser, vd: Deser, v: Value): (rs: seq<Result<Entry, Exc>>)
    requires v.VDict?
    ensures |rs| == |v.entries|
    ensures forall i | 0 <= i < |rs| ::
      rs[i].Success? <==>
        Run(heap, kd, v.entries[i].key).Success? && Run(heap, vd, v.entries[i].val).Success?
        && Hashable(Run(heap, kd, v.entries[i].key).value)
    ensures forall i | 0 <= i < |rs| && rs[i].Success? ::
      rs[i].value == Entry(Run(heap, kd, v.entries[i].key).value, Run(heap, vd, v.entries[i].val).value)
    ensures forall i | 0 <= i < |rs| && rs[i].Failure? ::
      rs[i].error == (if Run(heap, kd, v.entries[i].key).Failure? then Run(heap, kd, v.entries[i].key).error
                      else if Run(heap, vd, v.entries[i].val).Failure? then Run(heap, vd, v.entries[i].val).error
                      else TypeError)
    decreases v, 1, DSize(DDict(kd, vd)), 0
  {
    var es := v.entries;
    seq(|es|, i requires 0 <= i < |es| =>
      match Run(heap, kd, es[i].key)
      case Failure(e) => Failure(e)
      case Success(k) =>
        match Run(heap, vd, es[i].val)
        case Failure(e) => Failure(e)
        case Success(x) => if Hashable(k) then Success(Entry(k, x)) else Failure(TypeError))
  }

  /** deserialize_dict of the one-argument get_deserialize_dict: keys are kept */
  function RunDictValues(heap: seq<Closure>, vd: Deser, v: Value): Result<Value, Exc>
    decreases v, 1, DSize(DDictValues(vd)), 1
  {
    if !v.VDict? then Failure(ValueError)
    else match Collect(ValueResults(heap, vd, v)) case Success(kvs) => Success(VDict(kvs)) case Failure(e) => Failure(e)
  }

  /** Each entry with its value deserialized, or the value's exception. */
  function ValueResults(heap: seq<Closure>, vd: Deser, v: Value): (rs: seq<Result<Entry, Exc>>)
    requires v.VDict?
    ensures |rs| == |v.entries|
    ensures forall i | 0 <= i < |rs| ::
      rs[i] == match Run(heap, vd, v.entries[i].val) case Failure(e) => Failure(e) case Success(x) => Success(Entry(v.entries[i].key, x))
    decreases v, 1, DSize(DDictValues(vd)), 0
  {
    var es := v.entries;
    seq(|es|, i requires 0 <= i < |es| =>
      match Run(heap, vd, es[i].val)
      case Failure(e) => Failure(e)
      case Success(x) => Success(Entry(es[i].key, x)))
  }

  /** deserialize_literal: `value not in valid_values` hashes the value first. */
  function RunLiteral(values: seq<Value>, v: Value): Result<Value, Exc> {
    if !Hashable(v) then Failure(TypeError)
    else if InValues(v, values) then Success(v)
    else Failure(PlainException)
  }

  /** deserialize_n_args: the first member that does not raise ValueError decides. */
  function RunUnion(heap: seq<Closure>, ds: seq<Deser>, v: Value): Result<Value, Exc>
    decreases v, 1, DSize(DUnion(ds)), 1
  {
    FirstNotValueError(MemberResults(heap, ds, v))
  }

  /** What each member of a union makes of the value. */
  function MemberResults(heap: seq<Closure>, ds: seq<Deser>, v: Value): (rs: seq<Result<Value, Exc>>)
    ensures |rs| == |ds| && forall i | 0 <= i < |ds| :: rs[i] == Run(heap, ds[i], v)
    decreases v, 1, DSize(DUnion(ds)), 0
  {
    seq(|ds|, i requires 0 <= i < |ds| => Run(heap, ds[i], v))
  }

  /** One field of a dataclass / TypedDict closure: its value, None when it is absent
      and optional, ValueError when it is absent and required. */
  function RunField(heap: seq<Closure>, f: FieldDeser, v: Value): Result<Option<Value>, Exc>
    requires v.VDict?
    decreases v, 0, 0, 0
  {
    match FindKey(v.entries, VStr(f.name))
    case Some(k) =>
      (match Run(heap, f.deser, v.entries[k].val)
       case Success(x) => Success(Some(x))
       case Failure(e) => Failure(e))
    case None => if f.optional then Success(None) else Failure(ValueError)
  }

  /** The `output` dict the closure's loop builds from the field results, in field order. */
  function Output(fs: seq<FieldDeser>, xs: seq<Option<Value>>): (r: seq<Entry>)
    requires |xs| == |fs|
    ensures |r| <= |fs|
  {
    if |fs| == 0 then []
    else (match xs[0] case Some(x) => [Entry(VStr(fs[0].name), x)] case None => [])
         + Output(fs[1..], xs[1..])
  }

  /** The instance `CLS(**output)` builds: every field in order, with its value from the
      output, else its default; a field with neither is not set. */
  function WithDefaults(fs: seq<FieldDeser>, xs: seq<Option<Value>>, defaults: map<string, Value>): (r: seq<Entry>)
    requires |xs| == |fs|
    ensures |r| <= |fs|
  {
    if |fs| == 0 then []
    else (match xs[0]
          case Some(x) => [Entry(VStr(fs[0].name), x)]
          case None => if fs[0].name in defaults then [Entry(VStr(fs[0].name), defaults[fs[0].name])] else [])
         + WithDefaults(fs[1..], xs[1..], defaults)
  }

  /** Every name of `names` is a key of the output. */
  predicate HasAll(out: seq<Entry>, names: seq<string>) {
    forall i | 0 <= i < |names| :: FindKey(out, VStr(names[i])).Some?
  }

  /** Each field's result, in field order. */
  function FieldResults(heap: seq<Closure>, fs: seq<FieldDeser>, v: Value): (rs: seq<Result<Option<Value>, Exc>>)
    requires v.VDict?
    ensures |rs| == |fs| && forall i | 0 <= i < |fs| :: rs[i] == RunField(heap, fs[i], v)
    decreases v, 0, 1, 0
  {
    seq(|fs|, i requires 0 <= i < |fs| => RunField(heap, fs[i], v))
  }

  /** `CLS(**output)` for a dataclass, `output` for a TypedDict. */
  function Finish(c: Closure, r: Result<seq<Option<Value>>, Exc>): Result<Value, Exc>
    requires r.Success? ==> |r.value| == |c.fields|
  {
    match r
    case Failure(e) => Failure(e)
    case Success(xs) =>
      var out := Output(c.fields, xs);
      match c
      case DataclassClosure(cls, required, defaults, _) =>
        if HasAll(out, required) then Success(VObject(cls, WithDefaults(c.fields, xs, defaults))) else Failure(TypeError)
      case TypedDictClosure(_) => Success(VDict(out))
  }

  function RunClosure(heap: seq<Closure>, c: Closure, v: Value): Result<Value, Exc>
    decreases v, 0, 2, 0
  {
    if !v.VDict? then Failure(ValueError)
    else Finish(c, Collect(FieldResults(heap, c.fields, v)))
  }

  // ---------------------------------------------------------------------
  // Shared pieces of the two derivations.

  /** The `assert all(isinstance(arg, (str, int, float)) ...)` on Literal arguments. */
  predicate IsLiteralArg(v: Value) {
    v.VStr? || v.VInt? || v.VBool? || v.VFloat?
  }

  predicate AllLiteralArgs(values: seq<Value>) {
    forall i | 0 <= i < |values| :: IsLiteralArg(values[i])
  }

  /** `deserialize_args`: the only argument's deserializer; for two arguments one of
      which is None, the other one made nullable (IndexError when both are None);
      otherwise the union of all of them. */
  function CombineArgs(args: seq<TypeAnn>, ds: seq<Deser>): (r: Result<Deser, Exc>)
    requires |args| == |ds| > 0
    ensures |ds| == 1 ==> r == Success(ds[0])
    ensures |ds| == 2 && TNone in args && args != [TNone, TNone] ==>
      r == Success(DNullable(if args[0] != TNone then ds[0] else ds[1]))
    ensures |ds| > 2 || (|ds| == 2 && TNone !in args) ==> r == Success(DUnion(ds))
    ensures r.Failure? <==> args == [TNone, TNone]
  {
    if |ds| == 1 then Success(ds[0])
    else if |ds| == 2 && TNone in args then
      if args[0] != TNone then Success(DNullable(ds[0]))
      else if args[1] != TNone then Success(DNullable(ds[1]))
      else Failure(IndexError)
    else Success(DUnion(ds))
  }

  /** The names of the dataclass fields without a default: `CLS(**output)` needs them. */
  function RequiredNames(fields: seq<DataField>): (r: seq<string>)
    ensures forall n | n in r :: exists i | 0 <= i < |fields| :: fields[i].name == n && !fields[i].hasDefault
    ensures forall i | 0 <= i < |fields| :: !fields[i].hasDefault ==> fields[i].name in r
  {
    if |fields| == 0 then []
    else (if fields[0].hasDefault then [] else [fields[0].name]) + RequiredNames(fields[1..])
  }

  /** The default of each dataclass field that has one, by name. */
  function Defaults(fields: seq<DataField>): (r: map<string, Value>)
    ensures forall i | 0 <= i < |fields| :: fields[i].hasDefault ==> fields[i].name in r
    ensures forall n | n in r :: IsDefaultOf(fields, n, r[n])
  {
    if |fields| == 0 then map[]
    else
      var rest := Defaults(fields[1..]);
      if fields[0].hasDefault && fields[0].name !in rest then rest[fields[0].name := fields[0].default] else rest
  }

  /** `v` is the default of a field named `n`. */
  predicate IsDefaultOf(fields: seq<DataField>, n: string, v: Value) {
    exists i | 0 <= i < |fields| :: fields[i].name == n && fields[i].hasDefault && v == fields[i].default
  }

  // ---------------------------------------------------------------------
  // Closures refer only to the heap they live in.

  predicate RefsIn(d: Deser, n: nat)
    decreases DSize(d)
  {
    match d
    case DNullable(x) => RefsIn(x, n)
    case DList(x) => RefsIn(x, n)
    case DTuple(ds) => forall i | 0 <= i < |ds| :: RefsIn(ds[i], n)
    case DHomTuple(x) => RefsIn(x, n)
    case DSet(x) => RefsIn(x, n)
    case DDict(k, x) => RefsIn(k, n) && RefsIn(x, n)
    case DDictValues(x) => RefsIn(x, n)
    case DUnion(ds) => forall i | 0 <= i < |ds| :: RefsIn(ds[i], n)
    case DRef(id) => id < n
    case DInline(c) => forall i | 0 <= i < |c.fields| :: RefsIn(c.fields[i].deser, n)
    case _ => true
  }

  predicate ClosureRefsIn(c: Closure, n: nat) {
    forall i | 0 <= i < |c.fields| :: RefsIn(c.fields[i].deser, n)
  }

  predicate HeapClosed(heap: seq<Closure>) {
    forall i | 0 <= i < |heap| :: ClosureRefsIn(heap[i], |heap|)
  }

  lemma {:induction false} RefsInMono(d: Deser, n: nat, m: nat)
    requires RefsIn(d, n) && n <= m
    ensures RefsIn(d, m)
    decreases DSize(d)
  {
    match d
    case DNullable(x) => RefsInMono(x, n, m);
    case DList(x) => RefsInMono(x, n, m);
    case DTuple(ds) =>
      forall i | 0 <= i < |ds| ensures RefsIn(ds[i], m) { RefsInMono(ds[i], n, m); }
    case DHomTuple(x) => RefsInMono(x, n, m);
    case DSet(x) => RefsInMono(x, n, m);
    case DDict(k, x) => RefsInMono(k, n, m); RefsInMono(x, n, m);
    case DDictValues(x) => RefsInMono(x, n, m);
    case DUnion(ds) =>
      forall i | 0 <= i < |ds| ensures RefsIn(ds[i], m) { RefsInMono(ds[i], n, m); }
    case DInline(c) =>
      forall i | 0 <= i < |c.fields| ensures RefsIn(c.fields[i].deser, m) {
        assert DSize(c.fields[i].deser) < FSizes(c.fields);
        RefsInMono(c.fields[i].deser, n, m);
      }
    case _ =>
  }

  // ---------------------------------------------------------------------
  // What the combinators do.

  /** The nullable wrapper (and `Optional[X]`): None gives None, anything else is delegated. */
  lemma NullableSpec(heap: seq<Closure>, d: Deser, v: Value)
    ensures Run(heap, DNullable(d), VNone) == Success(VNone)
    ensures v != VNone ==> Run(heap, DNullable(d), v) == Run(heap, d, v)
  {
  }

  /** The list deserializer rejects anything but a list, and otherwise keeps length and
      order. */
  lemma ListSpec(heap: seq<Closure>, d: Deser, v: Value)
    ensures !v.VList? ==> Run(heap, DList(d), v) == Failure(ValueError)
    ensures v.VList? ==>
      (Run(heap, DList(d), v).Success? <==> forall i | 0 <= i < |v.items| :: Run(heap, d, v.items[i]).Success?)
    ensures v.VList? && Run(heap, DList(d), v).Success? ==>
      var out := Run(heap, DList(d), v).value;
      out.VList? && |out.items| == |v.items| &&
      forall i | 0 <= i < |v.items| :: Run(heap, d, v.items[i]) == Success(out.items[i])
  {
    if v.VList? {
      assert Run(heap, DList(d), v) == RunList(heap, d, v);
      var rs := seq(|v.items|, i requires 0 <= i < |v.items| => Run(heap, d, v.items[i]));
      assert RunList(heap, d, v) == (match Collect(rs) case Success(xs) => Success(VList(xs)) case Failure(e) => Failure(e));
      assert forall i | 0 <= i < |v.items| :: rs[i] == Run(heap, d, v.items[i]);
    }
  }

  /** A list the list deserializer fails on raises the first failing item's exception. */
  lemma ListFailureSpec(heap: seq<Closure>, d: Deser, v: Value)
    requires v.VList? && Run(heap, DList(d), v).Failure?
    ensures exists i | 0 <= i < |v.items| ::
      Run(heap, d, v.items[i]) == Failure(Run(heap, DList(d), v).error)
      && forall j | 0 <= j < i :: Run(heap, d, v.items[j]).Success?
  {
    assert Run(heap, DList(d), v) == RunList(heap, d, v);
    var rs := seq(|v.items|, i requires 0 <= i < |v.items| => Run(heap, d, v.items[i]));
    assert RunList(heap, d, v) == Failure(Collect(rs).error);
    assert forall j | 0 <= j < |rs| :: rs[j] == Run(heap, d, v.items[j]);
    var k :| 0 <= k < |rs| && rs[k].Failure? && rs[k].error == Collect(rs).error && forall j | 0 <= j < k :: rs[j].Success?;
    assert Run(heap, d, v.items[k]) == Failure(Run(heap, DList(d), v).error);
  }

  /** The fixed tuple deserializer takes a list of exactly as many items as it has
      deserializers, and the i-th deserializer handles the i-th item. */
  lemma TupleSpec(heap: seq<Closure>, ds: seq<Deser>, v: Value)
    ensures (!v.VList? || |v.items| != |ds|) ==> Run(heap, DTuple(ds), v) == Failure(ValueError)
    ensures v.VList? && |v.items| == |ds| ==>
      (Run(heap, DTuple(ds), v).Success? <==> forall i | 0 <= i < |ds| :: Run(heap, ds[i], v.items[i]).Success?)
    ensures v.VList? && |v.items| == |ds| && Run(heap, DTuple(ds), v).Failure? ==>
      exists i | 0 <= i < |ds| :: Run(heap, ds[i], v.items[i]) == Failure(Run(heap, DTuple(ds), v).error)
        && forall j | 0 <= j < i :: Run(heap, ds[j], v.items[j]).Success?
    ensures Run(heap, DTuple(ds), v).Success? ==>
      var out := Run(heap, DTuple(ds), v).value;
      v.VList? && |v.items| == |ds| && out.VTuple? && |out.items| == |ds| &&
      forall i | 0 <= i < |ds| :: Run(heap, ds[i], v.items[i]) == Success(out.items[i])
  {
    if v.VList? && |v.items| == |ds| {
      var rs := seq(|ds|, i requires 0 <= i < |ds| => Run(heap, ds[i], v.items[i]));
      assert Run(heap, DTuple(ds), v) == (match Collect(rs) case Success(xs) => Success(VTuple(xs)) case Failure(e) => Failure(e));
      assert forall i | 0 <= i < |ds| :: rs[i] == Run(heap, ds[i], v.items[i]);
      if Collect(rs).Failure? {
        var k :| 0 <= k < |rs| && rs[k].Failure? && rs[k].error == Collect(rs).error && forall j | 0 <= j < k :: rs[j].Success?;
        assert Run(heap, ds[k], v.items[k]) == Failure(Run(heap, DTuple(ds), v).error);
      }
    }
  }

  /** The homogeneous tuple deserializer takes a list or a tuple of any length and keeps
      length and order. */
  lemma HomTupleSpec(heap: seq<Closure>, d: Deser, v: Value)
    ensures !(v.VList? || v.VTuple?) ==> Run(heap, DHomTuple(d), v) == Failure(ValueError)
    ensures (v.VList? || v.VTuple?) ==>
      (Run(heap, DHomTuple(d), v).Success? <==> forall i | 0 <= i < |v.items| :: Run(heap, d, v.items[i]).Success?)
    ensures Run(heap, DHomTuple(d), v).Success? ==>
      var out := Run(heap, DHomTuple(d), v).value;
      out.VTuple? && |out.items| == |v.items| &&
      forall i | 0 <= i < |v.items| :: Run(heap, d, v.items[i]) == Success(out.items[i])
  {
    assert Run(heap, DHomTuple(d), v) == RunHomTuple(heap, d, v);
    if v.VList? || v.VTuple? {
      var rs := seq(|v.items|, i requires 0 <= i < |v.items| => Run(heap, d, v.items[i]));
      assert RunHomTuple(heap, d, v) == (match Collect(rs) case Success(xs) => Success(VTuple(xs)) case Failure(e) => Failure(e));
      assert forall i | 0 <= i < |v.items| :: rs[i] == Run(heap, d, v.items[i]);
    }
  }

  /** A list or tuple the homogeneous tuple deserializer fails on raises the first failing
      item's exception. */
  lemma HomTupleFailureSpec(heap: seq<Closure>, d: Deser, v: Value)
    requires (v.VList? || v.VTuple?) && Run(heap, DHomTuple(d), v).Failure?
    ensures exists i | 0 <= i < |v.items| ::
      Run(heap, d, v.items[i]) == Failure(Run(heap, DHomTuple(d), v).error)
      && forall j | 0 <= j < i :: Run(heap, d, v.items[j]).Success?
  {
    assert Run(heap, DHomTuple(d), v) == RunHomTuple(heap, d, v);
    var rs := seq(|v.items|, i requires 0 <= i < |v.items| => Run(heap, d, v.items[i]));
    assert RunHomTuple(heap, d, v) == Failure(Collect(rs).error);
    assert forall j | 0 <= j < |rs| :: rs[j] == Run(heap, d, v.items[j]);
    var k :| 0 <= k < |rs| && rs[k].Failure? && rs[k].error == Collect(rs).error && forall j | 0 <= j < k :: rs[j].Success?;
    assert Run(heap, d, v.items[k]) == Failure(Run(heap, DHomTuple(d), v).error);
  }

  /** The set deserializer rejects anything but a set; a set succeeds iff every item
      deserializes to a hashable value. */
  lemma SetSpec(heap: seq<Closure>, d: Deser, v: Value)
    ensures !v.VSet? ==> Run(heap, DSet(d), v) == Failure(ValueError)
    ensures v.VSet? ==>
      (Run(heap, DSet(d), v).Success? <==>
       forall i | 0 <= i < |v.items| :: Run(heap, d, v.items[i]).Success? && Hashable(Run(heap, d, v.items[i]).value))
    ensures Run(heap, DSet(d), v).Success? ==>
      var out := Run(heap, DSet(d), v).value;
      out.VSet? && |out.items| <= |v.items|
  {
    assert Run(heap, DSet(d), v) == RunSet(heap, d, v);
    if v.VSet? {
      var rs := seq(|v.items|, i requires 0 <= i < |v.items| => MustHash(Run(heap, d, v.items[i])));
      assert RunSet(heap, d, v) == (match Collect(rs) case Success(xs) => Success(VSet(BuildSet(xs))) case Failure(e) => Failure(e));
      forall i | 0 <= i < |v.items|
        ensures rs[i].Success? <==> Run(heap, d, v.items[i]).Success? && Hashable(Run(heap, d, v.items[i]).value)
      {
      }
    }
  }

  /** A set that fails to deserialize raises for the first item that fails: its
      exception, or TypeError for an unhashable result. */
  lemma SetFailureSpec(heap: seq<Closure>, d: Deser, v: Value)
    requires v.VSet? && Run(heap, DSet(d), v).Failure?
    ensures exists i | 0 <= i < |v.items| ::
      MustHash(Run(heap, d, v.items[i])) == Failure(Run(heap, DSet(d), v).error)
      && forall j | 0 <= j < i :: MustHash(Run(heap, d, v.items[j])).Success?
  {
    assert Run(heap, DSet(d), v) == RunSet(heap, d, v);
    var rs := seq(|v.items|, i requires 0 <= i < |v.items| => MustHash(Run(heap, d, v.items[i])));
    assert RunSet(heap, d, v) == Failure(Collect(rs).error);
    assert forall j | 0 <= j < |rs| :: rs[j] == MustHash(Run(heap, d, v.items[j]));
    var k :| 0 <= k < |rs| && rs[k].Failure? && rs[k].error == Collect(rs).error && forall j | 0 <= j < k :: rs[j].Success?;
    assert MustHash(Run(heap, d, v.items[k])) == Failure(Run(heap, DSet(d), v).error);
  }

  /** A deserialized set is the set of the deserialized items: no two items equal, each
      item a deserialized value, and every deserialized value present up to equality. */
  lemma SetContentsSpec(heap: seq<Closure>, d: Deser, v: Value)
    requires Run(heap, DSet(d), v).Success?
    ensures v.VSet? && Run(heap, DSet(d), v).value.VSet?
    ensures forall i | 0 <= i < |v.items| :: Run(heap, d, v.items[i]).Success? && Hashable(Run(heap, d, v.items[i]).value)
    ensures var out := Run(heap, DSet(d), v).value.items;
      var xs := seq(|v.items|, i requires 0 <= i < |v.items| => Run(heap, d, v.items[i]).value);
      DistinctItems(out) && ItemsFrom(out, xs) && Covers(out, xs)
  {
    assert Run(heap, DSet(d), v) == RunSet(heap, d, v);
    var rs := seq(|v.items|, i requires 0 <= i < |v.items| => MustHash(Run(heap, d, v.items[i])));
    assert Collect(rs).Success?;
    forall i | 0 <= i < |v.items| ensures Run(heap, d, v.items[i]) == rs[i] && rs[i].Success? && Hashable(rs[i].value) {
    }
    var xs := seq(|v.items|, i requires 0 <= i < |v.items| => Run(heap, d, v.items[i]).value);
    assert Collect(rs).value == xs;
    assert RunSet(heap, d, v) == Success(VSet(BuildSet(xs)));
    BuildSetContents(xs);
  }

  /** The two-argument dict deserializer rejects anything but a dict; a dict succeeds iff
      every key and value deserializes and every key result is hashable. */
  lemma DictSpec(heap: seq<Closure>, kd: Deser, vd: Deser, v: Value)
    ensures !v.VDict? ==> Run(heap, DDict(kd, vd), v) == Failure(ValueError)
    ensures v.VDict? ==>
      (Run(heap, DDict(kd, vd), v).Success? <==>
       forall i | 0 <= i < |v.entries| ::
         Run(heap, kd, v.entries[i].key).Success? && Run(heap, vd, v.entries[i].val).Success?
         && Hashable(Run(heap, kd, v.entries[i].key).value))
    ensures Run(heap, DDict(kd, vd), v).Success? ==>
      var out := Run(heap, DDict(kd, vd), v).value;
      out.VDict? && |out.entries| <= |v.entries|
  {
    assert Run(heap, DDict(kd, vd), v) == RunDict(heap, kd, vd, v);
    if v.VDict? {
      var rs := PairsOf(heap, kd, vd, v);
      assert RunDict(heap, kd, vd, v).Success? <==> Collect(rs).Success?;
    }
  }

  /** A dict that fails to deserialize raises for the first entry that fails, with the
      exception `PairsOf` gives it: its key's, else its value's, else TypeError for an
      unhashable key. */
  lemma DictFailureSpec(heap: seq<Closure>, kd: Deser, vd: Deser, v: Value)
    requires v.VDict? && Run(heap, DDict(kd, vd), v).Failure?
    ensures exists i | 0 <= i < |v.entries| ::
      PairsOf(heap, kd, vd, v)[i] == Failure(Run(heap, DDict(kd, vd), v).error)
      && forall j | 0 <= j < i :: PairsOf(heap, kd, vd, v)[j].Success?
  {
    assert Run(heap, DDict(kd, vd), v) == RunDict(heap, kd, vd, v);
    var rs := PairsOf(heap, kd, vd, v);
    assert RunDict(heap, kd, vd, v) == Failure(Collect(rs).error);
  }

  /** A deserialized dict is the dict of the deserialized pairs: no two keys equal, each
      key a deserialized key object, every deserialized key present, and each value that
      of the last pair whose key equals it. */
  lemma DictContentsSpec(heap: seq<Closure>, kd: Deser, vd: Deser, v: Value)
    requires Run(heap, DDict(kd, vd), v).Success?
    ensures v.VDict? && Run(heap, DDict(kd, vd), v).value.VDict?
    ensures forall i | 0 <= i < |v.entries| ::
      Run(heap, kd, v.entries[i].key).Success? && Run(heap, vd, v.entries[i].val).Success?
    ensures var out := Run(heap, DDict(kd, vd), v).value.entries;
      var kvs := seq(|v.entries|, i requires 0 <= i < |v.entries| =>
        Entry(Run(heap, kd, v.entries[i].key).value, Run(heap, vd, v.entries[i].val).value));
      DistinctKeys(out) && KeysFrom(out, kvs) && HasKeys(out, kvs) && LastValues(out, kvs)
  {
    assert Run(heap, DDict(kd, vd), v) == RunDict(heap, kd, vd, v);
    var rs := PairsOf(heap, kd, vd, v);
    var kvs := seq(|v.entries|, i requires 0 <= i < |v.entries| =>
      Entry(Run(heap, kd, v.entries[i].key).value, Run(heap, vd, v.entries[i].val).value));
    assert Collect(rs).value == kvs;
    assert RunDict(heap, kd, vd, v) == Success(VDict(BuildDict(kvs)));
    BuildDictContents(kvs);
  }

  /** The one-argument dict deserializer keeps every key, in order, and deserializes
      every value; the first value that fails decides the exception. */
  lemma DictValuesSpec(heap: seq<Closure>, vd: Deser, v: Value)
    ensures !v.VDict? ==> Run(heap, DDictValues(vd), v) == Failure(ValueError)
    ensures v.VDict? ==>
      (Run(heap, DDictValues(vd), v).Success? <==> forall i | 0 <= i < |v.entries| :: Run(heap, vd, v.entries[i].val).Success?)
    ensures Run(heap, DDictValues(vd), v).Success? ==>
      var out := Run(heap, DDictValues(vd), v).value;
      v.VDict? && out.VDict? && |out.entries| == |v.entries| &&
      forall i | 0 <= i < |v.entries| ::
        out.entries[i].key == v.entries[i].key && Run(heap, vd, v.entries[i].val) == Success(out.entries[i].val)
  {
    if v.VDict? {
      var rs := ValueResults(heap, vd, v);
      assert Run(heap, DDictValues(vd), v) == (match Collect(rs) case Success(kvs) => Success(VDict(kvs)) case Failure(e) => Failure(e));
      if Collect(rs).Success? {
        forall i | 0 <= i < |v.entries|
          ensures Collect(rs).value[i].key == v.entries[i].key
          ensures Run(heap, vd, v.entries[i].val) == Success(Collect(rs).value[i].val)
        {
          assert rs[i].Success?;
        }
      }
    }
  }

  /** A reference runs the closure the heap holds at call time; a dangling reference is a
      KeyError. */
  lemma ClosureRefSpec(heap: seq<Closure>, id: nat, v: Value)
    ensures id < |heap| ==> Run(heap, DRef(id), v) == RunClosure(heap, heap[id], v)
    ensures id >= |heap| ==> Run(heap, DRef(id), v) == Failure(KeyError)
  {
  }

  /** An inline closure runs itself. */
  lemma ClosureInlineSpec(heap: seq<Closure>, c: Closure, v: Value)
    ensures Run(heap, DInline(c), v) == RunClosure(heap, c, v)
  {
  }

  /** The Literal deserializer accepts exactly the declared values (by ==) and returns the
      value unchanged; an unhashable value is a TypeError, any other a plain Exception. */
  lemma LiteralSpec(heap: seq<Closure>, values: seq<Value>, v: Value)
    ensures Run(heap, DLiteral(values), v).Success? <==> Hashable(v) && InValues(v, values)
    ensures Run(heap, DLiteral(values), v).Success? ==> Run(heap, DLiteral(values), v).value == v
    ensures Hashable(v) && !InValues(v, values) ==> Run(heap, DLiteral(values), v) == Failure(PlainException)
  {
  }

  /** A union returns its first member's success, falling through only on ValueError,
      and raises ValueError if every member did. */
  lemma UnionSpec(heap: seq<Closure>, ds: seq<Deser>, v: Value)
    ensures Run(heap, DUnion(ds), v) == Failure(ValueError)
            <==> forall i | 0 <= i < |ds| :: Run(heap, ds[i], v) == Failure(ValueError)
    ensures Run(heap, DUnion(ds), v).Success? ==>
      exists i | 0 <= i < |ds| :: Run(heap, ds[i], v) == Run(heap, DUnion(ds), v)
        && forall j | 0 <= j < i :: Run(heap, ds[j], v) == Failure(ValueError)
  {
    assert Run(heap, DUnion(ds), v) == FirstNotValueError(MemberResults(heap, ds, v));
  }

  lemma IntOfFive(heap: seq<Closure>)
    ensures Run(heap, DInt, VStr("5")) == Success(VInt(5))
  {
    assert ParseInt("5") == Some(5) by {
      assert Strip("5") == "5";
      assert DigitsValue("5") == DigitsValue("") * 10 + 5;
    }
  }

  /** A Literal member that rejects a value aborts the union, even when a later member
      would accept the value: `Union[Literal["a"], int]` on "5". */
  lemma LiteralAbortsUnion(heap: seq<Closure>)
    ensures Run(heap, DInt, VStr("5")) == Success(VInt(5))
    ensures Run(heap, DUnion([DLiteral([VStr("a")]), DInt]), VStr("5")) == Failure(PlainException)
  {
    IntOfFive(heap);
    var ds := [DLiteral([VStr("a")]), DInt];
    var rs := MemberResults(heap, ds, VStr("5"));
    assert !InValues(VStr("5"), [VStr("a")]);
    assert Run(heap, DLiteral([VStr("a")]), VStr("5")) == Failure(PlainException);
    assert rs[0] == Failure(PlainException);
    assert Run(heap, DUnion(ds), VStr("5")) == FirstNotValueError(rs);
    assert FirstNotValueError(rs) == rs[0];
  }

  /** The output dict holds a field's entry exactly when its result is a value. */
  lemma {:induction false} OutputKeys(fs: seq<FieldDeser>, xs: seq<Option<Value>>, name: string)
    requires |xs| == |fs|
    requires forall i, j | 0 <= i < j < |fs| :: fs[i].name != fs[j].name
    ensures FindKey(Output(fs, xs), VStr(name)).Some?
            <==> exists i | 0 <= i < |fs| :: fs[i].name == name && xs[i].Some?
  {
    if |fs| > 0 {
      OutputKeys(fs[1..], xs[1..], name);
      var head: seq<Entry> := match xs[0] case Some(x) => [Entry(VStr(fs[0].name), x)] case None => [];
      var rest := Output(fs[1..], xs[1..]);
      assert Output(fs, xs) == head + rest;
      FindKeyAppend(head, rest, VStr(name));
      if exists i | 0 <= i < |fs| :: fs[i].name == name && xs[i].Some? {
        var i :| 0 <= i < |fs| && fs[i].name == name && xs[i].Some?;
        if i > 0 {
          assert fs[1..][i - 1].name == name && xs[1..][i - 1].Some?;
        }
      }
      if exists i | 0 <= i < |fs[1..]| :: fs[1..][i].name == name && xs[1..][i].Some? {
        var i :| 0 <= i < |fs[1..]| && fs[1..][i].name == name && xs[1..][i].Some?;
        assert fs[i + 1].name == name && xs[i + 1].Some?;
      }
    }
  }

  lemma FindKeyAppend(a: seq<Entry>, b: seq<Entry>, k: Value)
    ensures FindKey(a + b, k).Some? <==> FindKey(a, k).Some? || FindKey(b, k).Some?
  {
    var ab := a + b;
    if FindKey(b, k).Some? {
      var j := FindKey(b, k).value;
      assert ab[|a| + j] == b[j];
    }
    if FindKey(a, k).Some? {
      var j := FindKey(a, k).value;
      assert ab[j] == a[j];
    }
    if FindKey(ab, k).Some? {
      var j := FindKey(ab, k).value;
      if j < |a| { assert ab[j] == a[j]; } else { assert ab[j] == b[j - |a|]; }
    }
  }

  /** A name that is no field's is not set on the instance. */
  lemma {:induction false} WithDefaultsAbsent(fs: seq<FieldDeser>, xs: seq<Option<Value>>, defaults: map<string, Value>, n: string)
    requires |xs| == |fs| && forall j | 0 <= j < |fs| :: fs[j].name != n
    ensures FindKey(WithDefaults(fs, xs, defaults), VStr(n)).None?
    decreases |fs|
  {
    if |fs| > 0 {
      WithDefaultsAbsent(fs[1..], xs[1..], defaults, n);
      var f := fs[0];
      var head: seq<Entry> := match xs[0]
        case Some(x) => [Entry(VStr(f.name), x)]
        case None => if f.name in defaults then [Entry(VStr(f.name), defaults[f.name])] else [];
      assert WithDefaults(fs, xs, defaults) == head + WithDefaults(fs[1..], xs[1..], defaults);
      FindKeyAppend(head, WithDefaults(fs[1..], xs[1..], defaults), VStr(n));
    }
  }

  /** Looking a key up in `[e] + rest`: `e` if it matches, else one past its position in `rest`. */
  lemma FindKeyCons(e: Entry, rest: seq<Entry>, k: Value)
    ensures PyEq(e.key, k) ==> FindKey([e] + rest, k) == Some(0)
    ensures !PyEq(e.key, k) ==>
      FindKey([e] + rest, k) == match FindKey(rest, k) case Some(j) => Some(j + 1) case None => None
  {
    assert ([e] + rest)[0] == e && ([e] + rest)[1..] == rest;
  }

  /** The first field: held exactly when it got a value or has a default. */
  lemma WithDefaultsFirst(fs: seq<FieldDeser>, xs: seq<Option<Value>>, defaults: map<string, Value>)
    requires |xs| == |fs| && 0 < |fs|
    requires forall j | 1 <= j < |fs| :: fs[j].name != fs[0].name
    ensures FindKey(WithDefaults(fs, xs, defaults), VStr(fs[0].name)).Some? <==> xs[0].Some? || fs[0].name in defaults
    ensures FindKey(WithDefaults(fs, xs, defaults), VStr(fs[0].name)).Some? ==>
      var w := WithDefaults(fs, xs, defaults);
      w[FindKey(w, VStr(fs[0].name)).value].val == match xs[0] case Some(x) => x case None => defaults[fs[0].name]
  {
    var rest := WithDefaults(fs[1..], xs[1..], defaults);
    if xs[0].None? && fs[0].name !in defaults {
      assert WithDefaults(fs, xs, defaults) == rest;
      WithDefaultsAbsent(fs[1..], xs[1..], defaults, fs[0].name);
    } else {
      var e := Entry(VStr(fs[0].name), if xs[0].Some? then xs[0].value else defaults[fs[0].name]);
      assert WithDefaults(fs, xs, defaults) == [e] + rest;
      FindKeyCons(e, rest, VStr(fs[0].name));
    }
  }

  /** A key other than the first field's name is found in the instance as in the other fields'. */
  lemma WithDefaultsTail(fs: seq<FieldDeser>, xs: seq<Option<Value>>, defaults: map<string, Value>, n: string)
    requires |xs| == |fs| && 0 < |fs| && fs[0].name != n
    ensures var w, rest := WithDefaults(fs, xs, defaults), WithDefaults(fs[1..], xs[1..], defaults);
      (FindKey(w, VStr(n)).Some? <==> FindKey(rest, VStr(n)).Some?) &&
      (FindKey(w, VStr(n)).Some? ==> w[FindKey(w, VStr(n)).value] == rest[FindKey(rest, VStr(n)).value])
  {
    var rest := WithDefaults(fs[1..], xs[1..], defaults);
    var w := WithDefaults(fs, xs, defaults);
    if xs[0].None? && fs[0].name !in defaults {
      assert w == rest;
    } else {
      var e := Entry(VStr(fs[0].name), if xs[0].Some? then xs[0].value else defaults[fs[0].name]);
      assert w == [e] + rest;
      FindKeyCons(e, rest, VStr(n));
      match FindKey(rest, VStr(n))
      case Some(j) => assert w[j + 1] == rest[j];
      case None =>
    }
  }

  /** The instance holds field `i` exactly when it got a value or has a default, and then
      holds that value, else the default. */
  lemma {:induction false} WithDefaultsAt(fs: seq<FieldDeser>, xs: seq<Option<Value>>, defaults: map<string, Value>, i: nat)
    requires |xs| == |fs| && i < |fs|
    requires forall j, k | 0 <= j < k < |fs| :: fs[j].name != fs[k].name
    ensures FindKey(WithDefaults(fs, xs, defaults), VStr(fs[i].name)).Some? <==> xs[i].Some? || fs[i].name in defaults
    ensures FindKey(WithDefaults(fs, xs, defaults), VStr(fs[i].name)).Some? ==>
      var w := WithDefaults(fs, xs, defaults);
      w[FindKey(w, VStr(fs[i].name)).value].val == match xs[i] case Some(x) => x case None => defaults[fs[i].name]
    decreases i
  {
    if i == 0 {
      WithDefaultsFirst(fs, xs, defaults);
    } else {
      WithDefaultsAt(fs[1..], xs[1..], defaults, i - 1);
      assert fs[1..][i - 1] == fs[i] && xs[1..][i - 1] == xs[i];
      WithDefaultsTail(fs, xs, defaults, fs[i].name);
    }
  }

  /** The dataclass closure: a non-dict is a ValueError; a field that is absent and not
      optional is a ValueError; one that is absent and optional is left out of the
      constructor's arguments; one that is present is deserialized. The instance
      `CLS(**output)` holds each field's value, else its default. */
  lemma DataclassClosureSpec(heap: seq<Closure>, cls: string, required: seq<string>, defaults: map<string, Value>,
                             fs: seq<FieldDeser>, v: Value)
    requires forall i, j | 0 <= i < j < |fs| :: fs[i].name != fs[j].name
    ensures !v.VDict? ==> RunClosure(heap, DataclassClosure(cls, required, defaults, fs), v) == Failure(ValueError)
    ensures v.VDict? && (forall i | 0 <= i < |fs| :: RunField(heap, fs[i], v).Success?) ==>
      var xs := seq(|fs|, i requires 0 <= i < |fs| && RunField(heap, fs[i], v).Success? => RunField(heap, fs[i], v).value);
      RunClosure(heap, DataclassClosure(cls, required, defaults, fs), v)
        == if HasAll(Output(fs, xs), required) then Success(VObject(cls, WithDefaults(fs, xs, defaults))) else Failure(TypeError)
    ensures v.VDict? ==> forall i | 0 <= i < |fs| ::
      FindKey(v.entries, VStr(fs[i].name)).None? ==>
        RunField(heap, fs[i], v) == (if fs[i].optional then Success(None) else Failure(ValueError))
    ensures v.VDict? ==> forall i | 0 <= i < |fs| ::
      FindKey(v.entries, VStr(fs[i].name)).None? && !fs[i].optional && (forall j | 0 <= j < i :: RunField(heap, fs[j], v).Success?) ==>
        RunClosure(heap, DataclassClosure(cls, required, defaults, fs), v) == Failure(ValueError)
    ensures v.VDict? && RunClosure(heap, DataclassClosure(cls, required, defaults, fs), v).Success? ==>
      var out := RunClosure(heap, DataclassClosure(cls, required, defaults, fs), v).value;
      out.VObject? && out.cls == cls &&
      forall i | 0 <= i < |fs| ::
        (FindKey(out.attrs, VStr(fs[i].name)).Some? <==> FindKey(v.entries, VStr(fs[i].name)).Some? || fs[i].name in defaults)
  {
    if v.VDict? {
      var c := DataclassClosure(cls, required, defaults, fs);
      var rs := FieldResults(heap, fs, v);
      assert c.fields == fs;
      if Collect(rs).Success? {
        var xs := Collect(rs).value;
        assert xs == seq(|fs|, i requires 0 <= i < |fs| && RunField(heap, fs[i], v).Success? => RunField(heap, fs[i], v).value);
        forall i | 0 <= i < |fs|
          ensures FindKey(WithDefaults(fs, xs, defaults), VStr(fs[i].name)).Some?
                  <==> FindKey(v.entries, VStr(fs[i].name)).Some? || fs[i].name in defaults
        {
          WithDefaultsAt(fs, xs, defaults, i);
          assert xs[i].Some? <==> FindKey(v.entries, VStr(fs[i].name)).Some?;
        }
      }
      forall i | 0 <= i < |fs| &&
        FindKey(v.entries, VStr(fs[i].name)).None? && !fs[i].optional && (forall j | 0 <= j < i :: RunField(heap, fs[j], v).Success?)
        ensures RunClosure(heap, c, v) == Failure(ValueError)
      {
        assert rs[i] == Failure(ValueError);
        var k :| 0 <= k < |rs| && rs[k].Failure? && rs[k].error == Collect(rs).error && forall j | 0 <= j < k :: rs[j].Success?;
        assert k == i;
      }
    }
  }

  /** A dataclass instance holds, for each field, the deserialized value when the field
      was given, else the field's default. */
  lemma DataclassInstanceSpec(heap: seq<Closure>, cls: string, required: seq<string>, defaults: map<string, Value>,
                              fs: seq<FieldDeser>, v: Value, i: nat)
    requires forall j, k | 0 <= j < k < |fs| :: fs[j].name != fs[k].name
    requires v.VDict? && RunClosure(heap, DataclassClosure(cls, required, defaults, fs), v).Success? && i < |fs|
    requires FindKey(v.entries, VStr(fs[i].name)).Some? || fs[i].name in defaults
    ensures var attrs := RunClosure(heap, DataclassClosure(cls, required, defaults, fs), v).value.attrs;
      RunField(heap, fs[i], v).Success? && FindKey(attrs, VStr(fs[i].name)).Some? &&
      attrs[FindKey(attrs, VStr(fs[i].name)).value].val ==
        match RunField(heap, fs[i], v).value case Some(x) => x case None => defaults[fs[i].name]
  {
    var c := DataclassClosure(cls, required, defaults, fs);
    var rs := FieldResults(heap, fs, v);
    assert c.fields == fs;
    var xs := Collect(rs).value;
    assert RunClosure(heap, c, v) == Success(VObject(cls, WithDefaults(fs, xs, defaults)));
    assert rs[i] == RunField(heap, fs[i], v) && xs[i] == rs[i].value;
    WithDefaultsAt(fs, xs, defaults, i);
  }

  /** The TypedDict closure: a non-dict or an absent annotated key is a ValueError. */
  lemma TypedDictClosureSpec(heap: seq<Closure>, fs: seq<FieldDeser>, v: Value)
    requires forall i | 0 <= i < |fs| :: !fs[i].optional
    ensures !v.VDict? ==> RunClosure(heap, TypedDictClosure(fs), v) == Failure(ValueError)
    ensures v.VDict? && (exists i | 0 <= i < |fs| :: FindKey(v.entries, VStr(fs[i].name)).None?) ==>
      RunClosure(heap, TypedDictClosure(fs), v).Failure?
    ensures RunClosure(heap, TypedDictClosure(fs), v).Success?
            <==> v.VDict? && forall i | 0 <= i < |fs| :: RunField(heap, fs[i], v).Success?
    ensures RunClosure(heap, TypedDictClosure(fs), v).Success? ==>
      var out := RunClosure(heap, TypedDictClosure(fs), v).value;
      out.VDict? && |out.entries| == |fs| &&
      forall i | 0 <= i < |fs| :: out.entries[i].key == VStr(fs[i].name)
        && FieldValue(v.entries, fs[i].name).Some?
        && Run(heap, fs[i].deser, FieldValue(v.entries, fs[i].name).value) == Success(out.entries[i].val)
  {
    if v.VDict? {
      var rs := FieldResults(heap, fs, v);
      assert TypedDictClosure(fs).fields == fs;
      if exists i | 0 <= i < |fs| :: FindKey(v.entries, VStr(fs[i].name)).None? {
        var i :| 0 <= i < |fs| && FindKey(v.entries, VStr(fs[i].name)).None?;
        assert rs[i].Failure?;
      }
      if Collect(rs).Success? {
        var xs := Collect(rs).value;
        forall i | 0 <= i < |fs| ensures xs[i].Some? {
          assert rs[i].Success?;
        }
        OutputAllSome(fs, xs);
      }
    }
  }

  /** When every field has a value, the output holds one entry per field, in order. */
  lemma {:induction false} OutputAllSome(fs: seq<FieldDeser>, xs: seq<Option<Value>>)
    requires |xs| == |fs| && forall i | 0 <= i < |xs| :: xs[i].Some?
    ensures |Output(fs, xs)| == |fs|
    ensures forall i | 0 <= i < |fs| :: Output(fs, xs)[i] == Entry(VStr(fs[i].name), xs[i].value)
  {
    if |fs| > 0 {
      OutputAllSome(fs[1..], xs[1..]);
      assert Output(fs, xs) == [Entry(VStr(fs[0].name), xs[0].value)] + Output(fs[1..], xs[1..]);
    }
  }
}
