/**
 * The Python objects the backend generator works on: JSON-like runtime values,
 * type annotations (the argument of `get_deserializer_from_type` and
 * `get_serializer_from_type`), the classes those annotations name, and the
 * exceptions the generated code raises.
 */
module Py {
  import opened Wrappers

  /** A Python runtime value as it reaches a deserializer or a serializer. */
  datatype Value =
    | VNone
    | VBool(b: bool)
    | VInt(i: int)
    | VFloat(r: real)                        // a finite float, by its exact value
    | VStr(s: string)
    | VList(items: seq<Value>)
    | VTuple(items: seq<Value>)
    | VSet(items: seq<Value>)                // elements in iteration order, no two equal
    | VDict(entries: seq<Entry>)             // insertion order, keys distinct
    | VObject(cls: string, attrs: seq<Entry>) // an instance of a (data)class: its attributes
    | VEnum(cls: string, value: Value)       // an enum member, known by its `.value`
    | VDatetime(millis: int)                 // a datetime, by its POSIX timestamp in milliseconds

  datatype Entry = Entry(key: Value, val: Value)

  /** A type annotation. `TGeneric(o, [])` is a bare alias such as `List`. */
  datatype TypeAnn =
    | TStr | TInt | TFloat | TBool | TNone
    | TDatetime                              // datetime.datetime
    | TClass(name: string)                   // a class, described by the ClassTable
    | TLiteral(values: seq<Value>)           // Literal[v1, ..., vn]
    | TGeneric(origin: Origin, args: seq<TypeAnn>)
    | TEllipsis                              // the `...` of Tuple[X, ...]

  datatype Origin = OList | OSet | OTuple | ODict | OUnion | OOther(name: string)

  /** What a class name stands for. */
  datatype ClassDef =
    | Dataclass(fields: seq<DataField>)
    | TypedDict(total: bool, annotations: seq<Annotation>)
    | EnumClass(members: seq<Value>)         // the members' values, in definition order
    | PlainClass

  /** A dataclass field; `hasDefault` is true when it has a default or a default factory,
      and `default` is then the value the constructor gives the field when it is not
      passed (the default, or what the factory returns). */
  datatype DataField = DataField(name: string, ann: TypeAnn, hasDefault: bool, default: Value)

  datatype Annotation = Annotation(name: string, ann: TypeAnn)

  type ClassTable = map<string, ClassDef>

  /** What a class name stands for; a name the table does not describe is a plain class. */
  function ClassOf(classes: ClassTable, name: string): ClassDef {
    if name in classes then classes[name] else PlainClass
  }

  /** The size of an annotation, for termination of the recursive derivations. */
  function TSize(t: TypeAnn): (n: nat)
    ensures n >= 1
  {
    match t
    case TGeneric(_, args) => 1 + TSizes(args)
    case _ => 1
  }

  function TSizes(ts: seq<TypeAnn>): (n: nat)
    ensures forall i | 0 <= i < |ts| :: TSize(ts[i]) < n
  {
    if |ts| == 0 then 0 else TSize(ts[0]) + TSizes(ts[1..]) + 1
  }

  /** One element of the trace carried by NoDerivedDeserializer / NoDerivedSerializer. */
  datatype TraceItem = TraceType(t: TypeAnn) | TraceText(s: string)

  /** The exceptions the modelled code raises; messages are not modelled. */
  datatype Exc =
    | ValueError
    | TypeError
    | KeyError
    | IndexError
    | AttributeError
    | AssertionError
    | PlainException                         // `raise Exception(...)`
    | RecursionError
    | NoDerivedDeserializer(trace: seq<TraceItem>)
    | NoDerivedSerializer(trace: seq<TraceItem>)

  // ---------------------------------------------------------------------
  // Traces: `add_trace(*parents)` extends the trace with the parents reversed,
  // and `__str__` shows the trace reversed.

  function Reverse<T>(s: seq<T>): (r: seq<T>)
    ensures |r| == |s|
    ensures forall i | 0 <= i < |s| :: r[i] == s[|s| - 1 - i]
  {
    if |s| == 0 then [] else Reverse(s[1..]) + [s[0]]
  }

  lemma {:induction false} ReverseAppend<T>(a: seq<T>, b: seq<T>)
    ensures Reverse(a + b) == Reverse(b) + Reverse(a)
  {
    var l, r := Reverse(a + b), Reverse(b) + Reverse(a);
    assert |l| == |r|;
    forall i | 0 <= i < |l| ensures l[i] == r[i] {
      if i < |b| {
        assert l[i] == (a + b)[|a| + |b| - 1 - i];
      } else {
        assert l[i] == (a + b)[|a| + |b| - 1 - i];
      }
    }
  }

  lemma {:induction false} ReverseReverse<T>(s: seq<T>)
    ensures Reverse(Reverse(s)) == s
  {
    var r := Reverse(Reverse(s));
    assert |r| == |s|;
    forall i | 0 <= i < |s| ensures r[i] == s[i] {
      assert Reverse(s)[|s| - 1 - i] == s[i];
    }
  }

  /** NoDerived*.add_trace: the parents are appended in reverse order. */
  function AddTrace(trace: seq<TraceItem>, parents: seq<TraceItem>): (r: seq<TraceItem>)
    ensures |r| == |trace| + |parents|
  {
    trace + Reverse(parents)
  }

  /** NoDerived*.__str__ lists the trace reversed. */
  function RenderTrace(trace: seq<TraceItem>): seq<TraceItem>
  {
    Reverse(trace)
  }

  /** Texts of the trace are shown outermost first: the last `add_trace` call's
      parents come first, each call keeping its own argument order. */
  lemma {:induction false} RenderAddTrace(trace: seq<TraceItem>, parents: seq<TraceItem>)
    ensures RenderTrace(AddTrace(trace, parents)) == parents + RenderTrace(trace)
  {
    ReverseAppend(trace, Reverse(parents));
    ReverseReverse(parents);
  }

  /** Two nested `raise ...add_trace(inner...)` / `raise e.add_trace(outer...)`
      render as outer followed by inner. */
  lemma NestedTraceOrder(inner: seq<TraceItem>, outer: seq<TraceItem>)
    ensures RenderTrace(AddTrace(AddTrace([], inner), outer)) == outer + inner
  {
    RenderAddTrace(AddTrace([], inner), outer);
    RenderAddTrace([], inner);
  }

  // ---------------------------------------------------------------------
  // Python semantics of values.

  /** `isinstance(v, int)`: bool is a subclass of int. */
  predicate IsPyInt(v: Value) {
    v.VInt? || v.VBool?
  }

  predicate IsNumeric(v: Value) {
    v.VBool? || v.VInt? || v.VFloat?
  }

  function NumericValue(v: Value): real
    requires IsNumeric(v)
  {
    match v
    case VBool(b) => if b then 1.0 else 0.0
    case VInt(i) => i as real
    case VFloat(r) => r
  }

  /** `a == b`: numbers of different types compare by value (True == 1 == 1.0);
      everything else compares structurally. */
  predicate PyEq(a: Value, b: Value) {
    if IsNumeric(a) && IsNumeric(b) then NumericValue(a) == NumericValue(b) else a == b
  }

  /** `hash(v)` succeeds. Lists, dicts, sets and (non-frozen) dataclass instances are unhashable. */
  predicate Hashable(v: Value) {
    match v
    case VList(_) => false
    case VSet(_) => false
    case VDict(_) => false
    case VObject(_, _) => false
    case VTuple(items) => forall i | 0 <= i < |items| :: Hashable(items[i])
    case _ => true
  }

  /** `v in [c1, ..., cn]` on a collection of hashable constants. */
  predicate InValues(v: Value, values: seq<Value>) {
    exists i | 0 <= i < |values| :: PyEq(v, values[i])
  }

  /** Position of key `k` in a dict's entries (`k in d` / `d[k]`). */
  function FindKey(entries: seq<Entry>, k: Value): (r: Option<nat>)
    ensures r.Some? ==> r.value < |entries| && PyEq(entries[r.value].key, k)
    ensures r.None? <==> forall i | 0 <= i < |entries| :: !PyEq(entries[i].key, k)
    ensures r.Some? ==> forall i | 0 <= i < r.value :: !PyEq(entries[i].key, k)
  {
    if |entries| == 0 then None
    else if PyEq(entries[0].key, k) then Some(0)
    else match FindKey(entries[1..], k)
      case None => None
      case Some(j) => Some(j + 1)
  }

  /** `d[k] = v`: an existing key keeps its position, a new key is appended. */
  function DictSet(entries: seq<Entry>, k: Value, v: Value): (r: seq<Entry>)
    ensures FindKey(entries, k).None? ==> r == entries + [Entry(k, v)]
    ensures FindKey(entries, k).Some? ==> |r| == |entries|
  {
    match FindKey(entries, k)
    case None => entries + [Entry(k, v)]
    case Some(i) => entries[i := Entry(entries[i].key, v)]
  }

  /** The keys of a dict, in order. */
  function Keys(entries: seq<Entry>): (r: seq<Value>)
    ensures |r| == |entries|
    ensures forall i | 0 <= i < |entries| :: r[i] == entries[i].key
  {
    if |entries| == 0 then [] else [entries[0].key] + Keys(entries[1..])
  }

  // ---------------------------------------------------------------------
  // A comprehension stops at the first exception.

  /** `[f(x) for x in xs]` given each `f(x)`: the first exception, or every value. */
  function Collect<T, E>(rs: seq<Result<T, E>>): (r: Result<seq<T>, E>)
    ensures r.Success? <==> forall i | 0 <= i < |rs| :: rs[i].Success?
    ensures r.Success? ==> |r.value| == |rs| && forall i | 0 <= i < |rs| :: r.value[i] == rs[i].value
    ensures r.Failure? ==>
      exists i | 0 <= i < |rs| :: rs[i].Failure? && rs[i].error == r.error && forall j | 0 <= j < i :: rs[j].Success?
  {
    if |rs| == 0 then Success([])
    else if rs[0].Failure? then Failure(rs[0].error)
    else
      match Collect(rs[1..])
      case Success(xs) => Success([rs[0].value] + xs)
      case Failure(e) => Failure(e)
  }

  /** A loop that appended every value reached the comprehension's result. */
  lemma CollectAll<T, E>(rs: seq<Result<T, E>>, xs: seq<T>)
    requires |xs| == |rs| && forall i | 0 <= i < |rs| :: rs[i] == Success(xs[i])
    ensures Collect(rs) == Success(xs)
  {
    assert Collect(rs).value == xs;
  }

  /** A loop that stopped at the first failure `i` raised what the comprehension raises. */
  lemma CollectStopsAt<T, E>(rs: seq<Result<T, E>>, i: nat)
    requires i < |rs| && rs[i].Failure? && forall j | 0 <= j < i :: rs[j].Success?
    ensures Collect(rs) == Failure(rs[i].error)
  {
  }

  /** The items produced by `for x in v`, or TypeError when `v` is not iterable. */
  function Iterate(v: Value): (r: Option<seq<Value>>)
    ensures (v.VList? || v.VTuple? || v.VSet?) ==> r == Some(v.items)
    ensures v.VDict? ==> r == Some(Keys(v.entries))
    ensures r.Some? ==> forall i | 0 <= i < |r.value| :: VSize(r.value[i]) <= VSize(v)
  {
    match v
    case VList(items) => Some(items)
    case VTuple(items) => Some(items)
    case VSet(items) => Some(items)
    case VDict(entries) => Some(Keys(entries))
    case VStr(s) => Some(seq(|s|, i requires 0 <= i < |s| => VStr([s[i]])))
    case _ => None
  }

  /** The size of a value, for termination of the serializers' recursion over it. */
  function VSize(v: Value): (n: nat)
    ensures n >= 1
  {
    match v
    case VList(items) => 1 + VSizes(items)
    case VTuple(items) => 1 + VSizes(items)
    case VSet(items) => 1 + VSizes(items)
    case VDict(entries) => 1 + ESizes(entries)
    case VObject(_, attrs) => 1 + ESizes(attrs)
    case VEnum(_, x) => 1 + VSize(x)
    case _ => 1
  }

  function VSizes(vs: seq<Value>): (n: nat)
    ensures forall i | 0 <= i < |vs| :: VSize(vs[i]) < n
  {
    if |vs| == 0 then 0 else VSize(vs[0]) + VSizes(vs[1..]) + 1
  }

  function ESizes(es: seq<Entry>): (n: nat)
    ensures forall i | 0 <= i < |es| :: ESize(es[i]) < n
  {
    if |es| == 0 then 0 else ESize(es[0]) + ESizes(es[1..]) + 1
  }

  function ESize(e: Entry): (n: nat)
    ensures VSize(e.key) < n && VSize(e.val) < n
  {
    VSize(e.key) + VSize(e.val) + 1
  }
}
