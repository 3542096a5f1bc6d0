/**
 * The serializers of gena/serializer.py, as values with a meaning: a `Ser` is
 * one of the closures the factories return, and `RunSer` is what calling it
 * on a value does. "No serializer" (the factories' `None`) is `Option.None`:
 * the value is output unchanged. Dataclass and TypedDict serializers are
 * closures over a field table that is filled after the closure is
 * registered in the cache; they live in a heap and are referred to by id.
 */
module Serializers {
  import opened Wrappers
  import opened Py
  import opened Peewee

  datatype Ser =
    | SDatetime                                          // datetime_serializer
    | SEnumValue                                         // attrgetter("value")
    | SSeq(item: Ser)                                    // get_serialize_sequence
    | STuple(items: seq<Ser>)                            // get_serialize_tuple
    | SDict(val: Ser)                                    // get_serialize_dict
    | SUnion(classes: seq<TypeAnn>, members: seq<Option<Ser>>) // get_serialize_union
    | SRef(id: nat)                                      // a dataclass / TypedDict closure

  /** One entry of a closure's `field2serializer`. */
  datatype FieldSer = FieldSer(name: string, ser: Option<Ser>)

  datatype SerClosure =
    | DataclassSer(fields: seq<FieldSer>)                // serialize_dataclass
    | TypedDictSer(fields: seq<FieldSer>)                // serialize_typeddict

  /** What a serializer sees when it runs: the classes (for `isinstance`) and the closures. */
  datatype Runtime = Runtime(classes: ClassTable, heap: seq<SerClosure>)

  function SSize(s: Ser): (n: nat)
    ensures n >= 1
  {
    match s
    case SSeq(item) => 1 + SSize(item)
    case STuple(items) => 1 + SSizes(items)
    case SDict(val) => 1 + SSize(val)
    case SUnion(_, ms) => 1 + OSizes(ms)
    case _ => 1
  }

  function SSizes(ss: seq<Ser>): (n: nat)
    ensures forall i | 0 <= i < |ss| :: SSize(ss[i]) < n
  {
    if |ss| == 0 then 0 else SSize(ss[0]) + SSizes(ss[1..]) + 1
  }

  function OSizes(ms: seq<Option<Ser>>): (n: nat)
    ensures forall i | 0 <= i < |ms| :: OSize(ms[i]) < n
  {
    if |ms| == 0 then 0 else OSize(ms[0]) + OSizes(ms[1..]) + 1
  }

  function OSize(o: Option<Ser>): (n: nat)
    ensures o.Some? ==> SSize(o.value) < n
  {
    match o
    case Some(s) => SSize(s) + 1
    case None => 0
  }

  // ---------------------------------------------------------------------
  // Leaf serializers.

  /** `getattr(v, name)`: an attribute of an object, AttributeError otherwise. */
  function GetAttr(v: Value, name: string): (r: Result<Value, Exc>)
    ensures r.Success? <==> v.VObject? && FindKey(v.attrs, VStr(name)).Some?
  {
    if !v.VObject? then Failure(AttributeError)
    else match FindKey(v.attrs, VStr(name))
      case None => Failure(AttributeError)
      case Some(k) => Success(v.attrs[k].val)
  }

  /** An attribute is smaller than the object holding it. */
  lemma GetAttrSmaller(v: Value, name: string)
    ensures GetAttr(v, name).Success? ==> VSize(GetAttr(v, name).value) < VSize(v)
  {
    if GetAttr(v, name).Success? {
      var k := FindKey(v.attrs, VStr(name)).value;
      assert ESize(v.attrs[k]) < ESizes(v.attrs);
    }
  }

  /** datetime_serializer: None stays None, a datetime becomes its POSIX time in
      milliseconds; anything else has no `.timestamp()`. */
  function DatetimeValue(v: Value): (r: Result<Value, Exc>)
    ensures r.Success? <==> v == VNone || v.VDatetime?
    ensures v.VDatetime? ==> r == Success(VInt(v.millis))
    ensures r.Failure? ==> r.error == AttributeError
  {
    match v
    case VNone => Success(VNone)
    case VDatetime(ms) => Success(VInt(ms))
    case _ => Failure(AttributeError)
  }

  /** attrgetter("value"): an enum member's value; None has no `.value`. */
  function EnumValue(v: Value): (r: Result<Value, Exc>)
    ensures v.VEnum? ==> r == Success(v.value)
    ensures v == VNone ==> r == Failure(AttributeError)
    ensures r.Failure? ==> r.error == AttributeError
  {
    if v.VEnum? then Success(v.value) else GetAttr(v, "value")
  }

  /** `isinstance(v, t)` for a member `t` of a Union. A TypedDict class, a Literal,
      a subscripted generic and `...` are not valid second arguments: TypeError. */
  function IsInstance(classes: ClassTable, t: TypeAnn, v: Value): (r: Result<bool, Exc>)
    ensures r.Failure? <==>
      t.TLiteral? || t.TEllipsis? || (t.TClass? && ClassOf(classes, t.name).TypedDict?)
      || (t.TGeneric? && (|t.args| > 0 || t.origin.OUnion? || t.origin.OOther?))
    ensures r.Failure? ==> r.error == TypeError
    ensures r == Success(true) && t.TClass? ==> (v.VObject? || v.VEnum?) && v.cls == t.name
  {
    match t
    case TStr => Success(v.VStr?)
    case TInt => Success(IsPyInt(v))
    case TFloat => Success(v.VFloat?)
    case TBool => Success(v.VBool?)
    case TNone => Success(v == VNone)
    case TDatetime => Success(v.VDatetime?)
    case TClass(n) =>
      (match ClassOf(classes, n)
       case TypedDict(_, _) => Failure(TypeError)
       case EnumClass(_) => Success(v.VEnum? && v.cls == n)
       case _ => Success(v.VObject? && v.cls == n))
    case TLiteral(_) => Failure(TypeError)
    case TGeneric(o, args) =>
      if |args| > 0 then Failure(TypeError)
      else (match o
            case OList => Success(v.VList?)
            case OSet => Success(v.VSet?)
            case OTuple => Success(v.VTuple?)
            case ODict => Success(v.VDict?)
            case _ => Failure(TypeError))
    case TEllipsis => Failure(TypeError)
  }

  // ---------------------------------------------------------------------
  // Running a serializer.

  function RunSer(rt: Runtime, s: Ser, v: Value): Result<Value, Exc>
    decreases VSize(v), SSize(s), 1, 0
  {
    match s
    case SDatetime => DatetimeValue(v)
    case SEnumValue => EnumValue(v)
    case SSeq(item) => RunSeq(rt, item, v)
    case STuple(items) => RunTuple(rt, items, v)
    case SDict(val) => RunDict(rt, val, v)
    case SUnion(cls, ms) => if v == VNone then Success(VNone) else RunUnion(rt, cls, ms, v, 0)
    case SRef(id) => if id < |rt.heap| then RunClosure(rt, rt.heap[id], v) else Failure(KeyError)
  }

  /** serialize_list: `[serializer(item) for item in value]`, whatever the iterable. */
  function RunSeq(rt: Runtime, item: Ser, v: Value): Result<Value, Exc>
    decreases VSize(v), SSize(SSeq(item)), 0, 1
  {
    if v == VNone then Success(VNone)
    else match Iterate(v)
      case None => Failure(TypeError)
      case Some(xs) =>
        match Collect(ItemResults(rt, item, xs, VSize(v)))
        case Success(ys) => Success(VList(ys))
        case Failure(e) => Failure(e)
  }

  function ItemResults(rt: Runtime, item: Ser, xs: seq<Value>, ghost bound: nat): (rs: seq<Result<Value, Exc>>)
    requires forall i | 0 <= i < |xs| :: VSize(xs[i]) <= bound
    ensures |rs| == |xs| && forall i | 0 <= i < |xs| :: rs[i] == RunSer(rt, item, xs[i])
    decreases bound, SSize(item) + 1, 0, 0
  {
    seq(|xs|, i requires 0 <= i < |xs| => RunSer(rt, item, xs[i]))
  }

  /** serialize_tuple: `zip` stops at the shorter of the serializers and the items. */
  function RunTuple(rt: Runtime, ss: seq<Ser>, v: Value): Result<Value, Exc>
    decreases VSize(v), SSize(STuple(ss)), 0, 1
  {
    if v == VNone then Success(VNone)
    else match Iterate(v)
      case None => Failure(TypeError)
      case Some(xs) =>
        match Collect(PairResults(rt, ss, xs, VSize(v)))
        case Success(ys) => Success(VTuple(ys))
        case Failure(e) => Failure(e)
  }

  function Min(a: nat, b: nat): nat {
    if a <= b then a else b
  }

  function PairResults(rt: Runtime, ss: seq<Ser>, xs: seq<Value>, ghost bound: nat): (rs: seq<Result<Value, Exc>>)
    requires forall i | 0 <= i < |xs| :: VSize(xs[i]) <= bound
    ensures |rs| == Min(|ss|, |xs|) && forall i | 0 <= i < |rs| :: rs[i] == RunSer(rt, ss[i], xs[i])
    decreases bound, SSizes(ss) + 1, 0, 0
  {
    seq(Min(|ss|, |xs|), i requires 0 <= i < Min(|ss|, |xs|) => RunSer(rt, ss[i], xs[i]))
  }

  /** serialize_dict: `{key: serializer(item) for key, item in value.items()}`. */
  function RunDict(rt: Runtime, val: Ser, v: Value): Result<Value, Exc>
    decreases VSize(v), SSize(SDict(val)), 0, 1
  {
    if v == VNone then Success(VNone)
    else if !v.VDict? then Failure(AttributeError)
    else match Collect(EntryResults(rt, val, v))
      case Success(es) => Success(VDict(es))
      case Failure(e) => Failure(e)
  }

  function EntryResults(rt: Runtime, val: Ser, v: Value): (rs: seq<Result<Entry, Exc>>)
    requires v.VDict?
    ensures |rs| == |v.entries|
    ensures forall i | 0 <= i < |rs| ::
      rs[i] == match RunSer(rt, val, v.entries[i].val) case Failure(e) => Failure(e) case Success(x) => Success(Entry(v.entries[i].key, x))
    decreases VSize(v), SSize(val) + 1, 0, 0
  {
    var es := v.entries;
    seq(|es|, i requires 0 <= i < |es| =>
      assert ESize(es[i]) < ESizes(es);
      match RunSer(rt, val, es[i].val)
      case Failure(e) => Failure(e)
      case Success(x) => Success(Entry(es[i].key, x)))
  }

  /** serialize_union from member `i` on: the first class the value is an instance of
      picks the serializer, which is called even when it is None. */
  function RunUnion(rt: Runtime, cls: seq<TypeAnn>, ms: seq<Option<Ser>>, v: Value, i: nat): Result<Value, Exc>
    decreases VSize(v), SSize(SUnion(cls, ms)), 0, |ms| - i
  {
    if i >= |cls| || i >= |ms| then Failure(ValueError)
    else match IsInstance(rt.classes, cls[i], v)
      case Failure(e) => Failure(e)
      case Success(true) =>
        (match ms[i]
         case None => Failure(TypeError)
         case Some(s) => RunSer(rt, s, v))
      case Success(false) => RunUnion(rt, cls, ms, v, i + 1)
  }

  /** serialize_dataclass / serialize_typeddict. The TypedDict closure reads each
      field from the TypedDict class itself, which has no attribute of that name
      unless the key names a method of `dict` (not modelled). */
  function RunClosure(rt: Runtime, c: SerClosure, v: Value): Result<Value, Exc>
    decreases VSize(v), 0, 0, 2
  {
    if v == VNone then Success(VNone)
    else match c
      case TypedDictSer(fs) => if |fs| == 0 then Success(VDict([])) else Failure(AttributeError)
      case DataclassSer(fs) =>
        match Collect(AttrResults(rt, fs, v))
        case Success(es) => Success(VDict(es))
        case Failure(e) => Failure(e)
  }

  function AttrResults(rt: Runtime, fs: seq<FieldSer>, v: Value): (rs: seq<Result<Entry, Exc>>)
    ensures |rs| == |fs| && forall i | 0 <= i < |fs| :: rs[i] == AttrResult(rt, fs[i], v)
    decreases VSize(v), 0, 0, 1
  {
    seq(|fs|, i requires 0 <= i < |fs| => AttrResult(rt, fs[i], v))
  }

  /** One field of serialize_dataclass: the attribute, raw or serialized. */
  function AttrResult(rt: Runtime, f: FieldSer, v: Value): Result<Entry, Exc>
    decreases VSize(v), 0, 0, 0
  {
    GetAttrSmaller(v, f.name);
    match GetAttr(v, f.name)
    case Failure(e) => Failure(e)
    case Success(x) =>
      match f.ser
      case None => Success(Entry(VStr(f.name), x))
      case Some(s) =>
        match RunSer(rt, s, x)
        case Failure(e) => Failure(e)
        case Success(y) => Success(Entry(VStr(f.name), y))
  }

  // ---------------------------------------------------------------------
  // What the serializers do.

  /** Every serializer but attrgetter("value") maps None to None. */
  lemma NonePassesThrough(rt: Runtime, s: Ser)
    requires s.SRef? ==> s.id < |rt.heap|
    ensures s != SEnumValue ==> RunSer(rt, s, VNone) == Success(VNone)
    ensures RunSer(rt, SEnumValue, VNone) == Failure(AttributeError)
  {
  }

  /** A registered closure is looked up in the heap as it stands at call time. */
  lemma RefSpec(rt: Runtime, id: nat, v: Value)
    ensures id < |rt.heap| ==> RunSer(rt, SRef(id), v) == RunClosure(rt, rt.heap[id], v)
    ensures id >= |rt.heap| ==> RunSer(rt, SRef(id), v) == Failure(KeyError)
  {
  }

  /** Enum members serialize to their `.value`, datetimes to milliseconds. */
  lemma LeafSpec(rt: Runtime, cls: string, x: Value, ms: int)
    ensures RunSer(rt, SEnumValue, VEnum(cls, x)) == Success(x)
    ensures RunSer(rt, SDatetime, VDatetime(ms)) == Success(VInt(ms))
  {
  }

  /** The sequence serializer turns any iterable into a list of its items, serialized
      one by one (a failing item's exception propagates); a non-iterable is a TypeError. */
  lemma SeqSpec(rt: Runtime, item: Ser, v: Value)
    ensures v != VNone && Iterate(v).None? ==> RunSer(rt, SSeq(item), v) == Failure(TypeError)
    ensures Iterate(v).Some? && RunSer(rt, SSeq(item), v).Success? && v != VNone ==>
      var xs := Iterate(v).value;
      var out := RunSer(rt, SSeq(item), v).value;
      out.VList? && |out.items| == |xs| &&
      forall i | 0 <= i < |xs| :: RunSer(rt, item, xs[i]) == Success(out.items[i])
    ensures Iterate(v).Some? && RunSer(rt, SSeq(item), v).Failure? ==>
      exists i | 0 <= i < |Iterate(v).value| :: RunSer(rt, item, Iterate(v).value[i]) == RunSer(rt, SSeq(item), v)
  {
    if v != VNone && Iterate(v).Some? {
      var rs := ItemResults(rt, item, Iterate(v).value, VSize(v));
      assert RunSer(rt, SSeq(item), v) == match Collect(rs) case Success(ys) => Success(VList(ys)) case Failure(e) => Failure(e);
    }
  }

  /** The tuple serializer pairs serializers with items up to the shorter of the two:
      extra items are dropped. */
  lemma TupleSpec(rt: Runtime, ss: seq<Ser>, v: Value)
    ensures v != VNone && Iterate(v).None? ==> RunSer(rt, STuple(ss), v) == Failure(TypeError)
    ensures Iterate(v).Some? && RunSer(rt, STuple(ss), v).Success? && v != VNone ==>
      var xs := Iterate(v).value;
      var out := RunSer(rt, STuple(ss), v).value;
      out.VTuple? && |out.items| == Min(|ss|, |xs|) &&
      forall i | 0 <= i < |out.items| :: RunSer(rt, ss[i], xs[i]) == Success(out.items[i])
  {
    if v != VNone && Iterate(v).Some? {
      var rs := PairResults(rt, ss, Iterate(v).value, VSize(v));
      assert RunSer(rt, STuple(ss), v) == match Collect(rs) case Success(ys) => Success(VTuple(ys)) case Failure(e) => Failure(e);
    }
  }

  /** The dict serializer keeps the keys, in order, and serializes the values; a value
      without `.items()` is an AttributeError. */
  lemma DictSpec(rt: Runtime, val: Ser, v: Value)
    ensures v != VNone && !v.VDict? ==> RunSer(rt, SDict(val), v) == Failure(AttributeError)
    ensures v.VDict? && RunSer(rt, SDict(val), v).Success? ==>
      var out := RunSer(rt, SDict(val), v).value;
      out.VDict? && Keys(out.entries) == Keys(v.entries) &&
      forall i | 0 <= i < |v.entries| :: RunSer(rt, val, v.entries[i].val) == Success(out.entries[i].val)
  {
    if v.VDict? {
      var rs := EntryResults(rt, val, v);
      assert RunSer(rt, SDict(val), v) == match Collect(rs) case Success(es) => Success(VDict(es)) case Failure(e) => Failure(e);
      if Collect(rs).Success? {
        var es: seq<Entry> := Collect(rs).value;
        forall i | 0 <= i < |v.entries|
          ensures es[i].key == v.entries[i].key && RunSer(rt, val, v.entries[i].val) == Success(es[i].val)
        {
          assert rs[i].Success?;
        }
      }
    }
  }

  /** `isinstance` on the members before `i` is False, and on member `i` it is True. */
  predicate FirstInstance(classes: ClassTable, cls: seq<TypeAnn>, v: Value, i: nat) {
    i < |cls| && IsInstance(classes, cls[i], v) == Success(true)
    && forall j | 0 <= j < i :: IsInstance(classes, cls[j], v) == Success(false)
  }

  lemma {:induction false} UnionFrom(rt: Runtime, cls: seq<TypeAnn>, ms: seq<Option<Ser>>, v: Value, k: nat)
    requires k <= Min(|cls|, |ms|)
    requires forall j | 0 <= j < k :: IsInstance(rt.classes, cls[j], v) == Success(false)
    ensures (forall j | k <= j < Min(|cls|, |ms|) :: IsInstance(rt.classes, cls[j], v) == Success(false)) ==>
      RunUnion(rt, cls, ms, v, k) == Failure(ValueError)
    ensures forall i | k <= i < |ms| && FirstInstance(rt.classes, cls, v, i) ::
      RunUnion(rt, cls, ms, v, k) == if ms[i].None? then Failure(TypeError) else RunSer(rt, ms[i].value, v)
    decreases |ms| - k
  {
    if k < Min(|cls|, |ms|) {
      if IsInstance(rt.classes, cls[k], v) == Success(false) {
        UnionFrom(rt, cls, ms, v, k + 1);
      }
    }
  }

  /** Union dispatch: the first class the value is an instance of picks the serializer
      (calling it even when it is None, a TypeError); no class at all is a ValueError. */
  lemma UnionSpec(rt: Runtime, cls: seq<TypeAnn>, ms: seq<Option<Ser>>, v: Value)
    ensures RunSer(rt, SUnion(cls, ms), VNone) == Success(VNone)
    ensures v != VNone && (forall j | 0 <= j < Min(|cls|, |ms|) :: IsInstance(rt.classes, cls[j], v) == Success(false)) ==>
      RunSer(rt, SUnion(cls, ms), v) == Failure(ValueError)
    ensures v != VNone ==> forall i | 0 <= i < |ms| && FirstInstance(rt.classes, cls, v, i) ::
      RunSer(rt, SUnion(cls, ms), v) == if ms[i].None? then Failure(TypeError) else RunSer(rt, ms[i].value, v)
  {
    if v != VNone {
      UnionFrom(rt, cls, ms, v, 0);
    }
  }

  /** `Union[int, datetime]` on 3: the int member needs no serializer, and calling
      that None raises TypeError instead of returning 3. */
  lemma UnionCallsNone(rt: Runtime)
    ensures RunSer(rt, SUnion([TInt, TDatetime], [None, Some(SDatetime)]), VInt(3)) == Failure(TypeError)
    ensures RunSer(rt, SUnion([TInt, TDatetime], [None, Some(SDatetime)]), VDatetime(5)) == Success(VInt(5))
  {
    UnionSpec(rt, [TInt, TDatetime], [None, Some(SDatetime)], VInt(3));
    assert FirstInstance(rt.classes, [TInt, TDatetime], VInt(3), 0);
    UnionSpec(rt, [TInt, TDatetime], [None, Some(SDatetime)], VDatetime(5));
    assert FirstInstance(rt.classes, [TInt, TDatetime], VDatetime(5), 1);
  }

  /** A union whose first member is a subscripted generic, such as
      `Optional[List[X]]`, raises TypeError on every value but None:
      `isinstance` refuses subscripted generics. */
  lemma SubscriptedMemberRaises(rt: Runtime, cls: seq<TypeAnn>, ms: seq<Option<Ser>>, v: Value)
    requires |cls| > 0 && |ms| > 0 && cls[0].TGeneric? && |cls[0].args| > 0 && v != VNone
    ensures RunSer(rt, SUnion(cls, ms), v) == Failure(TypeError)
  {
  }

  /** serialize_dataclass outputs every field under its name, the raw attribute when the
      field needs no serializer and the serialized attribute otherwise; a missing
      attribute is an AttributeError. */
  lemma DataclassClosureSpec(rt: Runtime, fs: seq<FieldSer>, v: Value)
    ensures RunClosure(rt, DataclassSer(fs), VNone) == Success(VNone)
    ensures v != VNone && |fs| > 0 && GetAttr(v, fs[0].name).Failure? ==>
      RunClosure(rt, DataclassSer(fs), v) == Failure(AttributeError)
    ensures v != VNone && RunClosure(rt, DataclassSer(fs), v).Success? ==>
      var out := RunClosure(rt, DataclassSer(fs), v).value;
      out.VDict? && |out.entries| == |fs| &&
      forall i | 0 <= i < |fs| ::
        out.entries[i].key == VStr(fs[i].name) && GetAttr(v, fs[i].name).Success? &&
        (fs[i].ser.None? ==> out.entries[i].val == GetAttr(v, fs[i].name).value) &&
        (fs[i].ser.Some? ==> RunSer(rt, fs[i].ser.value, GetAttr(v, fs[i].name).value) == Success(out.entries[i].val))
  {
    if v != VNone {
      var rs := AttrResults(rt, fs, v);
      assert RunClosure(rt, DataclassSer(fs), v) == match Collect(rs) case Success(es) => Success(VDict(es)) case Failure(e) => Failure(e);
      if |fs| > 0 && GetAttr(v, fs[0].name).Failure? {
        assert rs[0] == Failure(AttributeError);
      }
      if Collect(rs).Success? {
        var es: seq<Entry> := Collect(rs).value;
        forall i | 0 <= i < |fs|
          ensures es[i].key == VStr(fs[i].name) && GetAttr(v, fs[i].name).Success?
          ensures fs[i].ser.None? ==> es[i].val == GetAttr(v, fs[i].name).value
          ensures fs[i].ser.Some? ==> RunSer(rt, fs[i].ser.value, GetAttr(v, fs[i].name).value) == Success(es[i].val)
        {
          assert rs[i].Success? && rs[i].value == es[i];
        }
      }
    }
  }

  /** serialize_typeddict reads its fields from the TypedDict class, not from the value:
      a TypedDict with a field that does not name a method of `dict` fails on every
      value but None, even a dict holding every key. */
  lemma TypedDictClosureSpec(rt: Runtime, fs: seq<FieldSer>, v: Value)
    ensures RunClosure(rt, TypedDictSer(fs), VNone) == Success(VNone)
    ensures v != VNone && |fs| > 0 ==> RunClosure(rt, TypedDictSer(fs), v) == Failure(AttributeError)
    ensures v != VNone && |fs| == 0 ==> RunClosure(rt, TypedDictSer(fs), v) == Success(VDict([]))
  {
  }

  // ---------------------------------------------------------------------
  // The factories' "no serializer needed" rule.

  /** list / set / Tuple[X, ...]: no serializer when the element needs none. */
  function SeqSer(x: Option<Ser>): (r: Option<Ser>)
    ensures r.None? <==> x.None?
    ensures r.Some? ==> r.value.SSeq? && Some(r.value.item) == x
  {
    match x
    case None => None
    case Some(s) => Some(SSeq(s))
  }

  /** A fixed tuple: no serializer as soon as one member needs none. */
  function TupleSer(xs: seq<Option<Ser>>): (r: Option<Ser>)
    ensures r.None? <==> exists i | 0 <= i < |xs| :: xs[i].None?
    ensures r.Some? ==> r.value.STuple? && |r.value.items| == |xs|
                        && forall i | 0 <= i < |xs| :: xs[i] == Some(r.value.items[i])
  {
    if exists i | 0 <= i < |xs| :: xs[i].None? then None
    else Some(STuple(seq(|xs|, i requires 0 <= i < |xs| => xs[i].value)))
  }

  /** Dict[K, V]: no serializer when the values need none (keys are never serialized). */
  function DictSer(x: Option<Ser>): (r: Option<Ser>)
    ensures r.None? <==> x.None?
    ensures r.Some? ==> r.value.SDict? && Some(r.value.val) == x
  {
    match x
    case None => None
    case Some(s) => Some(SDict(s))
  }

  /** get_serialize_union: no serializer only when no member needs one. */
  function UnionSer(args: seq<TypeAnn>, xs: seq<Option<Ser>>): (r: Option<Ser>)
    ensures r.None? <==> forall i | 0 <= i < |xs| :: xs[i].None?
    ensures r.Some? ==> r.value == SUnion(args, xs)
  {
    if forall i | 0 <= i < |xs| :: xs[i].None? then None else Some(SUnion(args, xs))
  }

  /** `Tuple[X, ...]` as get_serializer_from_type recognises it: exactly two arguments. */
  predicate IsSerHomTuple(t: TypeAnn) {
    t.TGeneric? && t.origin == OTuple && |t.args| == 2 && t.args[1] == TEllipsis
  }

  /** Annotations whose values are output unchanged, judged from the annotation alone:
      primitives, Literal, and containers of those (a fixed tuple or a union when all of its
      members are), provided the cache has no entry on the way. */
  predicate PlainData(known: map<TypeAnn, Ser>, t: TypeAnn)
    decreases TSize(t), 1
  {
    t !in known && PlainShape(known, t)
  }

  predicate PlainShape(known: map<TypeAnn, Ser>, t: TypeAnn)
    decreases TSize(t), 0
  {
    match t
    case TStr => true
    case TInt => true
    case TFloat => true
    case TBool => true
    case TNone => true
    case TLiteral(vs) => |vs| > 0
    case TGeneric(o, args) =>
      |args| > 0 &&
      (if o == OList || o == OSet || IsSerHomTuple(t) then PlainData(known, args[0])
       else if o == OTuple || o == OUnion then forall i | 0 <= i < |args| :: PlainData(known, args[i])
       else o == ODict && |args| >= 2 && PlainData(known, args[1]))
    case _ => false
  }

  // ---------------------------------------------------------------------
  // The derivation's cache and closures.

  /** Every key of `a` is still in `b`, with the same serializer. */
  predicate SerExtends(a: map<TypeAnn, Ser>, b: map<TypeAnn, Ser>) {
    forall k | k in a :: k in b && b[k] == a[k]
  }

  /** The classes of the table without an entry in the cache. */
  function SerUncachedOf(classes: ClassTable, known: map<TypeAnn, Ser>): set<string> {
    set n | n in classes && TClass(n) !in known
  }

  lemma SerExtendsUncached(classes: ClassTable, a: map<TypeAnn, Ser>, b: map<TypeAnn, Ser>)
    requires SerExtends(a, b)
    ensures SerUncachedOf(classes, b) <= SerUncachedOf(classes, a)
  {
  }

  /** `NoDerivedSerializer().add_trace(annotated_type)`. */
  function NoSerFor(t: TypeAnn): (e: Exc)
    ensures e == NoDerivedSerializer([TraceType(t)])
  {
    var trace := AddTrace([], [TraceType(t)]);
    assert trace == [TraceType(t)];
    NoDerivedSerializer(trace)
  }

  /** Annotations get_serializer_from_type gives up on: a class that is neither a
      dataclass, a TypedDict nor an Enum, `datetime` without a cache entry, `...`, a
      bare generic, an empty Literal, or an unsupported origin. */
  predicate Unserializable(classes: ClassTable, t: TypeAnn) {
    match t
    case TClass(n) => ClassOf(classes, n).PlainClass?
    case TDatetime => true
    case TEllipsis => true
    case TLiteral(values) => |values| == 0
    case TGeneric(o, args) => |args| == 0 || o.OOther?
    case _ => false
  }

  /** `NoDerivedSerializer().add_trace(typeddict.__name__, "is not a total TypedDict")`. */
  function NotTotal(name: string): Exc {
    NoDerivedSerializer(AddTrace([], [TraceText(name), TraceText("is not a total TypedDict")]))
  }

  /** What get_serializer_from_type may return for annotation `t`: the caller's entry
      for `t`, or the serializer built for it. `owner[id]` is the class closure `id`
      was created for. */
  predicate SerFits(classes: ClassTable, seed: map<TypeAnn, Ser>, owner: seq<string>, t: TypeAnn, o: Option<Ser>)
    decreases TSize(t), 1
  {
    (t in seed && o == Some(seed[t])) || SerBuilt(classes, seed, owner, t, o)
  }

  /** The serializer built for `t` from its arguments' serializers: none for primitives
      and Literal, the attribute getter for an Enum, a closure created for the class,
      the default datetime serializer get_peewee_serializer installs, and the generic
      shapes, which need no serializer exactly when their arguments need none. */
  predicate SerBuilt(classes: ClassTable, seed: map<TypeAnn, Ser>, owner: seq<string>, t: TypeAnn, o: Option<Ser>)
    decreases TSize(t), 0
  {
    match t
    case TClass(n) =>
      (ClassOf(classes, n).EnumClass? && o == Some(SEnumValue))
      || (o.Some? && o.value.SRef? && o.value.id < |owner| && owner[o.value.id] == n)
    case TLiteral(values) => |values| > 0 && o.None?
    case TDatetime => o == Some(SDatetime)
    case TEllipsis => false
    case TGeneric(orig, args) =>
      |args| > 0 &&
      if orig == OList || orig == OSet || IsSerHomTuple(t) then
        (o.None? && SerFits(classes, seed, owner, args[0], None))
        || (o.Some? && o.value.SSeq? && SerFits(classes, seed, owner, args[0], Some(o.value.item)))
      else if orig == OTuple then
        (o.None? && exists j | 0 <= j < |args| :: SerFits(classes, seed, owner, args[j], None))
        || (o.Some? && o.value.STuple? && |o.value.items| == |args|
            && forall j | 0 <= j < |args| :: SerFits(classes, seed, owner, args[j], Some(o.value.items[j])))
      else if orig == ODict then
        |args| >= 2
        && ((o.None? && SerFits(classes, seed, owner, args[1], None))
            || (o.Some? && o.value.SDict? && SerFits(classes, seed, owner, args[1], Some(o.value.val))))
      else if orig == OUnion then
        (o.None? && forall j | 0 <= j < |args| :: SerFits(classes, seed, owner, args[j], None))
        || (o.Some? && o.value.SUnion? && o.value.classes == args && |o.value.members| == |args|
            && (exists j | 0 <= j < |args| :: o.value.members[j].Some?)
            && forall j | 0 <= j < |args| :: SerFits(classes, seed, owner, args[j], o.value.members[j]))
      else false
    case _ => o.None?
  }

  /** Registering more closures keeps every serializer fitting its annotation. */
  lemma {:induction false} SerFitsGrow(classes: ClassTable, seed: map<TypeAnn, Ser>, owner: seq<string>,
                                       owner': seq<string>, t: TypeAnn, o: Option<Ser>)
    requires owner <= owner' && SerFits(classes, seed, owner, t, o)
    ensures SerFits(classes, seed, owner', t, o)
    decreases TSize(t)
  {
    if !(t in seed && o == Some(seed[t])) && t.TGeneric? {
      var args := t.args;
      if t.origin == OList || t.origin == OSet || IsSerHomTuple(t) {
        SerFitsGrow(classes, seed, owner, owner', args[0], if o.None? then None else Some(o.value.item));
      } else if t.origin == OTuple {
        if o.None? {
          var j :| 0 <= j < |args| && SerFits(classes, seed, owner, args[j], None);
          SerFitsGrow(classes, seed, owner, owner', args[j], None);
        } else {
          forall j | 0 <= j < |args| ensures SerFits(classes, seed, owner', args[j], Some(o.value.items[j])) {
            SerFitsGrow(classes, seed, owner, owner', args[j], Some(o.value.items[j]));
          }
        }
      } else if t.origin == ODict {
        SerFitsGrow(classes, seed, owner, owner', args[1], if o.None? then None else Some(o.value.val));
      } else if t.origin == OUnion {
        if o.None? {
          forall j | 0 <= j < |args| ensures SerFits(classes, seed, owner', args[j], None) {
            SerFitsGrow(classes, seed, owner, owner', args[j], None);
          }
        } else {
          forall j | 0 <= j < |args| ensures SerFits(classes, seed, owner', args[j], o.value.members[j]) {
            SerFitsGrow(classes, seed, owner, owner', args[j], o.value.members[j]);
          }
        }
      }
    }
  }

  /** Every argument's serializer fits its argument. */
  predicate SerArgsFit(classes: ClassTable, seed: map<TypeAnn, Ser>, owner: seq<string>,
                       args: seq<TypeAnn>, ss: seq<Option<Ser>>) {
    |ss| == |args| && forall j | 0 <= j < |args| :: SerFits(classes, seed, owner, args[j], ss[j])
  }

  /** The argument serializers derived so far, grown by one. */
  lemma SerArgsStep(classes: ClassTable, seed: map<TypeAnn, Ser>, owner: seq<string>, owner': seq<string>,
                    args: seq<TypeAnn>, ss: seq<Option<Ser>>, o: Option<Ser>)
    requires owner <= owner' && |ss| < |args|
    requires forall j | 0 <= j < |ss| :: SerFits(classes, seed, owner, args[j], ss[j])
    requires SerFits(classes, seed, owner', args[|ss|], o)
    ensures forall j | 0 <= j < |ss| + 1 :: SerFits(classes, seed, owner', args[j], (ss + [o])[j])
  {
    forall j | 0 <= j < |ss| ensures SerFits(classes, seed, owner', args[j], ss[j]) {
      SerFitsGrow(classes, seed, owner, owner', args[j], ss[j]);
    }
  }

  /** get_serialize_tuple over fitting member serializers fits the tuple annotation. */
  lemma TupleBuilt(classes: ClassTable, seed: map<TypeAnn, Ser>, owner: seq<string>, t: TypeAnn, ss: seq<Option<Ser>>)
    requires t.TGeneric? && t.origin == OTuple && !IsSerHomTuple(t) && |t.args| > 0
    requires SerArgsFit(classes, seed, owner, t.args, ss)
    ensures SerBuilt(classes, seed, owner, t, TupleSer(ss))
  {
    if TupleSer(ss).None? {
      var j :| 0 <= j < |ss| && ss[j].None?;
      assert SerFits(classes, seed, owner, t.args[j], None);
    }
  }

  /** get_serialize_union over fitting member serializers fits the Union annotation. */
  lemma UnionBuilt(classes: ClassTable, seed: map<TypeAnn, Ser>, owner: seq<string>, t: TypeAnn, ss: seq<Option<Ser>>)
    requires t.TGeneric? && t.origin == OUnion && |t.args| > 0
    requires SerArgsFit(classes, seed, owner, t.args, ss)
    ensures SerBuilt(classes, seed, owner, t, UnionSer(t.args, ss))
  {
    if UnionSer(t.args, ss).Some? {
      var j :| 0 <= j < |ss| && ss[j].Some?;
      assert UnionSer(t.args, ss).value.members[j].Some?;
    }
  }

  /** known_type_serializer: every entry fits its key. */
  predicate SerCacheFits(classes: ClassTable, seed: map<TypeAnn, Ser>, owner: seq<string>, known: map<TypeAnn, Ser>) {
    forall k | k in known :: SerFits(classes, seed, owner, k, Some(known[k]))
  }

  lemma SerCacheGrow(classes: ClassTable, seed: map<TypeAnn, Ser>, owner: seq<string>, owner': seq<string>,
                     known: map<TypeAnn, Ser>)
    requires owner <= owner' && SerCacheFits(classes, seed, owner, known)
    ensures SerCacheFits(classes, seed, owner', known)
  {
    forall k | k in known ensures SerFits(classes, seed, owner', k, Some(known[k])) {
      SerFitsGrow(classes, seed, owner, owner', k, Some(known[k]));
    }
  }

  /** The first `n` entries of field2serializer: the dataclass's fields in order, each
      caller-supplied field serializer taken as is, every other one fitting the field's
      annotation. */
  predicate DataclassSerPartial(classes: ClassTable, seed: map<TypeAnn, Ser>, owner: seq<string>,
                                c: SerClosure, fields: seq<DataField>, given: map<string, Ser>, n: nat) {
    c.DataclassSer? && n <= |fields| && |c.fields| == n
    && forall j | 0 <= j < n :: c.fields[j].name == fields[j].name
         && (if fields[j].name in given then c.fields[j].ser == Some(given[fields[j].name])
             else SerFits(classes, seed, owner, fields[j].ann, c.fields[j].ser))
  }

  predicate DataclassSerFor(classes: ClassTable, seed: map<TypeAnn, Ser>, owner: seq<string>,
                            c: SerClosure, fields: seq<DataField>, given: map<string, Ser>) {
    DataclassSerPartial(classes, seed, owner, c, fields, given, |fields|)
  }

  /** The first `n` entries of the TypedDict closure's table: the annotated keys in order,
      each serializer fitting its annotation. */
  predicate TypedDictSerPartial(classes: ClassTable, seed: map<TypeAnn, Ser>, owner: seq<string>,
                                c: SerClosure, anns: seq<Annotation>, n: nat) {
    c.TypedDictSer? && n <= |anns| && |c.fields| == n
    && forall j | 0 <= j < n :: c.fields[j].name == anns[j].name
         && SerFits(classes, seed, owner, anns[j].ann, c.fields[j].ser)
  }

  function AddFieldSer(c: SerClosure, f: FieldSer): (r: SerClosure)
    ensures r.fields == c.fields + [f]
    ensures c.DataclassSer? <==> r.DataclassSer?
  {
    match c
    case DataclassSer(fs) => DataclassSer(fs + [f])
    case TypedDictSer(fs) => TypedDictSer(fs + [f])
  }

  lemma DataclassSerStep(classes: ClassTable, seed: map<TypeAnn, Ser>, owner: seq<string>, owner': seq<string>,
                         c: SerClosure, fields: seq<DataField>, given: map<string, Ser>, n: nat, f: FieldSer)
    requires DataclassSerPartial(classes, seed, owner, c, fields, given, n) && owner <= owner'
    requires n < |fields| && f.name == fields[n].name
    requires if fields[n].name in given then f.ser == Some(given[fields[n].name])
             else SerFits(classes, seed, owner', fields[n].ann, f.ser)
    ensures DataclassSerPartial(classes, seed, owner', AddFieldSer(c, f), fields, given, n + 1)
  {
    forall j | 0 <= j < n && fields[j].name !in given
      ensures SerFits(classes, seed, owner', fields[j].ann, c.fields[j].ser)
    {
      SerFitsGrow(classes, seed, owner, owner', fields[j].ann, c.fields[j].ser);
    }
    assert forall j | 0 <= j < n :: (c.fields + [f])[j] == c.fields[j];
  }

  lemma TypedDictSerStep(classes: ClassTable, seed: map<TypeAnn, Ser>, owner: seq<string>, owner': seq<string>,
                         c: SerClosure, anns: seq<Annotation>, n: nat, f: FieldSer)
    requires TypedDictSerPartial(classes, seed, owner, c, anns, n) && owner <= owner'
    requires n < |anns| && f.name == anns[n].name && SerFits(classes, seed, owner', anns[n].ann, f.ser)
    ensures TypedDictSerPartial(classes, seed, owner', AddFieldSer(c, f), anns, n + 1)
  {
    forall j | 0 <= j < n ensures SerFits(classes, seed, owner', anns[j].ann, c.fields[j].ser) {
      SerFitsGrow(classes, seed, owner, owner', anns[j].ann, c.fields[j].ser);
    }
    assert forall j | 0 <= j < n :: (c.fields + [f])[j] == c.fields[j];
  }

  /** The rendered trace starts with `first`, then the name of one of the fields. */
  predicate TraceNamesField(trace: seq<TraceItem>, first: string, names: seq<string>) {
    var shown := RenderTrace(trace);
    |shown| >= 2 && shown[0] == TraceText(first)
    && exists i | 0 <= i < |names| :: shown[1] == TraceText(names[i])
  }

  function FieldNames(fields: seq<DataField>): (r: seq<string>)
    ensures |r| == |fields| && forall i | 0 <= i < |fields| :: r[i] == fields[i].name
  {
    seq(|fields|, i requires 0 <= i < |fields| => fields[i].name)
  }

  lemma ParentTrace(trace: seq<TraceItem>, first: string, names: seq<string>, i: nat)
    requires i < |names|
    ensures TraceNamesField(AddTrace(trace, [TraceText(first), TraceText(names[i])]), first, names)
  {
    RenderAddTrace(trace, [TraceText(first), TraceText(names[i])]);
  }

  /** The rendered trace starts with one of the annotated keys. */
  predicate TraceNamesKey(trace: seq<TraceItem>, anns: seq<Annotation>) {
    var shown := RenderTrace(trace);
    |shown| >= 1 && exists i | 0 <= i < |anns| :: shown[0] == TraceText(anns[i].name)
  }

  lemma KeyTrace(trace: seq<TraceItem>, anns: seq<Annotation>, i: nat)
    requires i < |anns|
    ensures TraceNamesKey(AddTrace(trace, [TraceText(anns[i].name)]), anns)
  {
    RenderAddTrace(trace, [TraceText(anns[i].name)]);
  }

  /** What get_serializer_from_type gives for an annotation without a cache entry,
      in the cache and heap it leaves. */
  predicate SerDerived(classes: ClassTable, seed: map<TypeAnn, Ser>, owner: seq<string>,
                       known: map<TypeAnn, Ser>, heap: seq<SerClosure>, t: TypeAnn, r: Result<Option<Ser>, Exc>) {
    && (Unserializable(classes, t) ==> r == Failure(NoDerivedSerializer([TraceType(t)])))
    && (t.TLiteral? && |t.values| > 0 ==> r == Success(None))
    && (t.TClass? && ClassOf(classes, t.name).EnumClass? ==> r == Success(Some(SEnumValue)))
    && (t.TClass? && ClassOf(classes, t.name).Dataclass? && r.Success? ==>
          r.value.Some? && r.value.value.SRef? && r.value.value.id < |heap|
          && DataclassSerFor(classes, seed, owner, heap[r.value.value.id], ClassOf(classes, t.name).fields, map[]))
    && (t.TClass? && ClassOf(classes, t.name).Dataclass? && r.Failure? && r.error.NoDerivedSerializer? ==>
          TClass(t.name) !in known)
    && (t.TClass? && ClassOf(classes, t.name).TypedDict? && !ClassOf(classes, t.name).total ==>
          r == Failure(NotTotal(t.name)))
    && (t.TClass? && ClassOf(classes, t.name).TypedDict? && ClassOf(classes, t.name).total ==>
          TClass(t.name) in known && known[TClass(t.name)].SRef? && known[TClass(t.name)].id < |heap|
          && (r.Success? ==>
                r == Success(Some(known[TClass(t.name)]))
                && TypedDictSerPartial(classes, seed, owner, heap[known[TClass(t.name)].id],
                                       ClassOf(classes, t.name).annotations, |ClassOf(classes, t.name).annotations|)))
    && (t.TGeneric? && |t.args| > 0 ==> SerGenericShape(t, r))
  }

  /** What get_serializer_from_type builds for a generic annotation with arguments. */
  predicate SerGenericShape(t: TypeAnn, r: Result<Option<Ser>, Exc>)
    requires t.TGeneric? && |t.args| > 0
  {
    && ((t.origin == OList || t.origin == OSet || IsSerHomTuple(t)) && r.Success? && r.value.Some? ==>
          r.value.value.SSeq?)
    && (t.origin == OTuple && !IsSerHomTuple(t) && r.Success? && r.value.Some? ==>
          r.value.value.STuple? && |r.value.value.items| == |t.args|)
    && (t.origin == ODict && |t.args| < 2 ==> r == Failure(IndexError))
    && (t.origin == ODict && r.Success? && r.value.Some? ==> r.value.value.SDict?)
    && (t.origin == OUnion && r.Success? && r.value.Some? ==>
          r.value.value.SUnion? && r.value.value.classes == t.args && |r.value.value.members| == |t.args|)
    && (t.origin.OOther? ==> r == Failure(NoDerivedSerializer([TraceType(t)])))
  }

  // ---------------------------------------------------------------------
  // get_peewee_serializer's plan: `field2func` and `foreign_keys`.

  /** What serialize_model does with one attribute: output it raw, pass it through a
      serializer, or through the field's own `db_value`. */
  datatype FieldFunc = Raw | Apply(ser: Ser) | DbValue

  /** An entry of `field2func`. */
  datatype Column = Column(name: string, func: FieldFunc)

  /** An entry of `foreign_keys`: the output key and the attribute read for it. */
  datatype ForeignKeyOut = ForeignKeyOut(key: string, attr: string)

  datatype ModelSer = ModelSer(columns: seq<Column>, foreignKeys: seq<ForeignKeyOut>)

  /** The wrapping a DataClassField's shape puts around the dataclass serializer. */
  function Shaped(shape: Shape, s: Ser): Ser {
    match shape
    case Single => s
    case ListOf => SSeq(s)
    case DictOf => SDict(s)
    case DictOfLists => SDict(SSeq(s))
  }

  /** The model fields that get an entry in `field2func`: neither excluded nor foreign keys. */
  function ColumnFields(fields: seq<ModelField>, exclude: set<string>, n: nat): (r: seq<ModelField>)
    requires n <= |fields|
    ensures forall j | 0 <= j < |r| :: r[j].name !in exclude && !r[j].kind.ForeignKeyField?
  {
    if n == 0 then []
    else
      var f := fields[n - 1];
      ColumnFields(fields, exclude, n - 1) + (if f.name !in exclude && !f.kind.ForeignKeyField? then [f] else [])
  }

  /** The foreign keys that are not excluded. */
  function ForeignKeyFields(fields: seq<ModelField>, exclude: set<string>, n: nat): (r: seq<ModelField>)
    requires n <= |fields|
    ensures forall j | 0 <= j < |r| :: r[j].name !in exclude && r[j].kind.ForeignKeyField?
  {
    if n == 0 then []
    else
      var f := fields[n - 1];
      ForeignKeyFields(fields, exclude, n - 1) + (if f.name !in exclude && f.kind.ForeignKeyField? then [f] else [])
  }

  /** Every field that is not excluded is in exactly one of the two lists. */
  lemma {:induction false} FieldsCovered(fields: seq<ModelField>, exclude: set<string>, n: nat)
    requires n <= |fields|
    ensures forall i | 0 <= i < n && fields[i].name !in exclude ::
      if fields[i].kind.ForeignKeyField? then fields[i] in ForeignKeyFields(fields, exclude, n)
      else fields[i] in ColumnFields(fields, exclude, n)
  {
    if n > 0 {
      FieldsCovered(fields, exclude, n - 1);
    }
  }

  /** A foreign key is output under `name_id` in `db_field` mode and under `name`
      otherwise; either way the value is the attribute `name_id`. */
  function ForeignKeyFor(f: ModelField, dbFieldNames: bool): (o: ForeignKeyOut)
    ensures o.attr == f.name + "_id"
    ensures dbFieldNames ==> o.key == f.name + "_id"
    ensures !dbFieldNames ==> o.key == f.name
  {
    ForeignKeyOut(if dbFieldNames then f.name + "_id" else f.name, f.name + "_id")
  }

  /** The output of each foreign key, in order. */
  function ForeignKeysFor(fs: seq<ModelField>, dbFieldNames: bool): (r: seq<ForeignKeyOut>)
    ensures |r| == |fs| && forall j | 0 <= j < |fs| :: r[j] == ForeignKeyFor(fs[j], dbFieldNames)
  {
    seq(|fs|, j requires 0 <= j < |fs| => ForeignKeyFor(fs[j], dbFieldNames))
  }

  /** The serializer a dataclass field of this shape gets, around a dataclass closure. */
  predicate ShapedRef(shape: Shape, s: Ser) {
    match shape
    case Single => s.SRef?
    case ListOf => s.SSeq? && s.item.SRef?
    case DictOf => s.SDict? && s.val.SRef?
    case DictOfLists => s.SDict? && s.val.SSeq? && s.val.item.SRef?
  }

  /** What `field2func` holds for a field of each kind. */
  predicate FitsField(f: ModelField, func: FieldFunc) {
    match f.kind
    case DateTimeField => func == Apply(SDatetime)
    case OtherField => func == DbValue
    case DataClassField(shape, _) => func.Apply? && ShapedRef(shape, func.ser)
    case ForeignKeyField(_) => false
    case _ => func == Raw               // integer, float, boolean and string fields
  }

  /** `field2func` for a column that needs no derivation: the datetime serializer, the
      field's `db_value`, or the raw attribute. */
  function FixedFunc(k: FieldKind): (func: FieldFunc)
    requires !k.DataClassField? && !k.ForeignKeyField?
    ensures FitsField(ModelField("", k, false), func)
  {
    match k
    case DateTimeField => Apply(SDatetime)
    case OtherField => DbValue
    case _ => Raw
  }

  predicate ColumnsFit(cols: seq<Column>, fs: seq<ModelField>) {
    |cols| == |fs| && forall j | 0 <= j < |cols| :: cols[j].name == fs[j].name && FitsField(fs[j], cols[j].func)
  }

  lemma ColumnsFitStep(cols: seq<Column>, fs: seq<ModelField>, c: Column, f: ModelField)
    requires ColumnsFit(cols, fs) && c.name == f.name && FitsField(f, c.func)
    ensures ColumnsFit(cols + [c], fs + [f])
  {
    assert forall j | 0 <= j < |cols| :: (cols + [c])[j] == cols[j] && (fs + [f])[j] == fs[j];
  }

  /** The dataclass closure inside a dataclass column's serializer. */
  function ShapedInner(shape: Shape, s: Ser): Ser {
    match shape
    case Single => s
    case ListOf => if s.SSeq? then s.item else s
    case DictOf => if s.SDict? then s.val else s
    case DictOfLists => if s.SDict? && s.val.SSeq? then s.val.item else s
  }

  /** `s` refers to the complete closure `get_dataclass_serializer` builds for `cls`
      without field serializers. */
  predicate DataclassColumnSer(classes: ClassTable, seed: map<TypeAnn, Ser>, owner: seq<string>, heap: seq<SerClosure>,
                               cls: string, s: Ser) {
    && s.SRef? && s.id < |heap| && s.id < |owner| && owner[s.id] == cls
    && ClassOf(classes, cls).Dataclass?
    && DataclassSerFor(classes, seed, owner, heap[s.id], ClassOf(classes, cls).fields, map[])
  }

  /** Every dataclass column's serializer wraps the closure of its own class. */
  predicate ColumnsDerived(classes: ClassTable, seed: map<TypeAnn, Ser>, owner: seq<string>, heap: seq<SerClosure>,
                           cols: seq<Column>, fs: seq<ModelField>) {
    |cols| == |fs|
    && forall j | 0 <= j < |cols| :: fs[j].kind.DataClassField? ==>
         cols[j].func.Apply?
         && DataclassColumnSer(classes, seed, owner, heap, fs[j].kind.cls, ShapedInner(fs[j].kind.shape, cols[j].func.ser))
  }

  lemma DataclassSerGrow(classes: ClassTable, seed: map<TypeAnn, Ser>, owner: seq<string>, owner': seq<string>,
                         c: SerClosure, fields: seq<DataField>, given: map<string, Ser>)
    requires DataclassSerFor(classes, seed, owner, c, fields, given) && owner <= owner'
    ensures DataclassSerFor(classes, seed, owner', c, fields, given)
  {
    forall j | 0 <= j < |fields| && fields[j].name !in given
      ensures SerFits(classes, seed, owner', fields[j].ann, c.fields[j].ser)
    {
      SerFitsGrow(classes, seed, owner, owner', fields[j].ann, c.fields[j].ser);
    }
  }

  /** Registering and filling more closures keeps every column's closure. */
  lemma ColumnsDerivedGrow(classes: ClassTable, seed: map<TypeAnn, Ser>, owner: seq<string>, owner': seq<string>,
                           heap: seq<SerClosure>, heap': seq<SerClosure>, cols: seq<Column>, fs: seq<ModelField>)
    requires ColumnsDerived(classes, seed, owner, heap, cols, fs) && owner <= owner' && heap <= heap'
    ensures ColumnsDerived(classes, seed, owner', heap', cols, fs)
  {
    forall j | 0 <= j < |cols| && fs[j].kind.DataClassField?
      ensures DataclassColumnSer(classes, seed, owner', heap', fs[j].kind.cls, ShapedInner(fs[j].kind.shape, cols[j].func.ser))
    {
      var r := ShapedInner(fs[j].kind.shape, cols[j].func.ser);
      assert heap'[r.id] == heap[r.id] && owner'[r.id] == owner[r.id];
      DataclassSerGrow(classes, seed, owner, owner', heap[r.id], ClassOf(classes, fs[j].kind.cls).fields, map[]);
    }
  }

  lemma ColumnsDerivedStep(classes: ClassTable, seed: map<TypeAnn, Ser>, owner: seq<string>, heap: seq<SerClosure>,
                           cols: seq<Column>, fs: seq<ModelField>, c: Column, f: ModelField)
    requires ColumnsDerived(classes, seed, owner, heap, cols, fs)
    requires f.kind.DataClassField? ==>
      c.func.Apply? && DataclassColumnSer(classes, seed, owner, heap, f.kind.cls, ShapedInner(f.kind.shape, c.func.ser))
    ensures ColumnsDerived(classes, seed, owner, heap, cols + [c], fs + [f])
  {
    assert forall j | 0 <= j < |cols| :: (cols + [c])[j] == cols[j] && (fs + [f])[j] == fs[j];
  }

  function ModelFieldNames(fields: seq<ModelField>): (r: seq<string>)
    ensures |r| == |fields| && forall i | 0 <= i < |fields| :: r[i] == fields[i].name
  {
    seq(|fields|, i requires 0 <= i < |fields| => fields[i].name)
  }

  class SerDeriver {
    /** What each class name stands for. */
    const classes: ClassTable
    /** known_type_serializer */
    var known: map<TypeAnn, Ser>
    /** Every dataclass / TypedDict closure created so far, by id. */
    var heap: seq<SerClosure>
    /** The caller's `known_type_serializer`. */
    ghost const seed: map<TypeAnn, Ser>
    /** The class each closure of `heap` was created for. */
    ghost var owner: seq<string>

    /** Every cache entry is what get_serializer_from_type returns for its key. */
    ghost predicate Valid()
      reads this
    {
      |owner| == |heap| && SerCacheFits(classes, seed, owner, known)
    }

    function Uncached(): set<string>
      reads this
    {
      SerUncachedOf(classes, known)
    }

    /** A deriver over `classes` with the caller's `known_type_serializer`. */
    constructor (classes: ClassTable, seed: map<TypeAnn, Ser>)
      ensures this.classes == classes && known == seed && heap == [] && this.seed == seed
      ensures Valid()
    {
      this.classes := classes;
      known := seed;
      heap := [];
      this.seed := seed;
      owner := [];
    }

    /** get_serializer_from_type; `Success(None)` is "no serializer needed". */
    method FromType(t: TypeAnn) returns (r: Result<Option<Ser>, Exc>)
      requires Valid()
      modifies this
      decreases Uncached(), TSize(t), 1
      ensures Valid() && old(heap) <= heap && old(owner) <= owner && SerExtends(old(known), known)
      ensures r.Success? ==> SerFits(classes, seed, owner, t, r.value)
      ensures t in old(known) ==> r == Success(Some(old(known)[t])) && known == old(known) && heap == old(heap)
      ensures t in [TStr, TInt, TFloat, TBool, TNone] && t !in old(known) ==> r == Success(None)
      ensures PlainData(old(known), t) ==> r == Success(None) && known == old(known) && heap == old(heap)
      ensures t !in old(known) ==> SerDerived(classes, seed, owner, known, heap, t, r)
    {
      if t in known {
        return Success(Some(known[t]));
      }
      match t {
        case TStr => return Success(None);
        case TInt => return Success(None);
        case TFloat => return Success(None);
        case TBool => return Success(None);
        case TNone => return Success(None);
        case TClass(n) =>
          assert !PlainShape(old(known), t);
          r := FromClass(n);
        case TDatetime => return Failure(NoSerFor(t));
        case TEllipsis => return Failure(NoSerFor(t));
        case TLiteral(values) =>
          if |values| == 0 {
            assert !PlainShape(old(known), t);
            return Failure(NoSerFor(t));
          }
          return Success(None);
        case TGeneric(_, args) =>
          if |args| == 0 {
            assert !PlainShape(old(known), t);
            return Failure(NoSerFor(t));
          }
          r := FromGeneric(t);
          assert PlainData(old(known), t) ==> PlainShape(old(known), t);
      }
    }

    /** get_serializer_from_type on a class without a cache entry. */
    method FromClass(n: string) returns (r: Result<Option<Ser>, Exc>)
      requires Valid() && TClass(n) !in known
      modifies this
      decreases Uncached(), 1, 0
      ensures Valid() && old(heap) <= heap && old(owner) <= owner && SerExtends(old(known), known)
      ensures r.Success? ==> SerBuilt(classes, seed, owner, TClass(n), r.value)
      ensures SerDerived(classes, seed, owner, known, heap, TClass(n), r)
    {
      match ClassOf(classes, n) {
        case Dataclass(_) =>
          var d := Dataclass(n, map[]);
          r := if d.Success? then Success(Some(d.value)) else Failure(d.error);
        case TypedDict(_, _) => r := TypedDictSerializer(n);
        case EnumClass(_) => r := Success(Some(SEnumValue));
        case PlainClass => r := Failure(NoSerFor(TClass(n)));
      }
    }

    /** get_serializer_from_type past the `origin is None or len(args) == 0` test. */
    method FromGeneric(t: TypeAnn) returns (r: Result<Option<Ser>, Exc>)
      requires Valid() && t.TGeneric? && |t.args| > 0
      modifies this
      decreases Uncached(), TSize(t), 0
      ensures Valid() && old(heap) <= heap && old(owner) <= owner && SerExtends(old(known), known)
      ensures r.Success? ==> SerBuilt(classes, seed, owner, t, r.value)
      ensures PlainShape(old(known), t) ==> r == Success(None) && known == old(known) && heap == old(heap)
      ensures SerGenericShape(t, r)
    {
      var args := t.args;
      if t.origin == OList || t.origin == OSet || IsSerHomTuple(t) {
        var a := FromType(args[0]);
        if a.Failure? {
          return Failure(a.error);
        }
        return Success(SeqSer(a.value));
      }
      match t.origin {
        case OTuple =>
          var ss := FromTypes(args);
          if ss.Failure? {
            return Failure(ss.error);
          }
          assert PlainShape(old(known), t) ==> ss.value[0].None?;
          TupleBuilt(classes, seed, owner, t, ss.value);
          return Success(TupleSer(ss.value));
        case ODict =>
          if |args| < 2 {
            return Failure(IndexError);
          }
          var a := FromType(args[1]);
          if a.Failure? {
            return Failure(a.error);
          }
          return Success(DictSer(a.value));
        case OUnion =>
          var ss := FromTypes(args);
          if ss.Failure? {
            return Failure(ss.error);
          }
          UnionBuilt(classes, seed, owner, t, ss.value);
          return Success(UnionSer(args, ss.value));
        case _ =>
          return Failure(NoSerFor(t));
      }
    }

    /** `[get_serializer_from_type(arg, ...) for arg in args]` */
    method FromTypes(args: seq<TypeAnn>) returns (r: Result<seq<Option<Ser>>, Exc>)
      requires Valid()
      modifies this
      decreases Uncached(), TSizes(args), 0
      ensures Valid() && old(heap) <= heap && old(owner) <= owner && SerExtends(old(known), known)
      ensures r.Success? ==> SerArgsFit(classes, seed, owner, args, r.value)
      ensures (forall j | 0 <= j < |args| :: PlainData(old(known), args[j])) ==>
        r.Success? && (forall j | 0 <= j < |args| :: r.value[j].None?) && known == old(known) && heap == old(heap)
    {
      ghost var plain := forall j | 0 <= j < |args| :: PlainData(old(known), args[j]);
      var ss: seq<Option<Ser>> := [];
      for i := 0 to |args|
        invariant |ss| == i
        invariant Valid() && old(heap) <= heap && old(owner) <= owner
        invariant SerExtends(old(known), known) && Uncached() <= old(Uncached())
        invariant forall j | 0 <= j < i :: SerFits(classes, seed, owner, args[j], ss[j])
        invariant plain ==> known == old(known) && heap == old(heap) && forall j | 0 <= j < i :: ss[j].None?
      {
        ghost var o := owner;
        var a := FromArg(args[i]);
        if a.Failure? {
          return Failure(a.error);
        }
        SerArgsStep(classes, seed, o, owner, args, ss, a.value);
        ss := ss + [a.value];
      }
      return Success(ss);
    }

    /** One argument: get_serializer_from_type on it. */
    method FromArg(t: TypeAnn) returns (r: Result<Option<Ser>, Exc>)
      requires Valid()
      modifies this
      decreases Uncached(), TSize(t), 2
      ensures Valid() && old(heap) <= heap && old(owner) <= owner
      ensures SerExtends(old(known), known) && Uncached() <= old(Uncached())
      ensures r.Success? ==> SerFits(classes, seed, owner, t, r.value)
      ensures PlainData(old(known), t) ==> r == Success(None) && known == old(known) && heap == old(heap)
    {
      r := FromType(t);
      SerExtendsUncached(classes, old(known), known);
    }

    /** get_dataclass_serializer with `known_field_serializer` given as `given`.
        `name` need not be a dataclass: `fields(CLS)` then raises TypeError after
        the registration. */
    method Dataclass(name: string, given: map<string, Ser>) returns (r: Result<Ser, Exc>)
      requires Valid()
      modifies this
      decreases Uncached() + {name}, 0, 3
      ensures Valid() && |old(heap)| < |heap| && heap[..|old(heap)|] == old(heap)
      ensures old(owner) <= owner && owner[|old(heap)|] == name
      ensures old(known) == map[] ==> known == map[]
      ensures SerExtends(old(known) - {TClass(name)}, known)
      ensures r.Success? && old(known) != map[] ==> TClass(name) in known && known[TClass(name)] == r.value
      ensures r.Success? ==> r == Success(SRef(|old(heap)|)) && ClassOf(classes, name).Dataclass?
                             && DataclassSerFor(classes, seed, owner, heap[|old(heap)|], ClassOf(classes, name).fields, given)
      ensures !ClassOf(classes, name).Dataclass? ==> r == Failure(TypeError)
      ensures r.Failure? && r.error.NoDerivedSerializer? ==>
        TClass(name) !in known && ClassOf(classes, name).Dataclass?
        && TraceNamesField(r.error.trace, name, FieldNames(ClassOf(classes, name).fields))
      ensures r.Failure? && !r.error.NoDerivedSerializer? && old(known) != map[] ==> TClass(name) in known
    {
      // known_type_serializer = known_type_serializer or {}
      var shared := known != map[];
      var def := ClassOf(classes, name);
      var id := |heap|;
      SerCacheGrow(classes, seed, owner, owner + [name], known);
      heap := heap + [DataclassSer([])];
      owner := owner + [name];
      // known_type_serializer[CLS] = serialize_dataclass
      known := known[TClass(name) := SRef(id)];
      if !def.Dataclass? {
        r := Failure(TypeError);
      } else {
        r := DataclassFields(name, id, def.fields, given);
      }
      if !shared {
        known := map[];
      }
    }

    /** The field loop of get_dataclass_serializer, filling closure `id`. */
    method DataclassFields(name: string, id: nat, fields: seq<DataField>, given: map<string, Ser>)
      returns (r: Result<Ser, Exc>)
      requires Valid() && id == |heap| - 1 && TClass(name) in known && known[TClass(name)] == SRef(id)
      requires heap[id] == DataclassSer([])
      modifies this
      decreases Uncached() + {name}, 0, 2
      ensures Valid() && |old(heap)| <= |heap| && heap[..id] == old(heap)[..id] && old(owner) <= owner
      ensures SerExtends(old(known) - {TClass(name)}, known)
      ensures r.Success? ==> SerExtends(old(known), known) && r == Success(SRef(id))
                             && DataclassSerFor(classes, seed, owner, heap[id], fields, given)
      ensures r.Failure? && r.error.NoDerivedSerializer? ==>
        TClass(name) !in known && TraceNamesField(r.error.trace, name, FieldNames(fields))
      ensures r.Failure? && !r.error.NoDerivedSerializer? ==> TClass(name) in known
    {
      for i := 0 to |fields|
        invariant Valid() && id < |heap| && heap[..id] == old(heap)[..id] && old(owner) <= owner
        invariant SerExtends(old(known), known)
        invariant DataclassSerPartial(classes, seed, owner, heap[id], fields, given, i)
      {
        ghost var o := owner;
        SerExtendsUncached(classes, old(known), known);
        var f := DataclassField(name, id, fields[i], given);
        if f.Failure? {
          var e := Abandon(name, FieldNames(fields), i, f.error);
          return Failure(e);
        }
        var fs := FieldSer(fields[i].name, f.value);
        DataclassSerStep(classes, seed, o, owner, heap[id], fields, given, i, fs);
        heap := heap[id := AddFieldSer(heap[id], fs)];
      }
      return Success(SRef(id));
    }

    /** One field of get_dataclass_serializer: the caller's field serializer, else the
        one derived from the field's type. */
    method DataclassField(name: string, id: nat, field: DataField, given: map<string, Ser>)
      returns (r: Result<Option<Ser>, Exc>)
      requires Valid() && id < |heap| && TClass(name) in known
      modifies this
      decreases Uncached() + {name}, 0, 1
      ensures Valid() && id < |heap| && heap[..id + 1] == old(heap)[..id + 1] && old(owner) <= owner
      ensures SerExtends(old(known), known)
      ensures field.name in given ==> r == Success(Some(given[field.name]))
      ensures field.name !in given && r.Success? ==> SerFits(classes, seed, owner, field.ann, r.value)
    {
      if field.name in given {
        return Success(Some(given[field.name]));
      }
      r := FieldFromType(name, id, field.ann);
    }

    /** The `except NoDerivedSerializer` clause of the field loop: the class's cache
        entry is removed and the exception names the class and field `names[i]`; any
        other exception passes unchanged. */
    method Abandon(name: string, names: seq<string>, i: nat, e: Exc) returns (e': Exc)
      requires Valid() && i < |names|
      modifies this
      ensures Valid() && heap == old(heap) && owner == old(owner)
      ensures known == if e.NoDerivedSerializer? then old(known) - {TClass(name)} else old(known)
      ensures e'.NoDerivedSerializer? <==> e.NoDerivedSerializer?
      ensures e.NoDerivedSerializer? ==>
        e' == NoDerivedSerializer(AddTrace(e.trace, [TraceText(name), TraceText(names[i])]))
        && TraceNamesField(e'.trace, name, names)
      ensures !e.NoDerivedSerializer? ==> e' == e
    {
      if e.NoDerivedSerializer? {
        known := known - {TClass(name)};
        ParentTrace(e.trace, name, names, i);
        return NoDerivedSerializer(AddTrace(e.trace, [TraceText(name), TraceText(names[i])]));
      }
      return e;
    }

    /** `get_serializer_from_type(field_type, known_type_serializer)` for a field of
        the closure `id` of class `name`; the closure's own entry stays in the cache. */
    method FieldFromType(name: string, id: nat, ann: TypeAnn) returns (r: Result<Option<Ser>, Exc>)
      requires Valid() && id < |heap| && TClass(name) in known
      modifies this
      decreases Uncached() + {name}, 0, 0
      ensures Valid() && id < |heap| && heap[..id + 1] == old(heap)[..id + 1] && old(owner) <= owner
      ensures SerExtends(old(known), known)
      ensures r.Success? ==> SerFits(classes, seed, owner, ann, r.value)
    {
      r := FromType(ann);
    }

    /** get_typeddict_serializer. The registration is never undone: a failing key leaves
        the partly filled closure in the cache. */
    method TypedDictSerializer(name: string) returns (r: Result<Option<Ser>, Exc>)
      requires Valid() && ClassOf(classes, name).TypedDict? && TClass(name) !in known
      modifies this
      decreases Uncached() + {name}, 0, 2
      ensures Valid() && old(heap) <= heap && old(owner) <= owner && SerExtends(old(known), known)
      ensures !ClassOf(classes, name).total ==> r == Failure(NotTotal(name)) && known == old(known) && heap == old(heap)
      ensures ClassOf(classes, name).total ==>
        TClass(name) in known && known[TClass(name)] == SRef(|old(heap)|) && |old(heap)| < |heap|
        && owner[|old(heap)|] == name
      ensures r.Success? ==> r == Success(Some(SRef(|old(heap)|))) && |old(heap)| < |heap|
                             && TypedDictSerPartial(classes, seed, owner, heap[|old(heap)|],
                                                    ClassOf(classes, name).annotations,
                                                    |ClassOf(classes, name).annotations|)
      ensures r.Failure? && r.error.NoDerivedSerializer? && ClassOf(classes, name).total ==>
        TraceNamesKey(r.error.trace, ClassOf(classes, name).annotations)
    {
      var def := ClassOf(classes, name);
      if !def.total {
        return Failure(NotTotal(name));
      }
      var id := |heap|;
      SerCacheGrow(classes, seed, owner, owner + [name], known);
      heap := heap + [TypedDictSer([])];
      owner := owner + [name];
      // known_type_serializer[typeddict] = serialize_typeddict
      known := known[TClass(name) := SRef(id)];
      var anns := def.annotations;
      for i := 0 to |anns|
        invariant Valid() && id < |heap| && heap[..id] == old(heap) && old(owner) + [name] <= owner
        invariant SerExtends(old(known)[TClass(name) := SRef(id)], known)
        invariant TypedDictSerPartial(classes, seed, owner, heap[id], anns, i)
      {
        SerExtendsUncached(classes, old(known)[TClass(name) := SRef(id)], known);
        ghost var h, o := heap, owner;
        var f := FieldFromType(name, id, anns[i].ann);
        assert heap[..id] == heap[..id + 1][..id] && h[..id] == h[..id + 1][..id];
        if f.Failure? {
          if f.error.NoDerivedSerializer? {
            return Failure(NoDerivedSerializer(AddTrace(f.error.trace, [TraceText(anns[i].name)])));
          }
          return Failure(f.error);
        }
        var fs := FieldSer(anns[i].name, f.value);
        TypedDictSerStep(classes, seed, o, owner, heap[id], anns, i, fs);
        heap := heap[id := AddFieldSer(heap[id], fs)];
      }
      return Success(Some(SRef(id)));
    }

    /** get_peewee_serializer: `known_type_serializer or {}`, the default datetime
        serializer unless the caller has one, then the field loop. */
    method PeeweeSerializer(m: PeeweeModel, exclude: set<string>, dbFieldNames: bool) returns (r: Result<ModelSer, Exc>)
      requires Valid()
      modifies this
      ensures Valid()
      ensures old(known) == map[] ==> known == map[]
      ensures old(known) != map[] ==>
        TDatetime in known && known[TDatetime] == if TDatetime in old(known) then old(known)[TDatetime] else SDatetime
      ensures r.Success? ==> ColumnsFit(r.value.columns, ColumnFields(m.fields, exclude, |m.fields|))
      ensures r.Success? ==> ColumnsDerived(classes, seed, owner, heap, r.value.columns, ColumnFields(m.fields, exclude, |m.fields|))
      ensures r.Success? ==>
        var fks := ForeignKeyFields(m.fields, exclude, |m.fields|);
        |r.value.foreignKeys| == |fks| && forall j | 0 <= j < |fks| :: r.value.foreignKeys[j] == ForeignKeyFor(fks[j], dbFieldNames)
      ensures r.Failure? ==> exists i | 0 <= i < |m.fields| :: m.fields[i].name !in exclude && m.fields[i].kind.DataClassField?
      ensures r.Failure? && r.error.NoDerivedSerializer? ==> TraceNamesField(r.error.trace, m.qualname, ModelFieldNames(m.fields))
    {
      var shared := known != map[];
      if TDatetime !in known {
        known := known[TDatetime := SDatetime];
      }
      r := PeeweeFields(m, exclude, dbFieldNames);
      if !shared {
        known := map[];
      }
    }

    /** `get_dataclass_serializer(field.data_class, known_type_serializer=...)` for a
        DataClassField column; the caller's datetime entry stays. */
    method ColumnDataclass(cls: string) returns (r: Result<Ser, Exc>)
      requires Valid()
      modifies this
      ensures Valid()
      ensures TDatetime in old(known) ==> TDatetime in known && known[TDatetime] == old(known)[TDatetime]
      ensures old(heap) <= heap && old(owner) <= owner
      ensures r.Success? ==> DataclassColumnSer(classes, seed, owner, heap, cls, r.value)
    {
      r := Dataclass(cls, map[]);
      assert old(heap) == heap[..|old(heap)|];
    }

    /** `field2func[field.name]` for column `i`, which is not a foreign key: a dataclass
        column's closure in the shape of its field class, else a fixed function. */
    method ColumnFunc(m: PeeweeModel, i: nat) returns (r: Result<FieldFunc, Exc>)
      requires Valid() && i < |m.fields| && !m.fields[i].kind.ForeignKeyField?
      modifies this
      ensures Valid() && old(heap) <= heap && old(owner) <= owner
      ensures TDatetime in old(known) ==> TDatetime in known && known[TDatetime] == old(known)[TDatetime]
      ensures r.Success? ==> FitsField(m.fields[i], r.value)
      ensures r.Success? && m.fields[i].kind.DataClassField? ==>
        r.value.Apply?
        && DataclassColumnSer(classes, seed, owner, heap, m.fields[i].kind.cls, ShapedInner(m.fields[i].kind.shape, r.value.ser))
      ensures r.Failure? ==> m.fields[i].kind.DataClassField?
      ensures r.Failure? && r.error.NoDerivedSerializer? ==> TraceNamesField(r.error.trace, m.qualname, ModelFieldNames(m.fields))
    {
      var f := m.fields[i];
      if !f.kind.DataClassField? {
        return Success(FixedFunc(f.kind));
      }
      var d := ColumnDataclass(f.kind.cls);
      if d.Failure? {
        if d.error.NoDerivedSerializer? {
          ParentTrace(d.error.trace, m.qualname, ModelFieldNames(m.fields), i);
          return Failure(NoDerivedSerializer(AddTrace(d.error.trace, [TraceText(m.qualname), TraceText(f.name)])));
        }
        return Failure(d.error);
      }
      return Success(Apply(Shaped(f.kind.shape, d.value)));
    }

    /** The field loop of get_peewee_serializer. */
    method PeeweeFields(m: PeeweeModel, exclude: set<string>, dbFieldNames: bool) returns (r: Result<ModelSer, Exc>)
      requires Valid()
      modifies this
      ensures Valid()
      ensures TDatetime in old(known) ==> TDatetime in known && known[TDatetime] == old(known)[TDatetime]
      ensures r.Success? ==> ColumnsFit(r.value.columns, ColumnFields(m.fields, exclude, |m.fields|))
      ensures r.Success? ==> ColumnsDerived(classes, seed, owner, heap, r.value.columns, ColumnFields(m.fields, exclude, |m.fields|))
      ensures r.Success? ==>
        var fks := ForeignKeyFields(m.fields, exclude, |m.fields|);
        |r.value.foreignKeys| == |fks| && forall j | 0 <= j < |fks| :: r.value.foreignKeys[j] == ForeignKeyFor(fks[j], dbFieldNames)
      ensures r.Failure? ==> exists i | 0 <= i < |m.fields| :: m.fields[i].name !in exclude && m.fields[i].kind.DataClassField?
      ensures r.Failure? && r.error.NoDerivedSerializer? ==> TraceNamesField(r.error.trace, m.qualname, ModelFieldNames(m.fields))
    {
      var fs := m.fields;
      var cols: seq<Column> := [];
      var fks: seq<ForeignKeyOut> := [];
      for i := 0 to |fs|
        invariant Valid()
        invariant TDatetime in old(known) ==> TDatetime in known && known[TDatetime] == old(known)[TDatetime]
        invariant ColumnsFit(cols, ColumnFields(fs, exclude, i))
        invariant ColumnsDerived(classes, seed, owner, heap, cols, ColumnFields(fs, exclude, i))
        invariant fks == ForeignKeysFor(ForeignKeyFields(fs, exclude, i), dbFieldNames)
      {
        var f := fs[i];
        ghost var before := ForeignKeyFields(fs, exclude, i);
        if f.name !in exclude {
          if f.kind.ForeignKeyField? {
            fks := fks + [ForeignKeyFor(f, dbFieldNames)];
            assert ForeignKeyFields(fs, exclude, i + 1) == before + [f];
            assert ForeignKeysFor(before + [f], dbFieldNames) == fks;
          } else {
            ghost var h, o := heap, owner;
            var c := ColumnFunc(m, i);
            if c.Failure? {
              return Failure(c.error);
            }
            var func := c.value;
            ColumnsDerivedGrow(classes, seed, o, owner, h, heap, cols, ColumnFields(fs, exclude, i));
            ColumnsFitStep(cols, ColumnFields(fs, exclude, i), Column(f.name, func), f);
            ColumnsDerivedStep(classes, seed, owner, heap, cols, ColumnFields(fs, exclude, i), Column(f.name, func), f);
            cols := cols + [Column(f.name, func)];
          }
        }
      }
      return Success(ModelSer(cols, fks));
    }
  }

  // ---------------------------------------------------------------------
  // serialize_model

  /** One `field2func` entry of serialize_model. */
  function ColumnValue(rt: Runtime, c: Column, record: Value, dbValue: (string, Value) -> Value): Result<Value, Exc> {
    match GetAttr(record, c.name)
    case Failure(e) => Failure(e)
    case Success(x) =>
      match c.func
      case Raw => Success(x)
      case Apply(s) => RunSer(rt, s, x)
      case DbValue => Success(dbValue(c.name, x))
  }

  /** The output after the first `n` entries of `field2func`. */
  function ColumnsOutput(rt: Runtime, cols: seq<Column>, record: Value, dbValue: (string, Value) -> Value, n: nat)
    : Result<seq<Entry>, Exc>
    requires n <= |cols|
  {
    if n == 0 then Success([])
    else match ColumnsOutput(rt, cols, record, dbValue, n - 1)
      case Failure(e) => Failure(e)
      case Success(es) =>
        match ColumnValue(rt, cols[n - 1], record, dbValue)
        case Failure(e) => Failure(e)
        case Success(x) => Success(DictSet(es, VStr(cols[n - 1].name), x))
  }

  /** The output after the first `n` foreign keys, starting from the columns' output `es`. */
  function ForeignOutput(fks: seq<ForeignKeyOut>, record: Value, es: seq<Entry>, n: nat): Result<seq<Entry>, Exc>
    requires n <= |fks|
  {
    if n == 0 then Success(es)
    else match ForeignOutput(fks, record, es, n - 1)
      case Failure(e) => Failure(e)
      case Success(out) =>
        match GetAttr(record, fks[n - 1].attr)
        case Failure(e) => Failure(e)
        case Success(x) => Success(DictSet(out, VStr(fks[n - 1].key), x))
  }

  /** What serialize_model returns for a record. */
  function ModelOutput(rt: Runtime, ms: ModelSer, record: Value, dbValue: (string, Value) -> Value): Result<Value, Exc> {
    match ColumnsOutput(rt, ms.columns, record, dbValue, |ms.columns|)
    case Failure(e) => Failure(e)
    case Success(es) =>
      match ForeignOutput(ms.foreignKeys, record, es, |ms.foreignKeys|)
      case Failure(e) => Failure(e)
      case Success(out) => Success(VDict(out))
  }

  lemma {:induction false} ColumnsStick(rt: Runtime, cols: seq<Column>, record: Value, dbValue: (string, Value) -> Value,
                                        i: nat, n: nat)
    requires i <= n <= |cols| && ColumnsOutput(rt, cols, record, dbValue, i).Failure?
    ensures ColumnsOutput(rt, cols, record, dbValue, n) == ColumnsOutput(rt, cols, record, dbValue, i)
    decreases n - i
  {
    if i < n {
      ColumnsStick(rt, cols, record, dbValue, i, n - 1);
    }
  }

  lemma {:induction false} ForeignStick(fks: seq<ForeignKeyOut>, record: Value, es: seq<Entry>, i: nat, n: nat)
    requires i <= n <= |fks| && ForeignOutput(fks, record, es, i).Failure?
    ensures ForeignOutput(fks, record, es, n) == ForeignOutput(fks, record, es, i)
    decreases n - i
  {
    if i < n {
      ForeignStick(fks, record, es, i, n - 1);
    }
  }

  /** The first loop's output after one more entry; a failing entry is the loop's result. */
  lemma ColumnsNext(rt: Runtime, cols: seq<Column>, record: Value, dbValue: (string, Value) -> Value, i: nat,
                    output: seq<Entry>)
    requires i < |cols| && ColumnsOutput(rt, cols, record, dbValue, i) == Success(output)
    ensures var x := ColumnValue(rt, cols[i], record, dbValue);
      && (x.Failure? ==> ColumnsOutput(rt, cols, record, dbValue, |cols|) == Failure(x.error))
      && (x.Success? ==>
            ColumnsOutput(rt, cols, record, dbValue, i + 1) == Success(DictSet(output, VStr(cols[i].name), x.value)))
  {
    if ColumnValue(rt, cols[i], record, dbValue).Failure? {
      ColumnsStick(rt, cols, record, dbValue, i + 1, |cols|);
    }
  }

  /** The second loop's output after one more foreign key; a failing `getattr` is the loop's result. */
  lemma ForeignNext(fks: seq<ForeignKeyOut>, record: Value, es: seq<Entry>, j: nat, output: seq<Entry>)
    requires j < |fks| && ForeignOutput(fks, record, es, j) == Success(output)
    ensures var x := GetAttr(record, fks[j].attr);
      && (x.Failure? ==> ForeignOutput(fks, record, es, |fks|) == Failure(x.error))
      && (x.Success? ==> ForeignOutput(fks, record, es, j + 1) == Success(DictSet(output, VStr(fks[j].key), x.value)))
  {
    if GetAttr(record, fks[j].attr).Failure? {
      ForeignStick(fks, record, es, j + 1, |fks|);
    }
  }

  /** One iteration of serialize_model's first loop: `getattr(record, name)`, then
      the entry's function if it has one. */
  method ColumnStep(rt: Runtime, c: Column, record: Value, dbValue: (string, Value) -> Value) returns (r: Result<Value, Exc>)
    ensures r == ColumnValue(rt, c, record, dbValue)
  {
    var value := GetAttr(record, c.name);
    if value.Failure? {
      return Failure(value.error);
    }
    match c.func {
      case Raw => r := value;
      case Apply(s) => r := RunSer(rt, s, value.value);
      case DbValue => r := Success(dbValue(c.name, value.value));
    }
  }

  /** The first loop of serialize_model, over `field2func`. */
  method ColumnsLoop(rt: Runtime, cols: seq<Column>, record: Value, dbValue: (string, Value) -> Value)
    returns (r: Result<seq<Entry>, Exc>)
    ensures r == ColumnsOutput(rt, cols, record, dbValue, |cols|)
  {
    var output: seq<Entry> := [];
    for i := 0 to |cols|
      invariant ColumnsOutput(rt, cols, record, dbValue, i) == Success(output)
    {
      var c := cols[i];
      var x := ColumnStep(rt, c, record, dbValue);
      ColumnsNext(rt, cols, record, dbValue, i, output);
      if x.Failure? {
        return Failure(x.error);
      }
      output := DictSet(output, VStr(c.name), x.value);
    }
    return Success(output);
  }

  /** The second loop of serialize_model: `output[name] = getattr(record, name2)`. */
  method ForeignLoop(fks: seq<ForeignKeyOut>, record: Value, es: seq<Entry>) returns (r: Result<seq<Entry>, Exc>)
    ensures r == ForeignOutput(fks, record, es, |fks|)
  {
    var output := es;
    for j := 0 to |fks|
      invariant ForeignOutput(fks, record, es, j) == Success(output)
    {
      var fk := fks[j];
      var value := GetAttr(record, fk.attr);
      ForeignNext(fks, record, es, j, output);
      if value.Failure? {
        return Failure(value.error);
      }
      output := DictSet(output, VStr(fk.key), value.value);
    }
    return Success(output);
  }

  /** serialize_model */
  method SerializeModel(rt: Runtime, ms: ModelSer, record: Value, dbValue: (string, Value) -> Value)
    returns (r: Result<Value, Exc>)
    ensures r == ModelOutput(rt, ms, record, dbValue)
  {
    var es := ColumnsLoop(rt, ms.columns, record, dbValue);
    if es.Failure? {
      return Failure(es.error);
    }
    var out := ForeignLoop(ms.foreignKeys, record, es.value);
    if out.Failure? {
      return Failure(out.error);
    }
    return Success(VDict(out.value));
  }

  /** No two keys serialize_model writes coincide: column names, foreign-key output
      keys, and the two against each other. */
  predicate DistinctOutputKeys(ms: ModelSer) {
    && (forall i, j | 0 <= i < j < |ms.columns| :: ms.columns[i].name != ms.columns[j].name)
    && (forall i, j | 0 <= i < j < |ms.foreignKeys| :: ms.foreignKeys[i].key != ms.foreignKeys[j].key)
    && (forall i, j | 0 <= i < |ms.columns| && 0 <= j < |ms.foreignKeys| :: ms.columns[i].name != ms.foreignKeys[j].key)
  }

  /** `d[k] = v` on a string key the dict does not hold appends the entry. */
  lemma DictSetFresh(es: seq<Entry>, k: string, x: Value)
    requires forall i | 0 <= i < |es| :: es[i].key != VStr(k)
    ensures DictSet(es, VStr(k), x) == es + [Entry(VStr(k), x)]
  {
    assert forall i | 0 <= i < |es| :: !PyEq(es[i].key, VStr(k));
  }

  /** A fold of `d[name] = result` from the dict `init`, `rs[i]` being what the `i`-th
      name is set to, or the exception that ends the loop. */
  function FoldEntries(init: seq<Entry>, names: seq<string>, rs: seq<Result<Value, Exc>>, n: nat): Result<seq<Entry>, Exc>
    requires n <= |names| && n <= |rs|
  {
    if n == 0 then Success(init)
    else match FoldEntries(init, names, rs, n - 1)
      case Failure(e) => Failure(e)
      case Success(es) =>
        match rs[n - 1]
        case Failure(e) => Failure(e)
        case Success(x) => Success(DictSet(es, VStr(names[n - 1]), x))
  }

  function ColumnNames(cols: seq<Column>): (r: seq<string>)
    ensures |r| == |cols| && forall i | 0 <= i < |cols| :: r[i] == cols[i].name
  {
    seq(|cols|, i requires 0 <= i < |cols| => cols[i].name)
  }

  function ColumnResults(rt: Runtime, cols: seq<Column>, record: Value, dbValue: (string, Value) -> Value)
    : (rs: seq<Result<Value, Exc>>)
    ensures |rs| == |cols| && forall i | 0 <= i < |cols| :: rs[i] == ColumnValue(rt, cols[i], record, dbValue)
  {
    seq(|cols|, i requires 0 <= i < |cols| => ColumnValue(rt, cols[i], record, dbValue))
  }

  function ForeignKeys(fks: seq<ForeignKeyOut>): (r: seq<string>)
    ensures |r| == |fks| && forall i | 0 <= i < |fks| :: r[i] == fks[i].key
  {
    seq(|fks|, i requires 0 <= i < |fks| => fks[i].key)
  }

  function ForeignResults(fks: seq<ForeignKeyOut>, record: Value): (rs: seq<Result<Value, Exc>>)
    ensures |rs| == |fks| && forall i | 0 <= i < |fks| :: rs[i] == GetAttr(record, fks[i].attr)
  {
    seq(|fks|, i requires 0 <= i < |fks| => GetAttr(record, fks[i].attr))
  }

  /** serialize_model's first loop is the fold over its columns' results. */
  lemma {:induction false} ColumnsOutputFold(rt: Runtime, cols: seq<Column>, record: Value,
                                             dbValue: (string, Value) -> Value, n: nat)
    requires n <= |cols|
    ensures ColumnsOutput(rt, cols, record, dbValue, n)
         == FoldEntries([], ColumnNames(cols), ColumnResults(rt, cols, record, dbValue), n)
  {
    if n > 0 {
      ColumnsOutputFold(rt, cols, record, dbValue, n - 1);
      assert ColumnResults(rt, cols, record, dbValue)[n - 1] == ColumnValue(rt, cols[n - 1], record, dbValue);
      assert ColumnNames(cols)[n - 1] == cols[n - 1].name;
    }
  }

  /** serialize_model's second loop is the fold over its foreign keys' attributes. */
  lemma {:induction false} ForeignOutputFold(fks: seq<ForeignKeyOut>, record: Value, es: seq<Entry>, n: nat)
    requires n <= |fks|
    ensures ForeignOutput(fks, record, es, n) == FoldEntries(es, ForeignKeys(fks), ForeignResults(fks, record), n)
  {
    if n > 0 {
      ForeignOutputFold(fks, record, es, n - 1);
      assert ForeignResults(fks, record)[n - 1] == GetAttr(record, fks[n - 1].attr);
      assert ForeignKeys(fks)[n - 1] == fks[n - 1].key;
    }
  }

  /** With names distinct from each other and from the keys of `init`, the fold appends
      one entry per name, in order, after `init`. */
  lemma {:induction false} FoldEntriesAppend(init: seq<Entry>, names: seq<string>, rs: seq<Result<Value, Exc>>, n: nat)
    requires n <= |names| && n <= |rs| && forall i, j | 0 <= i < j < n :: names[i] != names[j]
    requires forall i, j | 0 <= i < |init| && 0 <= j < n :: init[i].key != VStr(names[j])
    requires FoldEntries(init, names, rs, n).Success?
    ensures var out := FoldEntries(init, names, rs, n).value;
      && |out| == |init| + n
      && (forall i | 0 <= i < |init| :: out[i] == init[i])
      && forall j | 0 <= j < n :: out[|init| + j].key == VStr(names[j]) && rs[j] == Success(out[|init| + j].val)
  {
    if n > 0 {
      var out := FoldEntries(init, names, rs, n - 1).value;
      var x := rs[n - 1].value;
      FoldEntriesAppend(init, names, rs, n - 1);
      forall i | 0 <= i < |out| ensures out[i].key != VStr(names[n - 1]) {
        if i < |init| {
          assert out[i] == init[i];
        } else {
          assert out[|init| + (i - |init|)].key == VStr(names[i - |init|]);
        }
      }
      DictSetFresh(out, names[n - 1], x);
      var out' := out + [Entry(VStr(names[n - 1]), x)];
      assert FoldEntries(init, names, rs, n).value == out';
      forall j | 0 <= j < n ensures out'[|init| + j].key == VStr(names[j]) && rs[j] == Success(out'[|init| + j].val) {
        if j < n - 1 {
          assert out'[|init| + j] == out[|init| + j];
        }
      }
    }
  }

  /** With distinct names, the first loop outputs one entry per column, in order, each
      holding the column's value. */
  lemma ColumnsOutputEntries(rt: Runtime, cols: seq<Column>, record: Value, dbValue: (string, Value) -> Value, n: nat)
    requires n <= |cols| && forall i, j | 0 <= i < j < n :: cols[i].name != cols[j].name
    requires ColumnsOutput(rt, cols, record, dbValue, n).Success?
    ensures var es := ColumnsOutput(rt, cols, record, dbValue, n).value;
      |es| == n && forall i | 0 <= i < n ::
        es[i].key == VStr(cols[i].name) && ColumnValue(rt, cols[i], record, dbValue) == Success(es[i].val)
  {
    ColumnsOutputFold(rt, cols, record, dbValue, n);
    FoldEntriesFresh(ColumnNames(cols), ColumnResults(rt, cols, record, dbValue), n);
  }

  /** From an empty dict, the fold holds one entry per name, in order. */
  lemma FoldEntriesFresh(names: seq<string>, rs: seq<Result<Value, Exc>>, n: nat)
    requires n <= |names| && n <= |rs| && forall i, j | 0 <= i < j < n :: names[i] != names[j]
    requires FoldEntries([], names, rs, n).Success?
    ensures var out := FoldEntries([], names, rs, n).value;
      |out| == n && forall i | 0 <= i < n :: out[i].key == VStr(names[i]) && rs[i] == Success(out[i].val)
  {
    var init: seq<Entry> := [];
    FoldEntriesAppend(init, names, rs, n);
    var out := FoldEntries(init, names, rs, n).value;
    forall i | 0 <= i < n ensures out[i].key == VStr(names[i]) && rs[i] == Success(out[i].val) {
      assert out[|init| + i] == out[i];
    }
  }

  /** `out` is `es` followed by the first `n` foreign keys' entries. */
  predicate ForeignEntries(fks: seq<ForeignKeyOut>, record: Value, es: seq<Entry>, out: seq<Entry>, n: nat)
    requires n <= |fks|
  {
    && |out| == |es| + n
    && (forall i | 0 <= i < |es| :: out[i] == es[i])
    && forall j | 0 <= j < n ::
         out[|es| + j].key == VStr(fks[j].key) && GetAttr(record, fks[j].attr) == Success(out[|es| + j].val)
  }

  lemma ForeignOutputEntries(fks: seq<ForeignKeyOut>, record: Value, es: seq<Entry>, n: nat)
    requires n <= |fks| && forall i, j | 0 <= i < j < n :: fks[i].key != fks[j].key
    requires forall i, j | 0 <= i < |es| && 0 <= j < n :: es[i].key != VStr(fks[j].key)
    requires ForeignOutput(fks, record, es, n).Success?
    ensures ForeignEntries(fks, record, es, ForeignOutput(fks, record, es, n).value, n)
  {
    ForeignOutputFold(fks, record, es, n);
    FoldEntriesAppend(es, ForeignKeys(fks), ForeignResults(fks, record), n);
  }

  /** The columns' fold outputs exactly the columns' names, in order. */
  lemma ColumnsOutputKeys(rt: Runtime, cols: seq<Column>, record: Value, dbValue: (string, Value) -> Value)
    requires forall i, j | 0 <= i < j < |cols| :: cols[i].name != cols[j].name
    requires ColumnsOutput(rt, cols, record, dbValue, |cols|).Success?
    ensures var es := ColumnsOutput(rt, cols, record, dbValue, |cols|).value;
      |es| == |cols| && forall i | 0 <= i < |es| :: es[i].key == VStr(cols[i].name)
  {
    ColumnsOutputEntries(rt, cols, record, dbValue, |cols|);
  }

  /** serialize_model's output is the foreign keys' fold over the columns' fold. */
  lemma ModelOutputUnfold(rt: Runtime, ms: ModelSer, record: Value, dbValue: (string, Value) -> Value)
    requires ModelOutput(rt, ms, record, dbValue).Success?
    ensures ColumnsOutput(rt, ms.columns, record, dbValue, |ms.columns|).Success?
    ensures var es := ColumnsOutput(rt, ms.columns, record, dbValue, |ms.columns|).value;
      ForeignOutput(ms.foreignKeys, record, es, |ms.foreignKeys|).Success?
      && ModelOutput(rt, ms, record, dbValue) == Success(VDict(ForeignOutput(ms.foreignKeys, record, es, |ms.foreignKeys|).value))
  {
  }

  /** The foreign keys' fold appends after the columns' entries. */
  lemma ForeignAfterColumns(ms: ModelSer, record: Value, es: seq<Entry>, out: seq<Entry>)
    requires DistinctOutputKeys(ms)
    requires |es| == |ms.columns| && forall i | 0 <= i < |es| :: es[i].key == VStr(ms.columns[i].name)
    requires ForeignOutput(ms.foreignKeys, record, es, |ms.foreignKeys|) == Success(out)
    ensures |out| == |ms.columns| + |ms.foreignKeys| && forall i | 0 <= i < |es| :: out[i] == es[i]
    ensures forall j | 0 <= j < |ms.foreignKeys| ::
      out[|ms.columns| + j].key == VStr(ms.foreignKeys[j].key)
      && GetAttr(record, ms.foreignKeys[j].attr) == Success(out[|ms.columns| + j].val)
  {
    var fks := ms.foreignKeys;
    forall i, j | 0 <= i < |es| && 0 <= j < |fks| ensures es[i].key != VStr(fks[j].key) {
      assert es[i].key == VStr(ms.columns[i].name);
    }
    ForeignOutputEntries(fks, record, es, |fks|);
  }

  /** The columns' entries survive the foreign keys' fold unchanged. */
  lemma ColumnsKept(rt: Runtime, cols: seq<Column>, record: Value, dbValue: (string, Value) -> Value,
                    es: seq<Entry>, out: seq<Entry>)
    requires |es| == |cols| && forall i | 0 <= i < |es| ::
      es[i].key == VStr(cols[i].name) && ColumnValue(rt, cols[i], record, dbValue) == Success(es[i].val)
    requires |es| <= |out| && forall i | 0 <= i < |es| :: out[i] == es[i]
    ensures forall i | 0 <= i < |cols| ::
      out[i].key == VStr(cols[i].name) && ColumnValue(rt, cols[i], record, dbValue) == Success(out[i].val)
  {
    forall i | 0 <= i < |cols|
      ensures out[i].key == VStr(cols[i].name) && ColumnValue(rt, cols[i], record, dbValue) == Success(out[i].val)
    {
      assert out[i] == es[i];
    }
  }

  /** With distinct keys, serialize_model outputs one entry per column, in order, then one
      per foreign key; the columns' entries hold their serialized values. */
  lemma ModelOutputColumns(rt: Runtime, ms: ModelSer, record: Value, dbValue: (string, Value) -> Value)
    requires DistinctOutputKeys(ms)
    requires ModelOutput(rt, ms, record, dbValue).Success?
    ensures var out := ModelOutput(rt, ms, record, dbValue).value;
      out.VDict? && |out.entries| == |ms.columns| + |ms.foreignKeys|
      && forall i | 0 <= i < |ms.columns| ::
           out.entries[i].key == VStr(ms.columns[i].name)
           && ColumnValue(rt, ms.columns[i], record, dbValue) == Success(out.entries[i].val)
  {
    ModelOutputUnfold(rt, ms, record, dbValue);
    var es := ColumnsOutput(rt, ms.columns, record, dbValue, |ms.columns|).value;
    var out := ForeignOutput(ms.foreignKeys, record, es, |ms.foreignKeys|).value;
    ColumnsOutputEntries(rt, ms.columns, record, dbValue, |ms.columns|);
    ForeignAfterColumns(ms, record, es, out);
    ColumnsKept(rt, ms.columns, record, dbValue, es, out);
  }

  /** With distinct keys, the entries after the columns' are the foreign keys', each read
      from its attribute. */
  lemma ModelOutputForeign(rt: Runtime, ms: ModelSer, record: Value, dbValue: (string, Value) -> Value)
    requires DistinctOutputKeys(ms)
    requires ModelOutput(rt, ms, record, dbValue).Success?
    ensures var out := ModelOutput(rt, ms, record, dbValue).value;
      out.VDict? && |out.entries| == |ms.columns| + |ms.foreignKeys|
      && forall j | 0 <= j < |ms.foreignKeys| ::
           out.entries[|ms.columns| + j].key == VStr(ms.foreignKeys[j].key)
           && GetAttr(record, ms.foreignKeys[j].attr) == Success(out.entries[|ms.columns| + j].val)
  {
    ModelOutputUnfold(rt, ms, record, dbValue);
    var es := ColumnsOutput(rt, ms.columns, record, dbValue, |ms.columns|).value;
    var out := ForeignOutput(ms.foreignKeys, record, es, |ms.foreignKeys|).value;
    ColumnsOutputKeys(rt, ms.columns, record, dbValue);
    ForeignAfterColumns(ms, record, es, out);
    assert ModelOutput(rt, ms, record, dbValue).value.entries == out;
  }

  /** For the foreign keys get_peewee_serializer plans, serialize_model outputs each
      under `name_id` in `db_field` mode and under `name` otherwise, with the value of
      the attribute `name_id`. */
  lemma ForeignKeyOutput(rt: Runtime, ms: ModelSer, fkFields: seq<ModelField>, dbFieldNames: bool,
                         record: Value, dbValue: (string, Value) -> Value)
    requires |ms.foreignKeys| == |fkFields|
    requires forall j | 0 <= j < |fkFields| :: ms.foreignKeys[j] == ForeignKeyFor(fkFields[j], dbFieldNames)
    requires DistinctOutputKeys(ms) && ModelOutput(rt, ms, record, dbValue).Success?
    ensures var out := ModelOutput(rt, ms, record, dbValue).value;
      out.VDict? && |out.entries| == |ms.columns| + |fkFields| && forall j | 0 <= j < |fkFields| ::
        out.entries[|ms.columns| + j].key == VStr(if dbFieldNames then fkFields[j].name + "_id" else fkFields[j].name)
        && GetAttr(record, fkFields[j].name + "_id") == Success(out.entries[|ms.columns| + j].val)
  {
    ModelOutputForeign(rt, ms, record, dbValue);
  }
}
