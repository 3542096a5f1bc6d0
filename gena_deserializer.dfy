/**
 * Deriving deserializers in gena/deserializer.py. The derivation shares one
 * mutable cache, `known_type_deserializers`, from annotation to deserializer:
 * a dataclass or TypedDict registers its closure there before deriving its
 * fields, so a recursive type finds itself, and a failed dataclass derivation
 * deletes its entry again. Closures live in `heap`; a closure's field list is
 * filled in place after registration.
 *
 * `known_type_deserializers or {}` (in `generate_deserializer` and
 * `get_dataclass_deserializer`) replaces an EMPTY caller dict with a fresh
 * private one, so the caller's dict then stays empty: the methods below reset
 * `known` to the empty map on exit when it was empty on entry.
 */
module GenaDeserializer {
  import opened Wrappers
  import opened Py
  import opened Text
  import opened Peewee
  import opened Deserializers

  /** Every key of `a` is still in `b`, with the same deserializer. */
  predicate Extends(a: map<TypeAnn, Deser>, b: map<TypeAnn, Deser>) {
    forall k | k in a :: k in b && b[k] == a[k]
  }

  predicate CacheRefsIn(known: map<TypeAnn, Deser>, n: nat) {
    forall k | k in known :: RefsIn(known[k], n)
  }

  /** The annotations with a fixed deserializer. */
  function Primitive(t: TypeAnn): Option<Deser> {
    match t
    case TStr => Some(DStr)
    case TInt => Some(DInt)
    case TFloat => Some(DFloat)
    case TBool => Some(DBool)
    case TNone => Some(DNone)
    case _ => None
  }

  /** Annotations without `get_origin` / `get_args` to work with: a plain class,
      `datetime`, `...`, or a bare generic such as `List`. */
  predicate Underivable(classes: ClassTable, t: TypeAnn) {
    match t
    case TClass(n) => ClassOf(classes, n).PlainClass?
    case TDatetime => true
    case TEllipsis => true
    case TLiteral(values) => |values| == 0
    case TGeneric(_, args) => |args| == 0
    case _ => false
  }

  /** `NoDerivedDeserializer().add_trace(annotated_type)`. */
  function NoDerivedFor(t: TypeAnn): (e: Exc)
    ensures e == NoDerivedDeserializer([TraceType(t)])
  {
    var trace := AddTrace([], [TraceType(t)]);
    assert trace == [TraceType(t)];
    NoDerivedDeserializer(trace)
  }

  // ---------------------------------------------------------------------
  // What get_deserializer_from_type returns, annotation by annotation.

  /**
   * `d` is what get_deserializer_from_type returns for `t`: the caller's own
   * entry of `known_type_deserializers` for `t`, or the deserializer built from
   * `t`'s structure. `owner[id]` is the class closure `id` of the heap was
   * registered for.
   */
  predicate Fits(classes: ClassTable, given: map<TypeAnn, Deser>, owner: seq<string>, t: TypeAnn, d: Deser)
    decreases TSize(t), 2
  {
    (t in given && d == given[t]) || Built(classes, given, owner, t, d)
  }

  /** The deserializer built from an annotation: the fixed ones for str, int, float,
      bool and None; the Enum class itself; a closure registered for the class
      (complete or, for a recursive reference, still being filled); the Literal
      check; and for a generic the origin's combinator over the arguments' own
      deserializers. */
  predicate Built(classes: ClassTable, given: map<TypeAnn, Deser>, owner: seq<string>, t: TypeAnn, d: Deser)
    decreases TSize(t), 1
  {
    match t
    case TClass(n) =>
      (ClassOf(classes, n).EnumClass? && d == DEnum(n, ClassOf(classes, n).members))
      || (d.DRef? && d.id < |owner| && owner[d.id] == n)
    case TLiteral(values) => |values| > 0 && d == DLiteral(values)
    case TGeneric(o, args) =>
      if IsHomTuple(t) then |args| == 2 && d.DHomTuple? && Fits(classes, given, owner, args[0], d.item)
      else
        (match o
         case OTuple => d.DTuple? && |d.items| == |args|
                        && forall j | 0 <= j < |args| :: Fits(classes, given, owner, args[j], d.items[j])
         case OList => d.DList? && CombinedFits(classes, given, owner, t, d.item)
         case OSet => d.DSet? && CombinedFits(classes, given, owner, t, d.item)
         case ODict => |args| >= 2 && d.DDict?
                       && Fits(classes, given, owner, args[0], d.key) && Fits(classes, given, owner, args[1], d.val)
         case OUnion => CombinedFits(classes, given, owner, t, d)
         case OOther(_) => false)
    case _ => Primitive(t) == Some(d)
  }

  /** `deserialize_args` of a generic: the only argument's deserializer; for two
      arguments one of which is None, the other one's made nullable; otherwise the
      union of every argument's deserializer, in order. */
  predicate CombinedFits(classes: ClassTable, given: map<TypeAnn, Deser>, owner: seq<string>, t: TypeAnn, d: Deser)
    requires t.TGeneric?
    decreases TSize(t), 0
  {
    var args := t.args;
    if |args| == 1 then Fits(classes, given, owner, args[0], d)
    else if |args| == 2 && TNone in args then
      d.DNullable? && Fits(classes, given, owner, if args[0] != TNone then args[0] else args[1], d.inner)
    else
      d.DUnion? && |d.members| == |args|
      && forall j | 0 <= j < |args| :: Fits(classes, given, owner, args[j], d.members[j])
  }

  /** Registering more closures keeps every deserializer fitting its annotation. */
  lemma {:induction false} FitsGrow(classes: ClassTable, given: map<TypeAnn, Deser>, owner: seq<string>,
                                    owner': seq<string>, t: TypeAnn, d: Deser)
    requires owner <= owner' && Fits(classes, given, owner, t, d)
    ensures Fits(classes, given, owner', t, d)
    decreases TSize(t), 1
  {
    if !(t in given && d == given[t]) && t.TGeneric? {
      var args := t.args;
      if IsHomTuple(t) {
        FitsGrow(classes, given, owner, owner', args[0], d.item);
      } else {
        match t.origin
        case OTuple =>
          forall j | 0 <= j < |args| ensures Fits(classes, given, owner', args[j], d.items[j]) {
            FitsGrow(classes, given, owner, owner', args[j], d.items[j]);
          }
        case OList => CombinedGrow(classes, given, owner, owner', t, d.item);
        case OSet => CombinedGrow(classes, given, owner, owner', t, d.item);
        case ODict =>
          FitsGrow(classes, given, owner, owner', args[0], d.key);
          FitsGrow(classes, given, owner, owner', args[1], d.val);
        case OUnion => CombinedGrow(classes, given, owner, owner', t, d);
        case OOther(_) =>
      }
    }
  }

  lemma {:induction false} CombinedGrow(classes: ClassTable, given: map<TypeAnn, Deser>, owner: seq<string>,
                                        owner': seq<string>, t: TypeAnn, d: Deser)
    requires t.TGeneric? && owner <= owner' && CombinedFits(classes, given, owner, t, d)
    ensures CombinedFits(classes, given, owner', t, d)
    decreases TSize(t), 0
  {
    var args := t.args;
    if |args| == 1 {
      FitsGrow(classes, given, owner, owner', args[0], d);
    } else if |args| == 2 && TNone in args {
      FitsGrow(classes, given, owner, owner', if args[0] != TNone then args[0] else args[1], d.inner);
    } else {
      forall j | 0 <= j < |args| ensures Fits(classes, given, owner', args[j], d.members[j]) {
        FitsGrow(classes, given, owner, owner', args[j], d.members[j]);
      }
    }
  }

  /** Every argument's deserializer fits its argument. */
  predicate ArgsFit(classes: ClassTable, given: map<TypeAnn, Deser>, owner: seq<string>, args: seq<TypeAnn>, ds: seq<Deser>) {
    |ds| == |args| && forall j | 0 <= j < |args| :: Fits(classes, given, owner, args[j], ds[j])
  }

  lemma ArgsGrow(classes: ClassTable, given: map<TypeAnn, Deser>, owner: seq<string>, owner': seq<string>,
                 args: seq<TypeAnn>, ds: seq<Deser>, n: nat)
    requires owner <= owner' && n <= |args| && n <= |ds|
    requires forall j | 0 <= j < n :: Fits(classes, given, owner, args[j], ds[j])
    ensures forall j | 0 <= j < n :: Fits(classes, given, owner', args[j], ds[j])
  {
    forall j | 0 <= j < n ensures Fits(classes, given, owner', args[j], ds[j]) {
      FitsGrow(classes, given, owner, owner', args[j], ds[j]);
    }
  }

  /** The argument deserializers derived so far, grown by one. */
  lemma ArgsStep(classes: ClassTable, given: map<TypeAnn, Deser>, owner: seq<string>, owner': seq<string>,
                 args: seq<TypeAnn>, ds: seq<Deser>, d: Deser, n: nat, m: nat)
    requires owner <= owner' && |ds| < |args| && n <= m
    requires forall j | 0 <= j < |ds| :: Fits(classes, given, owner, args[j], ds[j])
    requires forall j | 0 <= j < |ds| :: RefsIn(ds[j], n)
    requires Fits(classes, given, owner', args[|ds|], d) && RefsIn(d, m)
    ensures forall j | 0 <= j < |ds| + 1 :: Fits(classes, given, owner', args[j], (ds + [d])[j])
    ensures forall j | 0 <= j < |ds| + 1 :: RefsIn((ds + [d])[j], m)
  {
    ArgsGrow(classes, given, owner, owner', args, ds, |ds|);
    RefsGrow(ds, n, m);
  }

  /** `deserialize_args` built from fitting argument deserializers fits the generic. */
  lemma CombineFits(classes: ClassTable, given: map<TypeAnn, Deser>, owner: seq<string>, t: TypeAnn, ds: seq<Deser>)
    requires t.TGeneric? && |t.args| > 0 && ArgsFit(classes, given, owner, t.args, ds)
    requires CombineArgs(t.args, ds).Success?
    ensures CombinedFits(classes, given, owner, t, CombineArgs(t.args, ds).value)
  {
  }

  /** Every entry of the cache is what get_deserializer_from_type returns for its key. */
  predicate CacheFits(classes: ClassTable, given: map<TypeAnn, Deser>, owner: seq<string>, known: map<TypeAnn, Deser>) {
    forall k | k in known :: Fits(classes, given, owner, k, known[k])
  }

  lemma CacheGrow(classes: ClassTable, given: map<TypeAnn, Deser>, owner: seq<string>, owner': seq<string>,
                  known: map<TypeAnn, Deser>)
    requires owner <= owner' && CacheFits(classes, given, owner, known)
    ensures CacheFits(classes, given, owner', known)
  {
    forall k | k in known ensures Fits(classes, given, owner', k, known[k]) {
      FitsGrow(classes, given, owner, owner', k, known[k]);
    }
  }

  /** The first `n` entries of a closure's field list, as the dataclass loop leaves them:
      each field's name, its optional flag, and a deserializer that fits its annotation. */
  predicate FieldsSoFar(classes: ClassTable, given: map<TypeAnn, Deser>, owner: seq<string>,
                        fs: seq<FieldDeser>, fields: seq<DataField>, n: nat) {
    n <= |fields| && |fs| == n
    && forall j | 0 <= j < n ::
         fs[j].name == fields[j].name && fs[j].optional == fields[j].hasDefault
         && Fits(classes, given, owner, fields[j].ann, fs[j].deser)
  }

  lemma DataclassPartialStep(classes: ClassTable, given: map<TypeAnn, Deser>, owner: seq<string>, owner': seq<string>,
                             c: Closure, name: string, fields: seq<DataField>, n: nat, f: FieldDeser)
    requires DataclassPartial(classes, given, owner, c, name, fields, n) && n < |fields| && owner <= owner'
    requires f.name == fields[n].name && f.optional == fields[n].hasDefault
    requires Fits(classes, given, owner', fields[n].ann, f.deser)
    ensures DataclassPartial(classes, given, owner', AddField(c, f), name, fields, n + 1)
  {
    FieldsSoFarStep(classes, given, owner, owner', c.fields, fields, n, f);
  }

  lemma FieldsSoFarStep(classes: ClassTable, given: map<TypeAnn, Deser>, owner: seq<string>, owner': seq<string>,
                        fs: seq<FieldDeser>, fields: seq<DataField>, n: nat, f: FieldDeser)
    requires FieldsSoFar(classes, given, owner, fs, fields, n) && n < |fields| && owner <= owner'
    requires f.name == fields[n].name && f.optional == fields[n].hasDefault
    requires Fits(classes, given, owner', fields[n].ann, f.deser)
    ensures FieldsSoFar(classes, given, owner', fs + [f], fields, n + 1)
  {
    forall j | 0 <= j < n ensures Fits(classes, given, owner', fields[j].ann, fs[j].deser) {
      FitsGrow(classes, given, owner, owner', fields[j].ann, fs[j].deser);
    }
    assert forall j | 0 <= j < n :: (fs + [f])[j] == fs[j];
  }

  /** The first `n` entries of a TypedDict closure's field list: required keys, in
      annotation order, each with a deserializer that fits its annotation. */
  predicate KeysSoFar(classes: ClassTable, given: map<TypeAnn, Deser>, owner: seq<string>,
                      fs: seq<FieldDeser>, anns: seq<Annotation>, n: nat) {
    n <= |anns| && |fs| == n
    && forall j | 0 <= j < n ::
         fs[j].name == anns[j].name && !fs[j].optional && Fits(classes, given, owner, anns[j].ann, fs[j].deser)
  }

  lemma KeysSoFarStep(classes: ClassTable, given: map<TypeAnn, Deser>, owner: seq<string>, owner': seq<string>,
                      fs: seq<FieldDeser>, anns: seq<Annotation>, n: nat, f: FieldDeser)
    requires KeysSoFar(classes, given, owner, fs, anns, n) && n < |anns| && owner <= owner'
    requires f.name == anns[n].name && !f.optional && Fits(classes, given, owner', anns[n].ann, f.deser)
    ensures KeysSoFar(classes, given, owner', fs + [f], anns, n + 1)
  {
    forall j | 0 <= j < n ensures Fits(classes, given, owner', anns[j].ann, fs[j].deser) {
      FitsGrow(classes, given, owner, owner', anns[j].ann, fs[j].deser);
    }
    assert forall j | 0 <= j < n :: (fs + [f])[j] == fs[j];
  }

  /** `Tuple[X, ...]`. */
  predicate IsHomTuple(t: TypeAnn) {
    t.TGeneric? && t.origin == OTuple && |t.args| > 1 && t.args[|t.args| - 1] == TEllipsis
  }

  /** The closure of `get_dataclass_deserializer` for class `name` once every field is derived. */
  predicate DataclassClosureFor(classes: ClassTable, given: map<TypeAnn, Deser>, owner: seq<string>,
                                c: Closure, name: string, fields: seq<DataField>) {
    DataclassPartial(classes, given, owner, c, name, fields, |fields|)
  }

  /** The closure of class `name` while its first `n` fields are derived. */
  predicate DataclassPartial(classes: ClassTable, given: map<TypeAnn, Deser>, owner: seq<string>,
                             c: Closure, name: string, fields: seq<DataField>, n: nat) {
    c.DataclassClosure? && c.cls == name && c.required == RequiredNames(fields) && c.defaults == Defaults(fields)
    && FieldsSoFar(classes, given, owner, c.fields, fields, n)
  }

  /** The closure of `get_typeddict_deserializer` once every annotated key is derived. */
  predicate TypedDictClosureFor(classes: ClassTable, given: map<TypeAnn, Deser>, owner: seq<string>,
                                c: Closure, anns: seq<Annotation>) {
    c.TypedDictClosure? && KeysSoFar(classes, given, owner, c.fields, anns, |anns|)
  }

  /** The rendered trace starts with the class and one of its fields. */
  predicate TraceStartsWithField(trace: seq<TraceItem>, name: string, fields: seq<DataField>) {
    var shown := RenderTrace(trace);
    |shown| >= 2 && shown[0] == TraceText(name)
    && exists i | 0 <= i < |fields| :: shown[1] == TraceText(fields[i].name)
  }

  /** The classes of the table without an entry in the cache. */
  function UncachedOf(classes: ClassTable, known: map<TypeAnn, Deser>): set<string> {
    set n | n in classes && TClass(n) !in known
  }

  lemma ExtendsUncached(classes: ClassTable, a: map<TypeAnn, Deser>, b: map<TypeAnn, Deser>)
    requires Extends(a, b)
    ensures UncachedOf(classes, b) <= UncachedOf(classes, a)
  {
  }

  /** Re-raising with `add_trace(CLS.__name__, field.name)` puts the class, then the field, first. */
  lemma FieldTrace(trace: seq<TraceItem>, name: string, fields: seq<DataField>, i: nat)
    requires i < |fields|
    ensures TraceStartsWithField(AddTrace(trace, [TraceText(name), TraceText(fields[i].name)]), name, fields)
  {
    RenderAddTrace(trace, [TraceText(name), TraceText(fields[i].name)]);
  }

  /** `del known_type_deserializers[k]` keeps what the cache promised about the other keys. */
  lemma RemoveKeeps(a: map<TypeAnn, Deser>, b: map<TypeAnn, Deser>, k: TypeAnn, n: nat)
    requires Extends(a, b) && CacheRefsIn(b, n)
    ensures Extends(a - {k}, b - {k}) && CacheRefsIn(b - {k}, n) && k !in b - {k}
  {
  }

  lemma HeapGrowKeepsRefs(known: map<TypeAnn, Deser>, heap: seq<Closure>, c: Closure)
    requires CacheRefsIn(known, |heap|) && HeapClosed(heap) && ClosureRefsIn(c, |heap| + 1)
    ensures CacheRefsIn(known, |heap + [c]|) && HeapClosed(heap + [c])
  {
    forall k | k in known ensures RefsIn(known[k], |heap| + 1) {
      RefsInMono(known[k], |heap|, |heap| + 1);
    }
    forall i, j | 0 <= i < |heap| && 0 <= j < |heap[i].fields|
      ensures RefsIn(heap[i].fields[j].deser, |heap| + 1)
    {
      RefsInMono(heap[i].fields[j].deser, |heap|, |heap| + 1);
    }
    assert forall i | 0 <= i < |heap| :: (heap + [c])[i] == heap[i];
  }

  lemma RefsGrow(ds: seq<Deser>, n: nat, m: nat)
    requires n <= m && forall j | 0 <= j < |ds| :: RefsIn(ds[j], n)
    ensures forall j | 0 <= j < |ds| :: RefsIn(ds[j], m)
  {
    forall j | 0 <= j < |ds| ensures RefsIn(ds[j], m) { RefsInMono(ds[j], n, m); }
  }

  /** Appending a derived field to the closure being built. */
  function AddField(c: Closure, f: FieldDeser): (r: Closure)
    ensures r.fields == c.fields + [f]
    ensures c.DataclassClosure? ==> r.DataclassClosure? && r.cls == c.cls && r.required == c.required && r.defaults == c.defaults
    ensures c.TypedDictClosure? ==> r.TypedDictClosure?
  {
    match c
    case DataclassClosure(cls, required, defaults, fs) => DataclassClosure(cls, required, defaults, fs + [f])
    case TypedDictClosure(fs) => TypedDictClosure(fs + [f])
  }

  lemma HeapSetKeepsRefs(heap: seq<Closure>, id: nat, f: FieldDeser)
    requires HeapClosed(heap) && id < |heap| && RefsIn(f.deser, |heap|)
    ensures HeapClosed(heap[id := AddField(heap[id], f)])
  {
    var h := heap[id := AddField(heap[id], f)];
    forall i | 0 <= i < |h| ensures ClosureRefsIn(h[i], |h|) {
      if i == id {
        assert h[i].fields == heap[id].fields + [f];
      }
    }
  }

  class Deriver {
    /** What each class name stands for. */
    const classes: ClassTable
    /** The caller's `known_type_deserializers`. */
    ghost const given: map<TypeAnn, Deser>
    /** known_type_deserializers */
    var known: map<TypeAnn, Deser>
    /** Every closure created so far, by id. */
    var heap: seq<Closure>
    /** The class each closure of the heap was registered for. */
    ghost var owner: seq<string>

    ghost predicate Valid()
      reads this
    {
      CacheRefsIn(known, |heap|) && HeapClosed(heap)
      && |owner| == |heap| && CacheFits(classes, given, owner, known)
    }

    /** The classes of the table without an entry in the cache. */
    function Uncached(): set<string>
      reads this
    {
      UncachedOf(classes, known)
    }

    /** A deriver over `classes` with the caller's `known_type_deserializers`;
        the caller's deserializers refer to no closure of the heap. */
    constructor (classes: ClassTable, seed: map<TypeAnn, Deser>)
      requires CacheRefsIn(seed, 0)
      ensures Valid()
      ensures this.classes == classes && given == seed && known == seed && heap == []
    {
      this.classes := classes;
      given := seed;
      known := seed;
      heap := [];
      owner := [];
    }

    /** get_deserializer_from_type */
    method FromType(t: TypeAnn) returns (r: Result<Deser, Exc>)
      requires Valid()
      modifies this
      decreases Uncached(), TSize(t), 1
      ensures Valid() && old(heap) <= heap && old(owner) <= owner
      ensures Extends(old(known), known)
      ensures r.Success? ==> RefsIn(r.value, |heap|) && Fits(classes, given, owner, t, r.value)
      ensures t in old(known) ==> r == Success(old(known)[t]) && known == old(known) && heap == old(heap)
      ensures t !in old(known) ==> Derived(classes, given, owner, known, heap, t, r)
    {
      if t in known {
        return Success(known[t]);
      }
      match t {
        case TStr => return Success(DStr);
        case TInt => return Success(DInt);
        case TFloat => return Success(DFloat);
        case TBool => return Success(DBool);
        case TNone => return Success(DNone);
        case TClass(n) => r := FromClass(n);
        case TDatetime => return Failure(NoDerivedFor(t));
        case TEllipsis => return Failure(NoDerivedFor(t));
        case TLiteral(values) =>
          if |values| == 0 {
            return Failure(NoDerivedFor(t));
          }
          if !AllLiteralArgs(values) {
            return Failure(AssertionError);
          }
          return Success(DLiteral(values));
        case TGeneric(_, args) =>
          if |args| == 0 {
            return Failure(NoDerivedFor(t));
          }
          r := FromGeneric(t);
      }
    }

    /** get_deserializer_from_type on a class without a cache entry: dataclass, TypedDict, Enum or other. */
    method FromClass(n: string) returns (r: Result<Deser, Exc>)
      requires Valid() && TClass(n) !in known
      modifies this
      decreases Uncached(), 1, 0
      ensures Valid() && old(heap) <= heap && old(owner) <= owner
      ensures Extends(old(known), known)
      ensures r.Success? ==> RefsIn(r.value, |heap|) && Built(classes, given, owner, TClass(n), r.value)
      ensures Derived(classes, given, owner, known, heap, TClass(n), r)
    {
      match ClassOf(classes, n) {
        case Dataclass(_) => r := Dataclass(n);
        case TypedDict(_, _) => r := TypedDictDeser(n);
        case EnumClass(ms) => r := Success(DEnum(n, ms));
        case PlainClass => r := Failure(NoDerivedFor(TClass(n)));
      }
    }

    /** get_deserializer_from_type past the `origin is None or len(args) == 0` test. */
    method FromGeneric(t: TypeAnn) returns (r: Result<Deser, Exc>)
      requires Valid() && t.TGeneric? && |t.args| > 0
      modifies this
      decreases Uncached(), TSize(t), 0
      ensures Valid() && old(heap) <= heap && old(owner) <= owner
      ensures Extends(old(known), known)
      ensures r.Success? ==> RefsIn(r.value, |heap|) && Built(classes, given, owner, t, r.value)
      ensures GenericFails(t, r)
    {
      var args := t.args;
      if IsHomTuple(t) {
        if |args| != 2 {
          return Failure(PlainException);
        }
        var a := FromType(args[0]);
        if a.Failure? {
          return Failure(a.error);
        }
        return Success(DHomTuple(a.value));
      }
      var ds := FromTypes(args);
      if ds.Failure? {
        return Failure(ds.error);
      }
      var combined := CombineArgs(args, ds.value);
      if combined.Failure? {
        return Failure(combined.error);
      }
      CombineFits(classes, given, owner, t, ds.value);
      match t.origin {
        case OTuple => r := Success(DTuple(ds.value));
        case OList => r := Success(DList(combined.value));
        case OSet => r := Success(DSet(combined.value));
        case ODict => r := if |args| >= 2 then Success(DDict(ds.value[0], ds.value[1])) else Failure(IndexError);
        case OUnion => r := Success(combined.value);
        case OOther(_) => r := Failure(NoDerivedFor(t));
      }
    }

    /** `[get_deserializer_from_type(arg, ...) for arg in args]` */
    method FromTypes(args: seq<TypeAnn>) returns (r: Result<seq<Deser>, Exc>)
      requires Valid()
      modifies this
      decreases Uncached(), TSizes(args), 0
      ensures Valid() && old(heap) <= heap && old(owner) <= owner
      ensures Extends(old(known), known)
      ensures r.Success? ==> ArgsFit(classes, given, owner, args, r.value)
                             && forall j | 0 <= j < |args| :: RefsIn(r.value[j], |heap|)
    {
      var ds: seq<Deser> := [];
      for i := 0 to |args|
        invariant |ds| == i
        invariant Valid() && old(heap) <= heap && old(owner) <= owner
        invariant Extends(old(known), known) && Uncached() <= old(Uncached())
        invariant forall j | 0 <= j < i :: RefsIn(ds[j], |heap|)
        invariant forall j | 0 <= j < i :: Fits(classes, given, owner, args[j], ds[j])
      {
        ghost var n, o := |heap|, owner;
        var a := FromArg(args[i]);
        if a.Failure? {
          return Failure(a.error);
        }
        ArgsStep(classes, given, o, owner, args, ds, a.value, n, |heap|);
        ds := ds + [a.value];
      }
      return Success(ds);
    }

    /** One argument of `deserialize_args`: get_deserializer_from_type on it. */
    method FromArg(t: TypeAnn) returns (r: Result<Deser, Exc>)
      requires Valid()
      modifies this
      decreases Uncached(), TSize(t), 2
      ensures Valid() && old(heap) <= heap && old(owner) <= owner
      ensures Extends(old(known), known) && Uncached() <= old(Uncached())
      ensures r.Success? ==> RefsIn(r.value, |heap|) && Fits(classes, given, owner, t, r.value)
    {
      r := FromType(t);
    }

    /** get_dataclass_deserializer. `name` need not be a dataclass: `fields(CLS)`
        then raises TypeError after the registration. */
    method Dataclass(name: string) returns (r: Result<Deser, Exc>)
      requires Valid()
      modifies this
      decreases Uncached() + {name}, 0, 2
      ensures Valid() && |old(heap)| < |heap| && heap[..|old(heap)|] == old(heap)
      ensures old(owner) <= owner && owner[|old(heap)|] == name
      ensures old(known) == map[] ==> known == map[]
      ensures Extends(old(known) - {TClass(name)}, known)
      ensures r.Success? && old(known) != map[] ==> TClass(name) in known && known[TClass(name)] == r.value
      ensures r.Success? ==> r == Success(DRef(|old(heap)|)) && ClassOf(classes, name).Dataclass?
                             && DataclassClosureFor(classes, given, owner, heap[|old(heap)|], name, ClassOf(classes, name).fields)
      ensures !ClassOf(classes, name).Dataclass? ==> r == Failure(TypeError)
      ensures r.Failure? && r.error.NoDerivedDeserializer? ==>
        TClass(name) !in known && ClassOf(classes, name).Dataclass?
        && TraceStartsWithField(r.error.trace, name, ClassOf(classes, name).fields)
      ensures r.Failure? && !r.error.NoDerivedDeserializer? && old(known) != map[] ==> TClass(name) in known
    {
      var shared := known != map[];
      var def := ClassOf(classes, name);
      var required := if def.Dataclass? then RequiredNames(def.fields) else [];
      var defaults := if def.Dataclass? then Defaults(def.fields) else map[];
      // known_type_deserializers[CLS] = deserialize_dataclass
      var id := Register(name, DataclassClosure(name, required, defaults, []));
      if !def.Dataclass? {
        r := Failure(TypeError);
      } else {
        r := DataclassFields(name, id, def.fields);
      }
      if !shared {
        known := map[];
      }
    }

    /** Registers an empty closure for class `name` in the cache before its fields are
        derived, so that a field of the class's own type refers to it. */
    method Register(name: string, c: Closure) returns (id: nat)
      requires Valid() && c.fields == []
      modifies this
      ensures Valid() && id == |old(heap)| && heap == old(heap) + [c] && owner == old(owner) + [name]
      ensures known == old(known)[TClass(name) := DRef(id)]
    {
      id := |heap|;
      HeapGrowKeepsRefs(known, heap, c);
      CacheGrow(classes, given, owner, owner + [name], known);
      heap := heap + [c];
      owner := owner + [name];
      known := known[TClass(name) := DRef(id)];
    }

    /** The field loop of get_dataclass_deserializer, filling closure `id`. */
    method DataclassFields(name: string, id: nat, fields: seq<DataField>) returns (r: Result<Deser, Exc>)
      requires Valid() && id == |heap| - 1 && TClass(name) in known && known[TClass(name)] == DRef(id)
      requires heap[id] == DataclassClosure(name, RequiredNames(fields), Defaults(fields), [])
      modifies this
      decreases Uncached() + {name}, 0, 1
      ensures Valid() && |old(heap)| <= |heap| && heap[..id] == old(heap)[..id] && old(owner) <= owner
      ensures Extends(old(known) - {TClass(name)}, known)
      ensures r.Success? ==> Extends(old(known), known) && r == Success(DRef(id))
                             && DataclassClosureFor(classes, given, owner, heap[id], name, fields)
      ensures r.Failure? && r.error.NoDerivedDeserializer? ==>
        TClass(name) !in known && TraceStartsWithField(r.error.trace, name, fields)
      ensures r.Failure? && !r.error.NoDerivedDeserializer? ==> TClass(name) in known
    {
      for i := 0 to |fields|
        invariant Valid() && id < |heap| && heap[..id] == old(heap)[..id] && old(owner) <= owner
        invariant Extends(old(known), known)
        invariant DataclassPartial(classes, given, owner, heap[id], name, fields, i)
      {
        ghost var h, o := heap, owner;
        ExtendsUncached(classes, old(known), known);
        var f := DeriveField(name, id, fields[i].name, fields[i].ann, fields[i].hasDefault);
        if f.Failure? {
          if f.error.NoDerivedDeserializer? {
            RemoveKeeps(old(known), known, TClass(name), |heap|);
            Forget(TClass(name));
            FieldTrace(f.error.trace, name, fields, i);
            return Failure(NoDerivedDeserializer(AddTrace(f.error.trace, [TraceText(name), TraceText(fields[i].name)])));
          }
          return Failure(f.error);
        }
        DataclassPartialStep(classes, given, o, owner, h[id], name, fields, i,
                             FieldDeser(fields[i].name, f.value, fields[i].hasDefault));
      }
      return Success(DRef(id));
    }

    /** `del known_type_deserializers[k]`, after a field of `k` found no deserializer. */
    method Forget(k: TypeAnn)
      requires Valid()
      modifies this
      ensures Valid() && heap == old(heap) && owner == old(owner)
      ensures known == old(known) - {k}
    {
      known := known - {k};
    }

    /** `get_deserializer_from_type(field_type, known_type_deserializers)` for one field
        of the closure `id` of class `name`; a derived deserializer is put in that closure. */
    method DeriveField(name: string, id: nat, key: string, ann: TypeAnn, optional: bool) returns (r: Result<Deser, Exc>)
      requires Valid() && id < |heap| && TClass(name) in known
      modifies this
      decreases Uncached() + {name}, 0, 0
      ensures Valid() && id < |heap| && heap[..id] == old(heap)[..id] && old(owner) <= owner
      ensures Extends(old(known), known)
      ensures r.Success? ==> heap[id] == AddField(old(heap)[id], FieldDeser(key, r.value, optional))
                             && Fits(classes, given, owner, ann, r.value)
    {
      ghost var h := heap;
      var f := FromType(ann);
      assert heap[id] == h[id] && heap[..id] == h[..id];
      if f.Failure? {
        return f;
      }
      var fd := FieldDeser(key, f.value, optional);
      HeapSetKeepsRefs(heap, id, fd);
      heap := heap[id := AddField(heap[id], fd)];
      return f;
    }

    /** get_typeddict_deserializer */
    method TypedDictDeser(name: string) returns (r: Result<Deser, Exc>)
      requires Valid() && ClassOf(classes, name).TypedDict? && TClass(name) !in known
      modifies this
      decreases Uncached() + {name}, 0, 2
      ensures Valid() && old(heap) <= heap && old(owner) <= owner
      ensures !ClassOf(classes, name).total ==>
        r == Failure(NoDerivedDeserializer(AddTrace([], [TraceText(name), TraceText("is not a total TypedDict")])))
        && known == old(known) && heap == old(heap)
      ensures Extends(old(known) - {TClass(name)}, known)
      ensures r.Success? ==> TClass(name) in known
      ensures r.Success? ==> r == Success(DRef(|old(heap)|)) && |old(heap)| < |heap| && owner[|old(heap)|] == name
                             && TypedDictClosureFor(classes, given, owner, heap[|old(heap)|], ClassOf(classes, name).annotations)
      ensures r.Failure? && r.error.NoDerivedDeserializer? ==> TClass(name) !in known
    {
      var def := ClassOf(classes, name);
      if !def.total {
        return Failure(NoDerivedDeserializer(AddTrace([], [TraceText(name), TraceText("is not a total TypedDict")])));
      }
      // known_type_deserializers[typeddict] = deserialize_typed_dict
      var id := Register(name, TypedDictClosure([]));
      r := TypedDictFields(name, id, def.annotations);
    }

    /** The annotation loop of get_typeddict_deserializer, filling closure `id`. */
    method TypedDictFields(name: string, id: nat, anns: seq<Annotation>) returns (r: Result<Deser, Exc>)
      requires Valid() && id == |heap| - 1 && TClass(name) in known && known[TClass(name)] == DRef(id)
      requires heap[id] == TypedDictClosure([])
      modifies this
      decreases Uncached() + {name}, 0, 1
      ensures Valid() && |old(heap)| <= |heap| && heap[..id] == old(heap)[..id] && old(owner) <= owner
      ensures Extends(old(known) - {TClass(name)}, known)
      ensures r.Success? ==> TClass(name) in known && r == Success(DRef(id))
                             && TypedDictClosureFor(classes, given, owner, heap[id], anns)
      ensures r.Failure? && r.error.NoDerivedDeserializer? ==> TClass(name) !in known
    {
      for i := 0 to |anns|
        invariant Valid() && id < |heap| && heap[..id] == old(heap)[..id] && old(owner) <= owner
        invariant Extends(old(known), known)
        invariant heap[id].TypedDictClosure? && KeysSoFar(classes, given, owner, heap[id].fields, anns, i)
      {
        ghost var h, o := heap, owner;
        ExtendsUncached(classes, old(known), known);
        var f := DeriveField(name, id, anns[i].name, anns[i].ann, false);
        if f.Failure? {
          if f.error.NoDerivedDeserializer? {
            RemoveKeeps(old(known), known, TClass(name), |heap|);
            Forget(TClass(name));
            return Failure(NoDerivedDeserializer(AddTrace(f.error.trace, [TraceText(anns[i].name)])));
          }
          return Failure(f.error);
        }
        KeysSoFarStep(classes, given, o, owner, h[id].fields, anns, i, FieldDeser(anns[i].name, f.value, false));
      }
      return Success(DRef(id));
    }

    /** The deserializer generate_deserializer builds for one model field, before the
        nullable wrapper: a fixed one, one derived from the field's type hint or
        dataclass, or the exception the field raises. */
    method ForField(m: PeeweeModel, f: ModelField) returns (r: Result<Deser, Exc>)
      requires Valid()
      modifies this
      ensures Valid() && old(heap) <= heap && old(owner) <= owner
      ensures r.Success? ==> RefsIn(r.value, |heap|)
      ensures DirectDeser(m.hints, f).Some? ==>
        r == Success(DirectDeser(m.hints, f).value) && known == old(known) && heap == old(heap)
      ensures Rejected(m, f).Some? ==> r == Failure(Rejected(m, f).value)
      ensures r.Success? ==> ColumnFits(classes, given, owner, heap, m, f, r.value)
      ensures f.kind.DataClassField? && (f.kind.shape.DictOf? || f.kind.shape.DictOfLists?) ==> r.Failure?
    {
      match f.kind {
        case IntegerField => return Success(DInt);
        case FloatField => return Success(DFloat);
        case BooleanField => return Success(DBool);
        case CharField =>
          if f.name in m.hints && m.hints[f.name].TLiteral? {
            r := FromType(m.hints[f.name]);
          } else {
            r := Success(DStr);
          }
        case TextField =>
          if f.name in m.hints && m.hints[f.name].TLiteral? {
            r := FromType(m.hints[f.name]);
          } else {
            r := Success(DStr);
          }
        case TextSubclassField =>
          if f.name !in m.hints {
            return Failure(PlainException);
          } else if m.hints[f.name] != TStr {
            r := FromType(m.hints[f.name]);
          } else {
            r := Success(DStr);
          }
        case ForeignKeyField(col) =>
          if IntColumn(col) {
            return Success(DInt);
          }
          return Failure(UnsupportedField(m, f));
        case DataClassField(shape, cls) =>
          var d := Dataclass(cls);
          if d.Failure? {
            return d;
          }
          r := ShapeAsWritten(shape, d.value);
        case DateTimeField => return Failure(UnsupportedField(m, f));
        case OtherField => return Failure(UnsupportedField(m, f));
      }
    }

    /** generate_deserializer: a deserializer for every field of the model whose name is
        not in `skip` (`known_field_deserializers`), plus `<name>_id` for a foreign key. */
    method Generate(m: PeeweeModel, skip: set<string>) returns (r: Result<map<string, Deser>, Exc>)
      requires Valid()
      modifies this
      ensures Valid() && old(heap) <= heap && old(owner) <= owner
      ensures old(known) == map[] ==> known == map[]
      ensures r.Success? ==> r.value.Keys == OutputNames(m.fields, skip, |m.fields|) && OutRefsIn(r.value, |heap|)
      ensures r.Success? && NoClash(m.fields) ==> DirectUpTo(m, skip, r.value, |m.fields|)
      ensures r.Success? && NoClash(m.fields) ==> DerivedUpTo(classes, given, owner, heap, m, skip, r.value, |m.fields|)
      ensures FirstDerived(m, skip, 0) == |m.fields| ==> r.Success?
      ensures FirstRejected(m, skip) ==> r == Failure(Rejected(m, m.fields[FirstDerived(m, skip, 0)]).value)
    {
      // known_type_deserializers = known_type_deserializers or {}
      var shared := known != map[];
      r := GenerateFields(m, skip);
      if !shared {
        known := map[];
      }
    }

    /** One iteration of generate_deserializer's loop, on a field that is not skipped. */
    method GenerateField(m: PeeweeModel, skip: set<string>, output: map<string, Deser>, i: nat)
      returns (r: Result<map<string, Deser>, Exc>)
      requires Valid() && i < |m.fields| && m.fields[i].name !in skip && OutRefsIn(output, |heap|)
      modifies this
      ensures Valid() && old(heap) <= heap && old(owner) <= owner
      ensures r.Success? ==> r.value.Keys == output.Keys + FieldKeys(m.fields[i]) && OutRefsIn(r.value, |heap|)
      ensures r.Success? && NoClash(m.fields) && DirectUpTo(m, skip, output, i) ==> DirectUpTo(m, skip, r.value, i + 1)
      ensures r.Success? && NoClash(m.fields) && DerivedUpTo(classes, given, old(owner), old(heap), m, skip, output, i) ==>
        DerivedUpTo(classes, given, owner, heap, m, skip, r.value, i + 1)
      ensures r.Failure? ==> DirectDeser(m.hints, m.fields[i]).None?
      ensures Rejected(m, m.fields[i]).Some? ==> r == Failure(Rejected(m, m.fields[i]).value)
    {
      ghost var h, o := heap, owner;
      var d := ForField(m, m.fields[i]);
      if d.Failure? {
        return Failure(d.error);
      }
      OutRefsGrow(output, |h|, |heap|);
      PutRefs(output, m.fields[i], d.value, |heap|);
      if NoClash(m.fields) && DirectUpTo(m, skip, output, i) {
        PutKeepsDirect(m, skip, output, i, d.value);
      }
      if NoClash(m.fields) && DerivedUpTo(classes, given, o, h, m, skip, output, i) {
        DerivedGrow(classes, given, o, owner, h, heap, m, skip, output, i);
        PutKeepsDerived(classes, given, owner, heap, m, skip, output, i, d.value);
      }
      return Success(Put(output, m.fields[i], d.value));
    }

    /** The field loop of generate_deserializer. */
    method GenerateFields(m: PeeweeModel, skip: set<string>) returns (r: Result<map<string, Deser>, Exc>)
      requires Valid()
      modifies this
      ensures Valid() && old(heap) <= heap && old(owner) <= owner
      ensures r.Success? ==> r.value.Keys == OutputNames(m.fields, skip, |m.fields|) && OutRefsIn(r.value, |heap|)
      ensures r.Success? && NoClash(m.fields) ==> DirectUpTo(m, skip, r.value, |m.fields|)
      ensures r.Success? && NoClash(m.fields) ==> DerivedUpTo(classes, given, owner, heap, m, skip, r.value, |m.fields|)
      ensures FirstDerived(m, skip, 0) == |m.fields| ==> r.Success?
      ensures FirstRejected(m, skip) ==> r == Failure(Rejected(m, m.fields[FirstDerived(m, skip, 0)]).value)
    {
      var output: map<string, Deser> := map[];
      var fs := m.fields;
      FirstDerivedAt(m, skip, 0);
      ghost var first := FirstDerived(m, skip, 0);
      ghost var rejected := FirstRejected(m, skip);
      ghost var clash := !NoClash(fs);
      var i := 0;
      while i < |fs|
        invariant 0 <= i <= |fs|
        invariant Valid() && old(heap) <= heap && old(owner) <= owner
        invariant output.Keys == OutputNames(fs, skip, i) && OutRefsIn(output, |heap|)
        invariant !clash ==> DirectUpTo(m, skip, output, i)
        invariant !clash ==> DerivedUpTo(classes, given, owner, heap, m, skip, output, i)
        invariant rejected ==> i <= first
      {
        if fs[i].name in skip {
          assert rejected ==> i != first;
          assert DirectAt(m, skip, output, i);
          assert DerivedAt(classes, given, owner, heap, m, skip, output, i);
        } else {
          var next := GenerateField(m, skip, output, i);
          if next.Failure? {
            FirstDerivedLe(m, skip, 0, i);
            assert rejected ==> i == first;
            return Failure(next.error);
          }
          assert rejected ==> i != first;
          output := next.value;
        }
        i := i + 1;
      }
      return Success(output);
    }
  }

  // ---------------------------------------------------------------------
  // generate_deserializer, field by field.

  predicate OutRefsIn(out: map<string, Deser>, n: nat) {
    forall k | k in out :: RefsIn(out[k], n)
  }

  lemma OutRefsGrow(out: map<string, Deser>, n: nat, m: nat)
    requires OutRefsIn(out, n) && n <= m
    ensures OutRefsIn(out, m)
  {
    forall k | k in out ensures RefsIn(out[k], m) {
      RefsInMono(out[k], n, m);
    }
  }

  /** `get_deserialize_nullable(func)` when the column is nullable. */
  function Wrap(nullable: bool, d: Deser): (r: Deser)
    ensures nullable ==> r == DNullable(d)
    ensures !nullable ==> r == d
  {
    if nullable then DNullable(d) else d
  }

  /** The deserializer a field gets without looking at a type annotation, if any. */
  function DirectDeser(hints: map<string, TypeAnn>, f: ModelField): Option<Deser> {
    match f.kind
    case IntegerField => Some(DInt)
    case FloatField => Some(DFloat)
    case BooleanField => Some(DBool)
    case CharField => if f.name in hints && hints[f.name].TLiteral? then None else Some(DStr)
    case TextField => if f.name in hints && hints[f.name].TLiteral? then None else Some(DStr)
    case TextSubclassField => if f.name in hints && hints[f.name] == TStr then Some(DStr) else None
    case ForeignKeyField(col) => if IntColumn(col) then Some(DInt) else None
    case _ => None
  }

  /** `NoDerivedDeserializer().add_trace(Model.__qualname__, name)`. */
  function UnsupportedField(m: PeeweeModel, f: ModelField): Exc {
    NoDerivedDeserializer(AddTrace([], [TraceText(m.qualname), TraceText(f.name)]))
  }

  /** The message names the model, then the field. */
  lemma UnsupportedFieldTrace(m: PeeweeModel, f: ModelField)
    ensures UnsupportedField(m, f).NoDerivedDeserializer?
    ensures RenderTrace(UnsupportedField(m, f).trace) == [TraceText(m.qualname), TraceText(f.name)]
  {
    RenderAddTrace([], [TraceText(m.qualname), TraceText(f.name)]);
  }

  /** The exception a field raises whatever the type annotations say, if any. */
  function Rejected(m: PeeweeModel, f: ModelField): Option<Exc> {
    match f.kind
    case TextSubclassField => if f.name !in m.hints then Some(PlainException) else None
    case ForeignKeyField(col) => if IntColumn(col) then None else Some(UnsupportedField(m, f))
    case DateTimeField => Some(UnsupportedField(m, f))
    case OtherField => Some(UnsupportedField(m, f))
    case _ => None
  }

  /** The wrapping of a dataclass deserializer by field class, as written: the dict
      shapes call the two-argument `get_deserialize_dict` with one argument. */
  function ShapeAsWritten(shape: Shape, d: Deser): Result<Deser, Exc> {
    match shape
    case Single => Success(d)
    case ListOf => Success(DList(d))
    case DictOf => Failure(TypeError)
    case DictOfLists => Failure(TypeError)
  }

  /** `output[f"{name}_id"] = func` for a foreign key, then `output[name] = func`, wrapped when nullable. */
  function Put(out: map<string, Deser>, f: ModelField, d: Deser): (r: map<string, Deser>)
    ensures r.Keys == out.Keys + FieldKeys(f)
  {
    var o := if f.kind.ForeignKeyField? then out[f.name + "_id" := d] else out;
    o[f.name := Wrap(f.nullable, d)]
  }

  lemma PutRefs(out: map<string, Deser>, f: ModelField, d: Deser, n: nat)
    requires OutRefsIn(out, n) && RefsIn(d, n)
    ensures OutRefsIn(Put(out, f, d), n)
  {
    assert RefsIn(Wrap(f.nullable, d), n);
  }

  /** The keys a (not skipped) field adds to the output. */
  function FieldKeys(f: ModelField): set<string> {
    if f.kind.ForeignKeyField? then {f.name, f.name + "_id"} else {f.name}
  }

  /** The keys of generate_deserializer's output for the first `n` fields. */
  function OutputNames(fields: seq<ModelField>, skip: set<string>, n: nat): set<string>
    requires n <= |fields|
  {
    if n == 0 then {}
    else OutputNames(fields, skip, n - 1) + (if fields[n - 1].name in skip then {} else FieldKeys(fields[n - 1]))
  }

  /** No field is named like another (foreign key) field's `_id` column, so no write overwrites another field's. */
  predicate NoClash(fields: seq<ModelField>) {
    && DistinctNames(fields)
    && forall i, j | 0 <= i < |fields| && 0 <= j < |fields| && fields[j].kind.ForeignKeyField? ::
         fields[i].name != fields[j].name + "_id"
  }

  /** Field `i`, when not skipped and not derived from an annotation, has its fixed deserializer. */
  predicate DirectAt(m: PeeweeModel, skip: set<string>, out: map<string, Deser>, i: nat)
    requires i < |m.fields|
  {
    var f := m.fields[i];
    f.name !in skip && DirectDeser(m.hints, f).Some? ==>
      && f.name in out && out[f.name] == Wrap(f.nullable, DirectDeser(m.hints, f).value)
      && (f.kind.ForeignKeyField? ==> f.name + "_id" in out && out[f.name + "_id"] == DInt)
  }

  predicate DirectUpTo(m: PeeweeModel, skip: set<string>, out: map<string, Deser>, n: nat)
    requires n <= |m.fields|
  {
    forall i | 0 <= i < n :: DirectAt(m, skip, out, i)
  }

  lemma PutKeepsDirect(m: PeeweeModel, skip: set<string>, out: map<string, Deser>, i: nat, d: Deser)
    requires NoClash(m.fields) && i < |m.fields| && DirectUpTo(m, skip, out, i)
    requires DirectDeser(m.hints, m.fields[i]).Some? ==> d == DirectDeser(m.hints, m.fields[i]).value
    ensures DirectUpTo(m, skip, Put(out, m.fields[i], d), i + 1)
  {
    var f := m.fields[i];
    var o := Put(out, f, d);
    assert f.name != f.name + "_id";
    forall j | 0 <= j < i ensures DirectAt(m, skip, o, j) {
      var g := m.fields[j];
      assert DirectAt(m, skip, out, j);
      assert g.name != f.name;
      assert f.kind.ForeignKeyField? ==> g.name != f.name + "_id";
      if g.kind.ForeignKeyField? {
        assert f.name != g.name + "_id";
        if f.kind.ForeignKeyField? {
          IdSuffixInjective(f.name, g.name);
        }
        if g.name + "_id" in out {
          assert o[g.name + "_id"] == out[g.name + "_id"];
        }
      }
      if g.name in out {
        assert o[g.name] == out[g.name];
      }
    }
  }

  /** `d` refers to a complete closure of dataclass `cls`. */
  predicate ClosureRef(classes: ClassTable, given: map<TypeAnn, Deser>, owner: seq<string>, heap: seq<Closure>,
                       cls: string, d: Deser) {
    && d.DRef? && d.id < |heap| && d.id < |owner| && owner[d.id] == cls
    && ClassOf(classes, cls).Dataclass?
    && DataclassClosureFor(classes, given, owner, heap[d.id], cls, ClassOf(classes, cls).fields)
  }

  /** What a column without a fixed deserializer gets, before the nullable wrapper: a
      Literal-hinted char or text column, or a text subclass hinted with something other
      than str, what get_deserializer_from_type gives for its hint; a dataclass column
      a reference to its class's closure, alone or as the list's item. */
  predicate ColumnFits(classes: ClassTable, given: map<TypeAnn, Deser>, owner: seq<string>, heap: seq<Closure>,
                       m: PeeweeModel, f: ModelField, d: Deser) {
    match f.kind
    case DataClassField(shape, cls) =>
      || (shape.Single? && ClosureRef(classes, given, owner, heap, cls, d))
      || (shape.ListOf? && d.DList? && ClosureRef(classes, given, owner, heap, cls, d.item))
    case _ => DirectDeser(m.hints, f).None? && f.name in m.hints ==> Fits(classes, given, owner, m.hints[f.name], d)
  }

  /** The same after `get_deserialize_nullable` on a nullable column. */
  predicate WrappedFits(classes: ClassTable, given: map<TypeAnn, Deser>, owner: seq<string>, heap: seq<Closure>,
                        m: PeeweeModel, f: ModelField, w: Deser) {
    if f.nullable then w.DNullable? && ColumnFits(classes, given, owner, heap, m, f, w.inner)
    else ColumnFits(classes, given, owner, heap, m, f, w)
  }

  /** Field `i`, when not skipped and derived from its annotation, has a fitting deserializer. */
  predicate DerivedAt(classes: ClassTable, given: map<TypeAnn, Deser>, owner: seq<string>, heap: seq<Closure>,
                      m: PeeweeModel, skip: set<string>, out: map<string, Deser>, i: nat)
    requires i < |m.fields|
  {
    var f := m.fields[i];
    f.name !in skip && DirectDeser(m.hints, f).None? ==>
      f.name in out && WrappedFits(classes, given, owner, heap, m, f, out[f.name])
  }

  predicate DerivedUpTo(classes: ClassTable, given: map<TypeAnn, Deser>, owner: seq<string>, heap: seq<Closure>,
                        m: PeeweeModel, skip: set<string>, out: map<string, Deser>, n: nat)
    requires n <= |m.fields|
  {
    forall i | 0 <= i < n :: DerivedAt(classes, given, owner, heap, m, skip, out, i)
  }

  lemma FieldsSoFarGrow(classes: ClassTable, given: map<TypeAnn, Deser>, owner: seq<string>, owner': seq<string>,
                        fs: seq<FieldDeser>, fields: seq<DataField>, n: nat)
    requires FieldsSoFar(classes, given, owner, fs, fields, n) && owner <= owner'
    ensures FieldsSoFar(classes, given, owner', fs, fields, n)
  {
    forall j | 0 <= j < n ensures Fits(classes, given, owner', fields[j].ann, fs[j].deser) {
      FitsGrow(classes, given, owner, owner', fields[j].ann, fs[j].deser);
    }
  }

  /** Registering and filling more closures keeps a column's deserializer fitting. */
  lemma ColumnFitsGrow(classes: ClassTable, given: map<TypeAnn, Deser>, owner: seq<string>, owner': seq<string>,
                       heap: seq<Closure>, heap': seq<Closure>, m: PeeweeModel, f: ModelField, d: Deser)
    requires owner <= owner' && heap <= heap' && ColumnFits(classes, given, owner, heap, m, f, d)
    ensures ColumnFits(classes, given, owner', heap', m, f, d)
  {
    if f.kind.DataClassField? {
      var ref := if f.kind.shape.Single? then d else d.item;
      assert heap'[ref.id] == heap[ref.id] && owner'[ref.id] == owner[ref.id];
      var fields := ClassOf(classes, f.kind.cls).fields;
      FieldsSoFarGrow(classes, given, owner, owner', heap[ref.id].fields, fields, |fields|);
    } else if DirectDeser(m.hints, f).None? && f.name in m.hints {
      FitsGrow(classes, given, owner, owner', m.hints[f.name], d);
    }
  }

  lemma DerivedGrow(classes: ClassTable, given: map<TypeAnn, Deser>, owner: seq<string>, owner': seq<string>,
                    heap: seq<Closure>, heap': seq<Closure>, m: PeeweeModel, skip: set<string>,
                    out: map<string, Deser>, n: nat)
    requires owner <= owner' && heap <= heap' && n <= |m.fields|
    requires DerivedUpTo(classes, given, owner, heap, m, skip, out, n)
    ensures DerivedUpTo(classes, given, owner', heap', m, skip, out, n)
  {
    forall i | 0 <= i < n ensures DerivedAt(classes, given, owner', heap', m, skip, out, i) {
      var f := m.fields[i];
      if f.name !in skip && DirectDeser(m.hints, f).None? {
        assert DerivedAt(classes, given, owner, heap, m, skip, out, i);
        var w := out[f.name];
        ColumnFitsGrow(classes, given, owner, owner', heap, heap', m, f, if f.nullable then w.inner else w);
      }
    }
  }

  /** Putting field `i` in the output keeps the earlier fields' entries, and adds its own. */
  lemma PutKeepsDerived(classes: ClassTable, given: map<TypeAnn, Deser>, owner: seq<string>, heap: seq<Closure>,
                        m: PeeweeModel, skip: set<string>, out: map<string, Deser>, i: nat, d: Deser)
    requires NoClash(m.fields) && i < |m.fields| && DerivedUpTo(classes, given, owner, heap, m, skip, out, i)
    requires ColumnFits(classes, given, owner, heap, m, m.fields[i], d)
    ensures DerivedUpTo(classes, given, owner, heap, m, skip, Put(out, m.fields[i], d), i + 1)
  {
    var f := m.fields[i];
    var o := Put(out, f, d);
    assert o[f.name] == Wrap(f.nullable, d);
    forall j | 0 <= j < i ensures DerivedAt(classes, given, owner, heap, m, skip, o, j) {
      var g := m.fields[j];
      assert DerivedAt(classes, given, owner, heap, m, skip, out, j);
      assert g.name != f.name;
      assert f.kind.ForeignKeyField? ==> g.name != f.name + "_id";
      if g.name in out {
        assert o[g.name] == out[g.name];
      }
    }
  }

  lemma IdSuffixInjective(a: string, b: string)
    requires a != b
    ensures a + "_id" != b + "_id"
  {
    if |a| == |b| {
      assert (a + "_id")[..|a|] == a;
      assert (b + "_id")[..|b|] == b;
    } else {
      assert |a + "_id"| != |b + "_id"|;
    }
  }

  /** The position of the first field, from `i` on, that is not skipped and needs more
      than a fixed deserializer; `|fields|` when there is none. */
  function FirstDerived(m: PeeweeModel, skip: set<string>, i: nat): (k: nat)
    requires i <= |m.fields|
    ensures i <= k <= |m.fields|
    decreases |m.fields| - i
  {
    if i == |m.fields| then i
    else if m.fields[i].name !in skip && DirectDeser(m.hints, m.fields[i]).None? then i
    else FirstDerived(m, skip, i + 1)
  }

  /** The first such field raises whatever its annotation says. */
  predicate FirstRejected(m: PeeweeModel, skip: set<string>) {
    FirstDerived(m, skip, 0) < |m.fields| && Rejected(m, m.fields[FirstDerived(m, skip, 0)]).Some?
  }

  lemma {:induction false} FirstDerivedAt(m: PeeweeModel, skip: set<string>, i: nat)
    requires i <= |m.fields|
    ensures FirstDerived(m, skip, i) < |m.fields| ==>
      m.fields[FirstDerived(m, skip, i)].name !in skip && DirectDeser(m.hints, m.fields[FirstDerived(m, skip, i)]).None?
    decreases |m.fields| - i
  {
    if i < |m.fields| && !(m.fields[i].name !in skip && DirectDeser(m.hints, m.fields[i]).None?) {
      FirstDerivedAt(m, skip, i + 1);
    }
  }

  lemma {:induction false} FirstDerivedLe(m: PeeweeModel, skip: set<string>, i: nat, j: nat)
    requires i <= j < |m.fields| && m.fields[j].name !in skip && DirectDeser(m.hints, m.fields[j]).None?
    ensures FirstDerived(m, skip, i) <= j
    decreases j - i
  {
    if i < j && !(m.fields[i].name !in skip && DirectDeser(m.hints, m.fields[i]).None?) {
      FirstDerivedLe(m, skip, i + 1, j);
    }
  }

  /** What `get_deserializer_from_type` gives for an annotation without a cache entry,
      in the cache and heap it leaves, beyond `Fits`: which annotations fail and how,
      and that a class's closure is complete when it is returned. */
  predicate Derived(classes: ClassTable, given: map<TypeAnn, Deser>, owner: seq<string>,
                    known: map<TypeAnn, Deser>, heap: seq<Closure>, t: TypeAnn, r: Result<Deser, Exc>) {
    && (Primitive(t).Some? ==> r == Success(Primitive(t).value))
    && (Underivable(classes, t) ==> r == Failure(NoDerivedDeserializer([TraceType(t)])))
    && (t.TClass? && ClassOf(classes, t.name).EnumClass? ==>
          r == Success(DEnum(t.name, ClassOf(classes, t.name).members)))
    && (t.TClass? && ClassOf(classes, t.name).Dataclass? && r.Success? ==>
          r.value.DRef? && r.value.id < |heap|
          && DataclassClosureFor(classes, given, owner, heap[r.value.id], t.name, ClassOf(classes, t.name).fields))
    && (t.TClass? && ClassOf(classes, t.name).TypedDict? && r.Success? ==>
          r.value.DRef? && r.value.id < |heap|
          && TypedDictClosureFor(classes, given, owner, heap[r.value.id], ClassOf(classes, t.name).annotations))
    && (t.TClass? && r.Failure? && r.error.NoDerivedDeserializer?
        && (ClassOf(classes, t.name).Dataclass? || ClassOf(classes, t.name).TypedDict?) ==>
          TClass(t.name) !in known)
    && (t.TLiteral? && |t.values| > 0 ==>
          r == if AllLiteralArgs(t.values) then Success(DLiteral(t.values)) else Failure(AssertionError))
    && (t.TGeneric? && |t.args| > 0 ==> GenericFails(t, r))
  }

  /** How `get_deserializer_from_type` fails on a generic annotation with arguments:
      `Tuple[X, Y, ...]`, an origin it does not know, and `Union[None, None]`. */
  predicate GenericFails(t: TypeAnn, r: Result<Deser, Exc>)
    requires t.TGeneric? && |t.args| > 0
  {
    && (IsHomTuple(t) && |t.args| != 2 ==> r == Failure(PlainException))
    && (t.origin.OOther? ==> r.Failure?)
    && (!IsHomTuple(t) && t.args == [TNone, TNone] ==> r.Failure?)
  }
}
