/**
 * flask_peewee_restful/deserializer.py: the older generator. It never writes
 * into `known_type_deserializers`; a type it cannot handle gives no
 * deserializer (None) instead of an exception, and a dataclass closure is
 * complete when it is returned, so the closures here are `DInline`s.
 *
 * Without a cache a recursive dataclass or TypedDict derives itself again
 * and again until the interpreter gives up: `visiting` holds the classes on
 * the current derivation path, and reaching one of them again is the
 * RecursionError.
 */
module LegacyDeserializer {
  import opened Wrappers
  import opened Py
  import opened Peewee
  import opened Deserializers

  /** The classes a derivation may still enter. */
  function Unvisited(classes: ClassTable, visiting: set<string>): set<string> {
    set n | n in classes && n !in visiting
  }

  lemma VisitShrinks(classes: ClassTable, visiting: set<string>, n: string)
    requires n in classes && n !in visiting
    ensures Unvisited(classes, visiting + {n}) < Unvisited(classes, visiting)
  {
    assert n in Unvisited(classes, visiting);
  }

  /** What the derivation itself can raise: a class that reaches itself recurses until
      RecursionError, a Literal argument that is not a str, int or float fails the
      `assert`, and `Union[None, None]` has no non-None argument to index. Anything it
      cannot handle otherwise gives no deserializer rather than an exception. */
  predicate DeriveError(e: Exc) {
    e == RecursionError || e == AssertionError || e == IndexError
  }

  /** `get_origin(t) is Union and type(None) in get_args(t)`. */
  predicate IsOptionalAnn(t: TypeAnn) {
    t.TGeneric? && t.origin == OUnion && TNone in t.args
  }

  /**
   * get_deserializer_from_type. `Success(None)` is the function's `None`: no
   * deserializer can be derived. The cache is looked up first; then str, int,
   * float and NoneType; then dataclasses and TypedDicts; everything else is
   * taken apart into origin and arguments.
   */
  function FromType(classes: ClassTable, known: map<TypeAnn, Deser>, visiting: set<string>, t: TypeAnn)
    : (r: Result<Option<Deser>, Exc>)
    ensures r.Failure? ==> DeriveError(r.error)
    decreases Unvisited(classes, visiting), TSize(t), 2
  {
    if t in known then Success(Some(known[t]))
    else match t
      case TStr => Success(Some(DStr))
      case TInt => Success(Some(DInt))
      case TFloat => Success(Some(DFloat))
      case TNone => Success(Some(DNone))
      case TClass(n) =>
        (match ClassOf(classes, n)
         case Dataclass(_) => if n in visiting then Failure(RecursionError) else GetDataclass(classes, known, visiting, n)
         case TypedDict(_, _) => if n in visiting then Failure(RecursionError) else GetTypedDict(classes, known, visiting, n)
         case _ => Success(None))
      case TLiteral(values) =>
        if |values| == 0 then Success(None)
        else if AllLiteralArgs(values) then Success(Some(DLiteral(values)))
        else Failure(AssertionError)
      case TGeneric(o, args) => if |args| == 0 then Success(None) else FromGeneric(classes, known, visiting, o, args)
      case _ => Success(None)
  }

  /** The argument deserializers, then `deserialize_args`, then the origin. */
  function FromGeneric(classes: ClassTable, known: map<TypeAnn, Deser>, visiting: set<string>,
                       o: Origin, args: seq<TypeAnn>): (r: Result<Option<Deser>, Exc>)
    requires |args| > 0
    ensures r.Failure? ==> DeriveError(r.error)
    decreases Unvisited(classes, visiting), TSize(TGeneric(o, args)), 1
  {
    match ArgsFrom(classes, known, visiting, args, 0)
    case Failure(e) => Failure(e)
    case Success(xs) =>
      if exists i | 0 <= i < |xs| :: xs[i].None? then Success(None)
      else
        var ds := seq(|xs|, i requires 0 <= i < |xs| && xs[i].Some? => xs[i].value);
        match CombineArgs(args, ds)
        case Failure(e) => Failure(e)
        case Success(d) => Success(ByOrigin(o, d))
  }

  /** `[get_deserializer_from_type(arg, ...) for arg in args[i:]]`: every argument is
      derived; the first exception stops the comprehension. */
  function ArgsFrom(classes: ClassTable, known: map<TypeAnn, Deser>, visiting: set<string>,
                    args: seq<TypeAnn>, i: nat): (r: Result<seq<Option<Deser>>, Exc>)
    requires i <= |args|
    ensures r.Success? ==> |r.value| == |args| - i
    ensures r.Success? ==> forall j | 0 <= j < |r.value| ::
      FromType(classes, known, visiting, args[i + j]) == Success(r.value[j])
    ensures r.Failure? ==> DeriveError(r.error)
    decreases Unvisited(classes, visiting), TSizes(args), |args| - i
  {
    if i == |args| then Success([])
    else
      match FromType(classes, known, visiting, args[i])
      case Failure(e) => Failure(e)
      case Success(x) =>
        match ArgsFrom(classes, known, visiting, args, i + 1)
        case Failure(e) => Failure(e)
        case Success(xs) => Success([x] + xs)
  }

  /** list, set and dict wrap `deserialize_args`; Union is `deserialize_args`; any other
      origin gives no deserializer. */
  function ByOrigin(o: Origin, d: Deser): (r: Option<Deser>)
    ensures r.Some? <==> o.OList? || o.OSet? || o.ODict? || o.OUnion?
    ensures r.Some? ==> r.value in {d, DList(d), DSet(d), DDictValues(d)}
  {
    match o
    case OList => Some(DList(d))
    case OSet => Some(DSet(d))
    case ODict => Some(DDictValues(d))
    case OUnion => Some(d)
    case _ => None
  }

  /** get_dataclass_deserializer(CLS): `fields(CLS)` raises TypeError on a class that is
      not a dataclass. */
  function GetDataclass(classes: ClassTable, known: map<TypeAnn, Deser>, visiting: set<string>, n: string)
    : (r: Result<Option<Deser>, Exc>)
    requires n !in visiting
    ensures r == Failure(TypeError) <==> !ClassOf(classes, n).Dataclass?
    ensures r.Failure? && ClassOf(classes, n).Dataclass? ==> DeriveError(r.error)
    decreases Unvisited(classes, visiting), 1, 1
  {
    match ClassOf(classes, n)
    case Dataclass(fields) =>
      (match FieldsUpTo(classes, known, visiting, n, |fields|)
       case Failure(e) => Failure(e)
       case Success(None) => Success(None)
       case Success(Some(fds)) => Success(Some(DInline(DataclassClosure(n, RequiredNames(fields), Defaults(fields), fds)))))
    case _ => Failure(TypeError)
  }

  /** The field loop of get_dataclass_deserializer over the first `k` fields of class `n`:
      each field's deserializer and its optional flag; None as soon as one field has no
      deserializer. */
  function FieldsUpTo(classes: ClassTable, known: map<TypeAnn, Deser>, visiting: set<string>, n: string, k: nat)
    : (r: Result<Option<seq<FieldDeser>>, Exc>)
    requires ClassOf(classes, n).Dataclass? && n !in visiting && k <= |ClassOf(classes, n).fields|
    ensures n in Unvisited(classes, visiting)
    ensures r.Failure? ==> DeriveError(r.error)
    ensures r.Success? && r.value.Some? ==>
      var fields, fds := ClassOf(classes, n).fields, r.value.value;
      |fds| == k &&
      forall i | 0 <= i < k ::
        && fds[i].name == fields[i].name
        && fds[i].optional == IsOptionalAnn(fields[i].ann)
        && FromType(classes, known, visiting + {n}, fields[i].ann) == Success(Some(fds[i].deser))
    decreases Unvisited(classes, visiting), 0, k
  {
    if k == 0 then Success(Some([]))
    else
      match FieldsUpTo(classes, known, visiting, n, k - 1)
      case Failure(e) => Failure(e)
      case Success(None) => Success(None)
      case Success(Some(fds)) =>
        var f := ClassOf(classes, n).fields[k - 1];
        VisitShrinks(classes, visiting, n);
        match FromType(classes, known, visiting + {n}, f.ann)
        case Failure(e) => Failure(e)
        case Success(None) => Success(None)
        case Success(Some(d)) => Success(Some(fds + [FieldDeser(f.name, d, IsOptionalAnn(f.ann))]))
  }

  /** The TypedDict branch of get_deserializer_from_type: every annotation is derived
      first; a non-total TypedDict then gives no deserializer. */
  function GetTypedDict(classes: ClassTable, known: map<TypeAnn, Deser>, visiting: set<string>, n: string)
    : (r: Result<Option<Deser>, Exc>)
    requires ClassOf(classes, n).TypedDict? && n !in visiting
    ensures r.Failure? ==> DeriveError(r.error)
    ensures !ClassOf(classes, n).total ==> r.Failure? || r == Success(None)
    decreases Unvisited(classes, visiting), 1, 1
  {
    var td := ClassOf(classes, n);
    match KeysUpTo(classes, known, visiting, n, |td.annotations|)
    case Failure(e) => Failure(e)
    case Success(None) => Success(None)
    case Success(Some(fds)) => if !td.total then Success(None) else Success(Some(DInline(TypedDictClosure(fds))))
  }

  /** The annotation loop of the TypedDict branch over the first `k` annotations; every
      key is required. */
  function KeysUpTo(classes: ClassTable, known: map<TypeAnn, Deser>, visiting: set<string>, n: string, k: nat)
    : (r: Result<Option<seq<FieldDeser>>, Exc>)
    requires ClassOf(classes, n).TypedDict? && n !in visiting && k <= |ClassOf(classes, n).annotations|
    ensures n in Unvisited(classes, visiting)
    ensures r.Failure? ==> DeriveError(r.error)
    ensures r.Success? && r.value.Some? ==>
      var anns, fds := ClassOf(classes, n).annotations, r.value.value;
      |fds| == k &&
      forall i | 0 <= i < k ::
        && fds[i].name == anns[i].name
        && !fds[i].optional
        && FromType(classes, known, visiting + {n}, anns[i].ann) == Success(Some(fds[i].deser))
    decreases Unvisited(classes, visiting), 0, k
  {
    if k == 0 then Success(Some([]))
    else
      match KeysUpTo(classes, known, visiting, n, k - 1)
      case Failure(e) => Failure(e)
      case Success(None) => Success(None)
      case Success(Some(fds)) =>
        var a := ClassOf(classes, n).annotations[k - 1];
        VisitShrinks(classes, visiting, n);
        match FromType(classes, known, visiting + {n}, a.ann)
        case Failure(e) => Failure(e)
        case Success(None) => Success(None)
        case Success(Some(d)) => Success(Some(fds + [FieldDeser(a.name, d, false)]))
  }

  // ---------------------------------------------------------------------
  // Once a field loop stops, its outcome stays.

  lemma {:induction false} FieldsStick(classes: ClassTable, known: map<TypeAnn, Deser>, visiting: set<string>,
                                       n: string, k: nat, j: nat)
    requires ClassOf(classes, n).Dataclass? && n !in visiting && k <= j <= |ClassOf(classes, n).fields|
    requires !(FieldsUpTo(classes, known, visiting, n, k).Success? && FieldsUpTo(classes, known, visiting, n, k).value.Some?)
    ensures FieldsUpTo(classes, known, visiting, n, j) == FieldsUpTo(classes, known, visiting, n, k)
    decreases j - k
  {
    if k < j {
      FieldsStick(classes, known, visiting, n, k, j - 1);
    }
  }

  lemma {:induction false} KeysStick(classes: ClassTable, known: map<TypeAnn, Deser>, visiting: set<string>,
                                     n: string, k: nat, j: nat)
    requires ClassOf(classes, n).TypedDict? && n !in visiting && k <= j <= |ClassOf(classes, n).annotations|
    requires !(KeysUpTo(classes, known, visiting, n, k).Success? && KeysUpTo(classes, known, visiting, n, k).value.Some?)
    ensures KeysUpTo(classes, known, visiting, n, j) == KeysUpTo(classes, known, visiting, n, k)
    decreases j - k
  {
    if k < j {
      KeysStick(classes, known, visiting, n, k, j - 1);
    }
  }

  /** One more field of the loop: its deserializer is derived and appended. */
  lemma FieldsNext(classes: ClassTable, known: map<TypeAnn, Deser>, visiting: set<string>, n: string, i: nat,
                   fds: seq<FieldDeser>)
    requires ClassOf(classes, n).Dataclass? && n !in visiting && i < |ClassOf(classes, n).fields|
    requires FieldsUpTo(classes, known, visiting, n, i) == Success(Some(fds))
    ensures var f := ClassOf(classes, n).fields[i];
      FieldsUpTo(classes, known, visiting, n, i + 1) ==
        match FromType(classes, known, visiting + {n}, f.ann)
        case Failure(e) => Failure(e)
        case Success(None) => Success(None)
        case Success(Some(d)) => Success(Some(fds + [FieldDeser(f.name, d, IsOptionalAnn(f.ann))]))
  {
  }

  // ---------------------------------------------------------------------
  // The loops, as the source runs them.

  /** get_dataclass_deserializer: derive each field in turn, giving up on the first one
      without a deserializer. */
  method DataclassDeserializer(classes: ClassTable, known: map<TypeAnn, Deser>, visiting: set<string>, n: string)
    returns (r: Result<Option<Deser>, Exc>)
    requires n !in visiting
    ensures r == GetDataclass(classes, known, visiting, n)
  {
    if !ClassOf(classes, n).Dataclass? {
      return Failure(TypeError);
    }
    var fields := ClassOf(classes, n).fields;
    var fds: seq<FieldDeser> := [];
    var i := 0;
    while i < |fields|
      invariant 0 <= i <= |fields|
      invariant FieldsUpTo(classes, known, visiting, n, i) == Success(Some(fds))
    {
      var d := FromType(classes, known, visiting + {n}, fields[i].ann);
      FieldsNext(classes, known, visiting, n, i, fds);
      if d.Failure? || d.value.None? {
        FieldsStick(classes, known, visiting, n, i + 1, |fields|);
        return if d.Failure? then Failure(d.error) else Success(None);
      }
      fds := fds + [FieldDeser(fields[i].name, d.value.value, IsOptionalAnn(fields[i].ann))];
      i := i + 1;
    }
    r := Success(Some(DInline(DataclassClosure(n, RequiredNames(fields), Defaults(fields), fds))));
    assert GetDataclass(classes, known, visiting, n) == r;
  }

  /** The TypedDict branch: derive every annotation, then check `__total__`. */
  method TypedDictDeserializer(classes: ClassTable, known: map<TypeAnn, Deser>, visiting: set<string>, n: string)
    returns (r: Result<Option<Deser>, Exc>)
    requires ClassOf(classes, n).TypedDict? && n !in visiting
    ensures r == GetTypedDict(classes, known, visiting, n)
  {
    var total := ClassOf(classes, n).total;
    var anns := ClassOf(classes, n).annotations;
    var fds: seq<FieldDeser> := [];
    var i := 0;
    while i < |anns|
      invariant 0 <= i <= |anns|
      invariant KeysUpTo(classes, known, visiting, n, i) == Success(Some(fds))
    {
      var d := FromType(classes, known, visiting + {n}, anns[i].ann);
      if d.Failure? || d.value.None? {
        KeysStick(classes, known, visiting, n, i + 1, |anns|);
        return if d.Failure? then Failure(d.error) else Success(None);
      }
      fds := fds + [FieldDeser(anns[i].name, d.value.value, false)];
      i := i + 1;
    }
    if !total {
      return Success(None);
    }
    return Success(Some(DInline(TypedDictClosure(fds))));
  }

  // ---------------------------------------------------------------------
  // What get_deserializer_from_type derives.

  /** str, int, float and NoneType have deserializers; bool, datetime, `...`, a bare
      generic alias, an Enum and any other plain class have none. */
  lemma PlainTypes(classes: ClassTable, known: map<TypeAnn, Deser>, visiting: set<string>, t: TypeAnn)
    requires t !in known
    ensures t == TStr ==> FromType(classes, known, visiting, t) == Success(Some(DStr))
    ensures t == TInt ==> FromType(classes, known, visiting, t) == Success(Some(DInt))
    ensures t == TFloat ==> FromType(classes, known, visiting, t) == Success(Some(DFloat))
    ensures t == TNone ==> FromType(classes, known, visiting, t) == Success(Some(DNone))
    ensures t == TBool || t == TDatetime || t == TEllipsis ==> FromType(classes, known, visiting, t) == Success(None)
    ensures t.TGeneric? && |t.args| == 0 ==> FromType(classes, known, visiting, t) == Success(None)
    ensures t.TClass? && (ClassOf(classes, t.name).EnumClass? || ClassOf(classes, t.name).PlainClass?) ==>
      FromType(classes, known, visiting, t) == Success(None)
  {
  }

  /** Every argument is derived, in order, when none of them raises. */
  lemma {:induction false} ArgsAllSucceed(classes: ClassTable, known: map<TypeAnn, Deser>, visiting: set<string>,
                                          args: seq<TypeAnn>, i: nat)
    requires i <= |args|
    requires forall j | i <= j < |args| :: FromType(classes, known, visiting, args[j]).Success?
    ensures ArgsFrom(classes, known, visiting, args, i).Success?
    decreases |args| - i
  {
    if i < |args| {
      ArgsAllSucceed(classes, known, visiting, args, i + 1);
    }
  }

  /** A generic annotation whose arguments all derive without raising: no deserializer
      when one argument has none; otherwise its origin applied to `deserialize_args`. */
  lemma GenericRules(classes: ClassTable, known: map<TypeAnn, Deser>, visiting: set<string>,
                     o: Origin, args: seq<TypeAnn>)
    requires |args| > 0 && TGeneric(o, args) !in known
    requires forall j | 0 <= j < |args| :: FromType(classes, known, visiting, args[j]).Success?
    ensures (exists j | 0 <= j < |args| :: FromType(classes, known, visiting, args[j]) == Success(None)) ==>
      FromType(classes, known, visiting, TGeneric(o, args)) == Success(None)
    ensures (forall j | 0 <= j < |args| :: FromType(classes, known, visiting, args[j]).value.Some?) ==>
      var ds := seq(|args|, j requires 0 <= j < |args| => FromType(classes, known, visiting, args[j]).value.value);
      FromType(classes, known, visiting, TGeneric(o, args))
        == match CombineArgs(args, ds) case Success(d) => Success(ByOrigin(o, d)) case Failure(e) => Failure(e)
  {
    ArgsAllSucceed(classes, known, visiting, args, 0);
    var xs := ArgsFrom(classes, known, visiting, args, 0).value;
    assert forall j | 0 <= j < |args| :: FromType(classes, known, visiting, args[j]) == Success(xs[j]);
    if forall j | 0 <= j < |args| :: FromType(classes, known, visiting, args[j]).value.Some? {
      var ds := seq(|args|, j requires 0 <= j < |args| => FromType(classes, known, visiting, args[j]).value.value);
      assert ds == seq(|xs|, i requires 0 <= i < |xs| && xs[i].Some? => xs[i].value);
    }
  }

  /** `Optional[X]` (and `Union[X, None]`) is X's deserializer made nullable. */
  lemma OptionalOf(classes: ClassTable, known: map<TypeAnn, Deser>, visiting: set<string>, x: TypeAnn, d: Deser)
    requires TGeneric(OUnion, [x, TNone]) !in known && TNone !in known && x != TNone
    requires FromType(classes, known, visiting, x) == Success(Some(d))
    ensures FromType(classes, known, visiting, TGeneric(OUnion, [x, TNone])) == Success(Some(DNullable(d)))
  {
    var args := [x, TNone];
    assert FromType(classes, known, visiting, TNone) == Success(Some(DNone));
    GenericRules(classes, known, visiting, OUnion, args);
    var ds := seq(|args|, j requires 0 <= j < |args| => FromType(classes, known, visiting, args[j]).value.value);
    assert ds == [d, DNone];
  }

  /** `Dict[str, int]` deserializes dict values with `Union[str, int]`: the dict origin
      takes `deserialize_args`, built from both arguments. */
  lemma DictValuesUseUnion(classes: ClassTable)
    ensures FromType(classes, map[], {}, TGeneric(ODict, [TStr, TInt])) == Success(Some(DDictValues(DUnion([DStr, DInt]))))
  {
    var args := [TStr, TInt];
    GenericRules(classes, map[], {}, ODict, args);
    var ds := seq(|args|, j requires 0 <= j < |args| => FromType(classes, map[], {}, args[j]).value.value);
    assert ds == [DStr, DInt];
  }

  /** So a `Dict[str, int]` field accepts `{"a": "x"}` unchanged. */
  lemma DictOfIntAcceptsText()
    ensures Run([], DDictValues(DUnion([DStr, DInt])), VDict([Entry(VStr("a"), VStr("x"))]))
            == Success(VDict([Entry(VStr("a"), VStr("x"))]))
  {
    var u := DUnion([DStr, DInt]);
    assert MemberResults([], [DStr, DInt], VStr("x"))[0] == Success(VStr("x"));
    assert Run([], u, VStr("x")) == Success(VStr("x"));
    var v := VDict([Entry(VStr("a"), VStr("x"))]);
    var rs := ValueResults([], u, v);
    assert rs[0] == Success(Entry(VStr("a"), VStr("x")));
    assert rs[1..] == [];
    assert Collect(rs[1..]) == Success([]);
    assert Collect(rs) == Success([rs[0].value] + []);
    assert [rs[0].value] + [] == v.entries;
  }

  // ---------------------------------------------------------------------
  // Dataclasses and TypedDicts.

  /** The first `k` fields all derive as long as none of them raises or has no deserializer. */
  lemma {:induction false} FieldsAllSome(classes: ClassTable, known: map<TypeAnn, Deser>, visiting: set<string>,
                                         n: string, k: nat)
    requires ClassOf(classes, n).Dataclass? && n !in visiting && k <= |ClassOf(classes, n).fields|
    requires forall j | 0 <= j < k ::
      var r := FromType(classes, known, visiting + {n}, ClassOf(classes, n).fields[j].ann); r.Success? && r.value.Some?
    ensures FieldsUpTo(classes, known, visiting, n, k).Success? && FieldsUpTo(classes, known, visiting, n, k).value.Some?
  {
    if k > 0 {
      FieldsAllSome(classes, known, visiting, n, k - 1);
    }
  }

  /** The first field without a deserializer, before any field raises, leaves the whole
      dataclass without one. */
  lemma UnderivableField(classes: ClassTable, known: map<TypeAnn, Deser>, visiting: set<string>, n: string, i: nat)
    requires ClassOf(classes, n).Dataclass? && n !in visiting && i < |ClassOf(classes, n).fields|
    requires forall j | 0 <= j < i ::
      var r := FromType(classes, known, visiting + {n}, ClassOf(classes, n).fields[j].ann); r.Success? && r.value.Some?
    requires FromType(classes, known, visiting + {n}, ClassOf(classes, n).fields[i].ann) == Success(None)
    ensures GetDataclass(classes, known, visiting, n) == Success(None)
  {
    FieldsAllSome(classes, known, visiting, n, i);
    FieldsStick(classes, known, visiting, n, i + 1, |ClassOf(classes, n).fields|);
  }

  /** A derived dataclass deserializer checks every field with its own deserializer; a
      field is optional exactly when its annotation is a Union containing None, and the
      constructor needs the fields without a default. */
  lemma DataclassShape(classes: ClassTable, known: map<TypeAnn, Deser>, visiting: set<string>, n: string)
    requires n !in visiting
    requires GetDataclass(classes, known, visiting, n).Success? && GetDataclass(classes, known, visiting, n).value.Some?
    ensures var d, fields := GetDataclass(classes, known, visiting, n).value.value, ClassOf(classes, n).fields;
      && ClassOf(classes, n).Dataclass?
      && d.DInline? && d.closure.DataclassClosure? && d.closure.cls == n
      && d.closure.required == RequiredNames(fields) && d.closure.defaults == Defaults(fields)
      && |d.closure.fields| == |fields|
      && forall i | 0 <= i < |fields| ::
           && d.closure.fields[i].name == fields[i].name
           && (d.closure.fields[i].optional <==> IsOptionalAnn(fields[i].ann))
           && FromType(classes, known, visiting + {n}, fields[i].ann) == Success(Some(d.closure.fields[i].deser))
  {
    assert ClassOf(classes, n).Dataclass?;
  }

  /** A dataclass whose first field is annotated with the class itself recurses without end. */
  lemma SelfReference(classes: ClassTable, known: map<TypeAnn, Deser>, visiting: set<string>, n: string)
    requires ClassOf(classes, n).Dataclass? && |ClassOf(classes, n).fields| > 0
    requires ClassOf(classes, n).fields[0].ann == TClass(n)
    requires TClass(n) !in known && n !in visiting
    ensures FromType(classes, known, visiting, TClass(n)) == Failure(RecursionError)
  {
    assert FromType(classes, known, visiting + {n}, TClass(n)) == Failure(RecursionError);
    assert FieldsUpTo(classes, known, visiting, n, 1) == Failure(RecursionError);
    FieldsStick(classes, known, visiting, n, 1, |ClassOf(classes, n).fields|);
  }

  /** A TypedDict deserializer exists only for a total TypedDict, and then every
      annotated key is required and checked with its annotation's deserializer. */
  lemma TypedDictShape(classes: ClassTable, known: map<TypeAnn, Deser>, visiting: set<string>, n: string)
    requires ClassOf(classes, n).TypedDict? && n !in visiting
    ensures !ClassOf(classes, n).total ==> GetTypedDict(classes, known, visiting, n) != Success(None) ==>
      GetTypedDict(classes, known, visiting, n).Failure?
    ensures GetTypedDict(classes, known, visiting, n).Success? && GetTypedDict(classes, known, visiting, n).value.Some? ==>
      var d, anns := GetTypedDict(classes, known, visiting, n).value.value, ClassOf(classes, n).annotations;
      && ClassOf(classes, n).total
      && d.DInline? && d.closure.TypedDictClosure?
      && |d.closure.fields| == |anns|
      && forall i | 0 <= i < |anns| ::
           && d.closure.fields[i].name == anns[i].name
           && !d.closure.fields[i].optional
           && FromType(classes, known, visiting + {n}, anns[i].ann) == Success(Some(d.closure.fields[i].deser))
  {
  }

  /** A field annotated with a Union containing None but without a default is optional
      to the closure yet required by the constructor. */
  lemma OptionalButRequired(classes: ClassTable, known: map<TypeAnn, Deser>, visiting: set<string>, n: string, i: nat)
    requires n !in visiting
    requires GetDataclass(classes, known, visiting, n).Success? && GetDataclass(classes, known, visiting, n).value.Some?
    requires ClassOf(classes, n).Dataclass? && i < |ClassOf(classes, n).fields|
    requires IsOptionalAnn(ClassOf(classes, n).fields[i].ann) && !ClassOf(classes, n).fields[i].hasDefault
    ensures var c := GetDataclass(classes, known, visiting, n).value.value.closure;
      c.fields[i].optional && c.fields[i].name in c.required
  {
    DataclassShape(classes, known, visiting, n);
  }

  /** Leaving such a field out is then the constructor's TypeError, not the closure's
      ValueError. */
  lemma MissingOptionalWithoutDefault(heap: seq<Closure>, cls: string, x: string, d: Deser)
    ensures Run(heap, DInline(DataclassClosure(cls, [x], map[], [FieldDeser(x, d, true)])), VDict([])) == Failure(TypeError)
  {
    var c := DataclassClosure(cls, [x], map[], [FieldDeser(x, d, true)]);
    var rs := FieldResults(heap, c.fields, VDict([]));
    assert rs[0] == Success(None);
    assert rs[1..] == [];
    assert Collect(rs[1..]) == Success([]);
    assert Collect(rs) == Success([rs[0].value] + []);
    assert [rs[0].value] + [] == [None];
    assert Output(c.fields, [None]) == [];
    var names := [x];
    assert !HasAll([], names) by {
      assert FindKey([], VStr(names[0])).None?;
    }
    assert Finish(c, Collect(rs)) == Failure(TypeError);
    assert Run(heap, DInline(c), VDict([])) == RunClosure(heap, c, VDict([]));
  }

  // ---------------------------------------------------------------------
  // generate_deserializer: one entry per field name, no nullable wrapper, no
  // `_id` entry; a field the generator cannot handle is skipped.

  /** The dataclass deserializer wrapped by field class: the one-argument dict
      combinator keeps keys and deserializes values. */
  function Shaped(shape: Shape, d: Deser): (r: Deser)
    ensures shape.DictOf? ==> r == DDictValues(d)
    ensures shape.DictOfLists? ==> r == DDictValues(DList(d))
  {
    match shape
    case Single => d
    case ListOf => DList(d)
    case DictOf => DDictValues(d)
    case DictOfLists => DDictValues(DList(d))
  }

  /** The deserializer of one model field: `Success(None)` is `continue`. */
  function FieldOut(classes: ClassTable, known: map<TypeAnn, Deser>, m: PeeweeModel, f: ModelField)
    : (r: Result<Option<Deser>, Exc>)
    ensures r == Failure(PlainException) <==> f.kind.TextSubclassField? && f.name !in m.hints
    ensures r == Failure(TypeError) <==> f.kind.DataClassField? && !ClassOf(classes, f.kind.cls).Dataclass?
    ensures r.Failure? ==> r.error == PlainException || r.error == TypeError || DeriveError(r.error)
    ensures f.kind.DateTimeField? || f.kind.OtherField? ==> r == Success(None)
  {
    match f.kind
    case IntegerField => Success(Some(DInt))
    case FloatField => Success(Some(DFloat))
    case BooleanField => Success(Some(DBool))
    case CharField => LiteralOrStr(classes, known, m.hints, f.name)
    case TextField => LiteralOrStr(classes, known, m.hints, f.name)
    case TextSubclassField =>
      if f.name !in m.hints then Failure(PlainException)
      else if m.hints[f.name] != TStr then FromType(classes, known, {}, m.hints[f.name])
      else Success(Some(DStr))
    case ForeignKeyField(col) => if IntColumn(col) then Success(Some(DInt)) else Success(None)
    case DataClassField(shape, cls) =>
      (match GetDataclass(classes, known, {}, cls)
       case Failure(e) => Failure(e)
       case Success(None) => Success(None)
       case Success(Some(d)) => Success(Some(Shaped(shape, d))))
    case DateTimeField => Success(None)
    case OtherField => Success(None)
  }

  /** A char or plain text column: a Literal hint is derived and must give a deserializer
      (`assert func is not None`); otherwise deserialize_str. */
  function LiteralOrStr(classes: ClassTable, known: map<TypeAnn, Deser>, hints: map<string, TypeAnn>, name: string)
    : (r: Result<Option<Deser>, Exc>)
    ensures r.Success? ==> r.value.Some?
    ensures !(name in hints && hints[name].TLiteral?) ==> r == Success(Some(DStr))
    ensures r.Failure? ==> DeriveError(r.error)
  {
    if name in hints && hints[name].TLiteral? then
      match FromType(classes, known, {}, hints[name])
      case Success(None) => Failure(AssertionError)
      case r => r
    else Success(Some(DStr))
  }

  /** The output of the loop over the first `k` fields. */
  function Outputs(classes: ClassTable, known: map<TypeAnn, Deser>, m: PeeweeModel, k: nat)
    : (r: Result<map<string, Deser>, Exc>)
    requires k <= |m.fields|
    ensures r.Failure? ==> r.error == PlainException || r.error == TypeError || DeriveError(r.error)
  {
    if k == 0 then Success(map[])
    else
      match Outputs(classes, known, m, k - 1)
      case Failure(e) => Failure(e)
      case Success(out) =>
        match FieldOut(classes, known, m, m.fields[k - 1])
        case Failure(e) => Failure(e)
        case Success(None) => Success(out)
        case Success(Some(d)) => Success(out[m.fields[k - 1].name := d])
  }

  /** The loop raises only what some field's own derivation raised. */
  lemma {:induction false} OutputsError(classes: ClassTable, known: map<TypeAnn, Deser>, m: PeeweeModel, k: nat)
    requires k <= |m.fields| && Outputs(classes, known, m, k).Failure?
    ensures exists i | 0 <= i < k :: FieldOut(classes, known, m, m.fields[i]) == Failure(Outputs(classes, known, m, k).error)
  {
    if Outputs(classes, known, m, k - 1).Failure? {
      OutputsError(classes, known, m, k - 1);
    }
  }

  lemma {:induction false} OutputsStick(classes: ClassTable, known: map<TypeAnn, Deser>, m: PeeweeModel, k: nat, j: nat)
    requires k <= j <= |m.fields| && Outputs(classes, known, m, k).Failure?
    ensures Outputs(classes, known, m, j) == Outputs(classes, known, m, k)
    decreases j - k
  {
    if k < j {
      OutputsStick(classes, known, m, k, j - 1);
    }
  }

  /** One field, as the loop body handles it: the dataclass fields go through
      get_dataclass_deserializer. */
  method ForField(classes: ClassTable, known: map<TypeAnn, Deser>, m: PeeweeModel, f: ModelField)
    returns (r: Result<Option<Deser>, Exc>)
    ensures r == FieldOut(classes, known, m, f)
  {
    if f.kind.DataClassField? {
      var d := DataclassDeserializer(classes, known, {}, f.kind.cls);
      if d.Failure? || d.value.None? {
        return d;
      }
      return Success(Some(Shaped(f.kind.shape, d.value.value)));
    }
    return FieldOut(classes, known, m, f);
  }

  /** generate_deserializer(Model, known_type_deserializers). */
  method Generate(classes: ClassTable, known: map<TypeAnn, Deser>, m: PeeweeModel)
    returns (r: Result<map<string, Deser>, Exc>)
    ensures r == Outputs(classes, known, m, |m.fields|)
  {
    var output: map<string, Deser> := map[];
    var i := 0;
    while i < |m.fields|
      invariant 0 <= i <= |m.fields|
      invariant Outputs(classes, known, m, i) == Success(output)
    {
      var func := ForField(classes, known, m, m.fields[i]);
      if func.Failure? {
        OutputsStick(classes, known, m, i + 1, |m.fields|);
        return Failure(func.error);
      }
      if func.value.Some? {
        output := output[m.fields[i].name := func.value.value];
      }
      i := i + 1;
    }
    return Success(output);
  }

  /** A loop that finished raised on no field. */
  lemma {:induction false} OutputsSucceed(classes: ClassTable, known: map<TypeAnn, Deser>, m: PeeweeModel, k: nat)
    requires k <= |m.fields| && Outputs(classes, known, m, k).Success?
    ensures forall i | 0 <= i < k :: FieldOut(classes, known, m, m.fields[i]).Success?
  {
    if k > 0 {
      OutputsSucceed(classes, known, m, k - 1);
    }
  }

  /** The output has exactly the fields that got a deserializer, under their own names,
      each with its own deserializer. */
  lemma {:induction false} OutputsKeys(classes: ClassTable, known: map<TypeAnn, Deser>, m: PeeweeModel, k: nat)
    requires k <= |m.fields| && DistinctNames(m.fields)
    requires Outputs(classes, known, m, k).Success?
    ensures forall i | 0 <= i < k :: FieldOut(classes, known, m, m.fields[i]).Success?
    ensures forall name :: name in Outputs(classes, known, m, k).value <==>
      exists i | 0 <= i < k :: m.fields[i].name == name && FieldOut(classes, known, m, m.fields[i]).value.Some?
    ensures forall i | 0 <= i < k && FieldOut(classes, known, m, m.fields[i]).value.Some? ::
      Outputs(classes, known, m, k).value[m.fields[i].name] == FieldOut(classes, known, m, m.fields[i]).value.value
  {
    OutputsSucceed(classes, known, m, k);
    if k > 0 {
      OutputsKeys(classes, known, m, k - 1);
      var out := Outputs(classes, known, m, k - 1).value;
      var f := m.fields[k - 1];
      var fo := FieldOut(classes, known, m, f);
      assert forall i | 0 <= i < k - 1 :: m.fields[i].name != f.name;
      if fo.value.Some? {
        assert Outputs(classes, known, m, k).value == out[f.name := fo.value.value];
      } else {
        assert Outputs(classes, known, m, k).value == out;
      }
    }
  }

  /** The fields generate_deserializer skips without complaint: foreign keys on a
      non-INT column, datetime and unknown columns, a typed text column whose annotation
      has no deserializer, and a dataclass column whose dataclass has none. */
  lemma SkippedFields(classes: ClassTable, known: map<TypeAnn, Deser>, m: PeeweeModel, f: ModelField)
    ensures f.kind.ForeignKeyField? && !IntColumn(f.kind.columnType) ==> FieldOut(classes, known, m, f) == Success(None)
    ensures f.kind.DateTimeField? || f.kind.OtherField? ==> FieldOut(classes, known, m, f) == Success(None)
    ensures (f.kind.TextSubclassField? && f.name in m.hints && m.hints[f.name] != TStr
             && FromType(classes, known, {}, m.hints[f.name]) == Success(None))
            ==> FieldOut(classes, known, m, f) == Success(None)
    ensures f.kind.DataClassField? && GetDataclass(classes, known, {}, f.kind.cls) == Success(None) ==>
      FieldOut(classes, known, m, f) == Success(None)
    ensures f.kind.TextSubclassField? && f.name !in m.hints ==> FieldOut(classes, known, m, f) == Failure(PlainException)
  {
  }

  /** A nullable column gets the same deserializer as a non-nullable one. */
  lemma NullableIgnored(classes: ClassTable, known: map<TypeAnn, Deser>, m: PeeweeModel, f: ModelField)
    ensures FieldOut(classes, known, m, f) == FieldOut(classes, known, m, f.(nullable := !f.nullable))
  {
  }
}
