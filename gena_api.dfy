/**
 * `generate_api` of gena/api_generator.py: the REST blueprint generated for
 * a peewee model. Building the API fixes the registered routes, the
 * `name2field` table (a foreign key is also reachable as `<name>_id`) and a
 * deserializer for every name; the handlers then turn request arguments
 * into a query (`get`), or read and change the table's records.
 */
module GenaApi {
  import opened Wrappers
  import opened Py
  import opened Text
  import opened Peewee
  import opened RequestArgs
  import opened Query
  import Deserializers
  import GenaDeserializer
  import Serializers

  // ---------------------------------------------------------------------
  // Routes.

  datatype ApiFunc = Get | GetByIds | GetOne | Has | Create | Update | DeleteById | Truncate

  const AllFuncs: set<ApiFunc> := {ApiFunc.Get, GetByIds, GetOne, Has, Create, Update, DeleteById, Truncate}

  /** `skip_funcs` once the generator has added `truncate` unless truncation is enabled. */
  function SkipFuncs(skip: Option<set<ApiFunc>>, enableTruncate: bool): (r: set<ApiFunc>)
    ensures Truncate in r <==> !enableTruncate || (skip.Some? && Truncate in skip.value)
    ensures forall f | f != Truncate :: f in r <==> skip.Some? && f in skip.value
  {
    var s := if skip.Some? then skip.value else {};
    if !enableTruncate && Truncate !in s then s + {Truncate} else s
  }

  /** `DELETE /<table>` is registered exactly when truncation is enabled and not skipped. */
  lemma TruncateRoute(skip: Option<set<ApiFunc>>, enableTruncate: bool)
    ensures Truncate in AllFuncs - SkipFuncs(skip, enableTruncate) <==>
      enableTruncate && (skip.None? || Truncate !in skip.value)
  {
  }

  // ---------------------------------------------------------------------
  // name2field, an insertion-ordered dict.

  datatype FieldTable = FieldTable(names: seq<string>, field: map<string, ModelField>)

  ghost predicate WellFormed(t: FieldTable) {
    && (forall i, j | 0 <= i < j < |t.names| :: t.names[i] != t.names[j])
    && (forall k :: k in t.field <==> k in t.names)
  }

  /** `name2field[k] = f`: a new key goes last, an existing one keeps its place. */
  function Assign(t: FieldTable, k: string, f: ModelField): (r: FieldTable)
    requires WellFormed(t)
    ensures WellFormed(r) && r.field == t.field[k := f]
    ensures k in t.field ==> r.names == t.names
    ensures k !in t.field ==> r.names == t.names + [k]
  {
    if k in t.field then FieldTable(t.names, t.field[k := f]) else FieldTable(t.names + [k], t.field[k := f])
  }

  /** `name2field` after the loop's first `n` fields. */
  function Name2Field(fields: seq<ModelField>, n: nat): (t: FieldTable)
    requires n <= |fields|
    ensures WellFormed(t)
  {
    if n == 0 then FieldTable([], map[])
    else
      var f := fields[n - 1];
      var t := Assign(Name2Field(fields, n - 1), f.name, f);
      if f.kind.ForeignKeyField? then Assign(t, f.name + "_id", f) else t
  }

  /** The loop that fills `name2field`. */
  method BuildName2Field(fields: seq<ModelField>) returns (t: FieldTable)
    ensures t == Name2Field(fields, |fields|)
  {
    t := FieldTable([], map[]);
    for i := 0 to |fields|
      invariant t == Name2Field(fields, i)
    {
      var f := fields[i];
      t := Assign(t, f.name, f);
      if f.kind.ForeignKeyField? {
        t := Assign(t, f.name + "_id", f);
      }
    }
  }

  /** The names are the fields' names plus `<name>_id` for each foreign key: the
      same names the generated deserializers cover. */
  lemma {:induction false} Name2FieldKeys(fields: seq<ModelField>, n: nat)
    requires n <= |fields|
    ensures Name2Field(fields, n).field.Keys == GenaDeserializer.OutputNames(fields, {}, n)
  {
    if n > 0 {
      Name2FieldKeys(fields, n - 1);
    }
  }

  /** Without name clashes, every name leads to its own field, and `<name>_id` to the foreign key. */
  lemma Name2FieldEntries(fields: seq<ModelField>)
    requires GenaDeserializer.NoClash(fields)
    ensures var t := Name2Field(fields, |fields|).field;
      forall i | 0 <= i < |fields| :: fields[i].name in t && t[fields[i].name] == fields[i]
    ensures var t := Name2Field(fields, |fields|).field;
      forall i | 0 <= i < |fields| && fields[i].kind.ForeignKeyField? ::
        fields[i].name + "_id" in t && t[fields[i].name + "_id"] == fields[i]
  {
    forall i | 0 <= i < |fields| {
      Name2FieldEntry(fields, |fields|, i);
    }
  }

  lemma {:induction false} Name2FieldEntry(fields: seq<ModelField>, n: nat, i: nat)
    requires i < n <= |fields| && GenaDeserializer.NoClash(fields)
    ensures var t := Name2Field(fields, n).field;
      && fields[i].name in t && t[fields[i].name] == fields[i]
      && (fields[i].kind.ForeignKeyField? ==> fields[i].name + "_id" in t && t[fields[i].name + "_id"] == fields[i])
  {
    var f := fields[n - 1];
    var t0 := Name2Field(fields, n - 1).field;
    var t := Name2Field(fields, n).field;
    assert t == if f.kind.ForeignKeyField? then t0[f.name := f][f.name + "_id" := f] else t0[f.name := f];
    if i < n - 1 {
      Name2FieldEntry(fields, n - 1, i);
      NamesApart(fields, i, n - 1);
    } else if f.kind.ForeignKeyField? {
      assert f.name != f.name + "_id" by { assert |f.name| < |f.name + "_id"|; }
    }
  }

  /** What no clash means for two different fields. */
  lemma NamesApart(fields: seq<ModelField>, i: nat, j: nat)
    requires i < |fields| && j < |fields| && i != j && GenaDeserializer.NoClash(fields)
    ensures fields[i].name != fields[j].name
    ensures fields[j].kind.ForeignKeyField? ==> fields[i].name != fields[j].name + "_id"
    ensures fields[i].kind.ForeignKeyField? ==> fields[j].name != fields[i].name + "_id"
    ensures fields[i].kind.ForeignKeyField? && fields[j].kind.ForeignKeyField? ==>
      fields[i].name + "_id" != fields[j].name + "_id"
  {
    if fields[i].kind.ForeignKeyField? && fields[j].kind.ForeignKeyField? {
      GenaDeserializer.IdSuffixInjective(fields[i].name, fields[j].name);
    }
  }

  // ---------------------------------------------------------------------
  // Deserializers.

  /** A deserializer: raises, or returns the value to store / compare with. */
  type Fn = Value -> Result<Value, Exc>

  /** A generated deserializer, run against the closures it was derived with. */
  function Runner(heap: seq<Deserializers.Closure>, d: Deserializers.Deser): Fn {
    v => Deserializers.Run(heap, d, v)
  }

  /** The names `deserializers` covers after the generator filled in the missing ones;
      `given` are the names the caller supplied deserializers for. */
  function CompletedKeys(fields: seq<ModelField>, given: Option<set<string>>): set<string> {
    var k := if given.Some? then given.value else {};
    if given.Some? && GenaDeserializer.OutputNames(fields, {}, |fields|) <= k then k
    else k + GenaDeserializer.OutputNames(fields, k, |fields|)
  }

  /** When the caller supplied `<name>_id` along with every foreign key `<name>` they
      supplied, the generated deserializers cover every name. */
  lemma {:induction false} CompletionCovers(fields: seq<ModelField>, given: Option<set<string>>, n: nat)
    requires n <= |fields|
    requires given.Some? ==> forall i | 0 <= i < |fields| && fields[i].kind.ForeignKeyField? && fields[i].name in given.value ::
      fields[i].name + "_id" in given.value
    ensures var k := if given.Some? then given.value else {};
      GenaDeserializer.OutputNames(fields, {}, n) <= k + GenaDeserializer.OutputNames(fields, k, n)
  {
    if n > 0 {
      CompletionCovers(fields, given, n - 1);
    }
  }

  /** A caller who supplies a foreign key's deserializer but not its `<name>_id` one
      (when no other field is named like it) leaves `<name>_id` uncovered, and
      `generate_api` raises. */
  lemma ForeignKeyAliasUncovered(fields: seq<ModelField>, given: set<string>, i: nat)
    requires i < |fields| && GenaDeserializer.NoClash(fields) && fields[i].kind.ForeignKeyField?
    requires fields[i].name in given && fields[i].name + "_id" !in given
    ensures fields[i].name + "_id" in GenaDeserializer.OutputNames(fields, {}, |fields|)
    ensures fields[i].name + "_id" !in CompletedKeys(fields, Some(given))
  {
    OutputNamesHas(fields, {}, |fields|, i);
    OutputNamesNoAlias(fields, given, |fields|, i);
  }

  lemma {:induction false} OutputNamesHas(fields: seq<ModelField>, skip: set<string>, n: nat, i: nat)
    requires i < n <= |fields| && fields[i].name !in skip && fields[i].kind.ForeignKeyField?
    ensures fields[i].name + "_id" in GenaDeserializer.OutputNames(fields, skip, n)
  {
    if i < n - 1 {
      OutputNamesHas(fields, skip, n - 1, i);
    }
  }

  /** A skipped foreign key's `<name>_id` is generated by no field. */
  lemma {:induction false} OutputNamesNoAlias(fields: seq<ModelField>, skip: set<string>, n: nat, i: nat)
    requires n <= |fields| && i < |fields| && GenaDeserializer.NoClash(fields) && fields[i].kind.ForeignKeyField?
    requires fields[i].name in skip
    ensures fields[i].name + "_id" !in GenaDeserializer.OutputNames(fields, skip, n)
  {
    if n > 0 {
      OutputNamesNoAlias(fields, skip, n - 1, i);
      if n - 1 != i {
        NamesApart(fields, n - 1, i);
      }
    }
  }

  // ---------------------------------------------------------------------
  // The generated API.

  datatype Api = Api(table: FieldTable, deserializers: map<string, Fn>, routes: set<ApiFunc>)

  /** The arguments `get` reads itself rather than as filters. */
  const OpFields: set<string> := {"fields", "limit", "offset", "unique", "sorted_by", "group_by"}

  /** What `generate_api` guarantees its handlers. */
  ghost predicate Ready(api: Api) {
    && WellFormed(api.table)
    && api.table.field.Keys <= api.deserializers.Keys
    && api.table.field.Keys !! OpFields
  }

  /** The caller's deserializers updated with generated ones for every name the caller
      did not cover, when some name is missing. */
  method CompleteDeserializers(m: PeeweeModel, classes: ClassTable, given: Option<map<string, Fn>>)
    returns (r: Result<map<string, Fn>, Exc>)
    ensures r.Success? ==> r.value.Keys == CompletedKeys(m.fields, GivenKeys(given))
    ensures given.Some? && GenaDeserializer.OutputNames(m.fields, {}, |m.fields|) <= given.value.Keys ==> r.Success?
  {
    var table := BuildName2Field(m.fields);
    Name2FieldKeys(m.fields, |m.fields|);
    ghost var all := GenaDeserializer.OutputNames(m.fields, {}, |m.fields|);
    ghost var keys := GivenKeys(given);
    var ds: map<string, Fn> := if given.Some? then given.value else map[];
    if given.Some? && table.field.Keys <= ds.Keys {
      assert all <= given.value.Keys;
      return Success(ds);
    }
    ghost var k := if given.Some? then given.value.Keys else {};
    assert ds.Keys == k;
    assert CompletedKeys(m.fields, keys) == k + GenaDeserializer.OutputNames(m.fields, k, |m.fields|);
    var deriver := new GenaDeserializer.Deriver(classes, map[]);
    var generated := deriver.Generate(m, ds.Keys);
    if generated.Failure? {
      return Failure(generated.error);
    }
    ds := Merge(ds, deriver.heap, generated.value);
    return Success(ds);
  }

  /** `deserializers.update(generated)`, each generated one bound to its closures. */
  function Merge(ds: map<string, Fn>, heap: seq<Deserializers.Closure>, g: map<string, Deserializers.Deser>): (r: map<string, Fn>)
    ensures r.Keys == ds.Keys + g.Keys
    ensures forall k | k in ds && k !in g :: r[k] == ds[k]
  {
    ds + map k | k in g :: Runner(heap, g[k])
  }

  /**
   * generate_api. `given` are the caller's deserializers; `deriveSerializer`
   * says that neither `serialize`, `batch_serialize` nor the model's `to_dict`
   * exists, so the model serializer is derived (`knownSer`, `dbFieldNames`).
   */
  method GenerateApi(m: PeeweeModel, classes: ClassTable, given: Option<map<string, Fn>>,
                     deriveSerializer: bool, knownSer: map<TypeAnn, Serializers.Ser>, dbFieldNames: bool,
                     enableTruncate: bool, skip: Option<set<ApiFunc>>)
    returns (r: Result<Api, Exc>)
    ensures r.Success? ==> Ready(r.value)
    ensures r.Success? ==> r.value.table == Name2Field(m.fields, |m.fields|)
    ensures r.Success? ==> r.value.routes == AllFuncs - SkipFuncs(skip, enableTruncate)
    ensures r.Success? ==> r.value.deserializers.Keys == CompletedKeys(m.fields, GivenKeys(given))
    ensures !(GenaDeserializer.OutputNames(m.fields, {}, |m.fields|) <= CompletedKeys(m.fields, GivenKeys(given))) ==> r.Failure?
    ensures given.Some? && GenaDeserializer.OutputNames(m.fields, {}, |m.fields|) <= given.value.Keys && !deriveSerializer ==>
      (r.Success? <==> GenaDeserializer.OutputNames(m.fields, {}, |m.fields|) !! OpFields)
  {
    var routes := AllFuncs - SkipFuncs(skip, enableTruncate);
    var table := BuildName2Field(m.fields);
    Name2FieldKeys(m.fields, |m.fields|);
    var names := table.field.Keys;
    ghost var all := GenaDeserializer.OutputNames(m.fields, {}, |m.fields|);
    assert names == all;
    var ds :- CompleteDeserializers(m, classes, given);
    assert ds.Keys == CompletedKeys(m.fields, GivenKeys(given));
    if !(names <= ds.Keys) {
      return Failure(PlainException);
    }
    if deriveSerializer {
      var e := DeriveSerializer(m, classes, knownSer, dbFieldNames);
      if e.Some? {
        return Failure(e.value);
      }
    }
    if !(names !! OpFields) {
      return Failure(AssertionError);
    }
    return Success(Api(table, ds, routes));
  }

  /** The names the caller supplied deserializers for, if any. */
  function GivenKeys(given: Option<map<string, Fn>>): (r: Option<set<string>>)
    ensures r.Some? <==> given.Some?
    ensures r.Some? ==> r.value == given.value.Keys
  {
    if given.Some? then Some(given.value.Keys) else None
  }

  /** The model serializer `generate_api` derives when no serializer is given;
      only whether the derivation raises matters to the generated API. */
  method DeriveSerializer(m: PeeweeModel, classes: ClassTable, knownSer: map<TypeAnn, Serializers.Ser>, dbFieldNames: bool)
    returns (e: Option<Exc>)
    ensures e.Some? ==> exists i | 0 <= i < |m.fields| :: m.fields[i].kind.DataClassField?
  {
    var serDeriver := new Serializers.SerDeriver(classes, knownSer);
    var s := serDeriver.PeeweeSerializer(m, {}, dbFieldNames);
    e := if s.Failure? then Some(s.error) else None;
  }

  // ---------------------------------------------------------------------
  // GET /<table>

  function GroupTerm(n2f: FieldMap, part: string): (r: Result<string, Fail>)
    ensures r.Success? <==> part in n2f
    ensures r.Success? ==> r.value == n2f[part].name
    ensures r.Failure? ==> r.error == BadRequest
  {
    if part in n2f then Success(n2f[part].name) else Failure(BadRequest)
  }

  function GroupTerms(n2f: FieldMap, parts: seq<string>): seq<Result<string, Fail>> {
    seq(|parts|, i requires 0 <= i < |parts| => GroupTerm(n2f, parts[i]))
  }

  /** The GROUP BY clause: every `group_by` name must be a known field. */
  function GroupBy(n2f: FieldMap, args: Args): Result<seq<string>, Fail> {
    Collect(GroupTerms(n2f, ListArg(args, "group_by")))
  }

  /** The `group_by` loop. */
  method GroupLoop(n2f: FieldMap, parts: seq<string>) returns (r: Result<seq<string>, Fail>)
    ensures r == Collect(GroupTerms(n2f, parts))
  {
    var groupBy: seq<string> := [];
    for i := 0 to |parts|
      invariant |groupBy| == i
      invariant forall j | 0 <= j < i :: GroupTerms(n2f, parts)[j] == Success(groupBy[j])
    {
      if parts[i] !in n2f {
        CollectStopsAt(GroupTerms(n2f, parts), i);
        return Failure(BadRequest);
      }
      groupBy := groupBy + [n2f[parts[i]].name];
    }
    CollectAll(GroupTerms(n2f, parts), groupBy);
    r := Success(groupBy);
  }

  /** Each comma-separated part of `value`, deserialized. */
  function InValues(deser: Fn, value: string): (rs: seq<Result<Value, Exc>>)
    ensures |rs| == |Split(value, ',')|
    ensures forall i | 0 <= i < |rs| :: rs[i] == deser(VStr(Split(value, ',')[i]))
  {
    var parts := Split(value, ',');
    seq(|parts|, i requires 0 <= i < |parts| => deser(VStr(parts[i])))
  }

  /**
   * The condition a filter other than `max` becomes: `in` deserializes every
   * comma-separated value; any other filter deserializes its value first
   * (its exception escapes) and only then rejects an unknown operator.
   */
  function Condition(ds: map<string, Fn>, f: Filter): (r: Result<(Op, Value), Fail>)
    ensures r.Success? ==> f.name in ds && f.op in {None, Some("in"), Some("gt"), Some("gte"), Some("lt"), Some("lte")}
    ensures f.name !in ds ==> r == Failure(Raised(KeyError))
    ensures r.Success? && f.op == Some("in") ==>
      r.value.0 == In && r.value.1.VList? && |r.value.1.items| == |Split(f.value, ',')|
      && forall i | 0 <= i < |Split(f.value, ',')| ::
           Success(r.value.1.items[i]) == ds[f.name](VStr(Split(f.value, ',')[i]))
    ensures f.name in ds && f.op == Some("in") ==>
      (r.Success? <==> forall i | 0 <= i < |Split(f.value, ',')| :: ds[f.name](VStr(Split(f.value, ',')[i])).Success?)
    ensures f.name in ds && f.op == Some("in") && r.Failure? ==>
      exists i | 0 <= i < |Split(f.value, ',')| ::
        ds[f.name](VStr(Split(f.value, ',')[i])).Failure?
        && r.error == Raised(ds[f.name](VStr(Split(f.value, ',')[i])).error)
        && forall j | 0 <= j < i :: ds[f.name](VStr(Split(f.value, ',')[j])).Success?
    ensures r.Success? && f.op != Some("in") ==> Success(r.value.1) == ds[f.name](VStr(f.value))
    ensures f.name in ds && f.op != Some("in") && ds[f.name](VStr(f.value)).Failure? ==>
      r == Failure(Raised(ds[f.name](VStr(f.value)).error))
    ensures f.name in ds && f.op != Some("in") && ds[f.name](VStr(f.value)).Success? && CompareOp(f.op).None? ==>
      r == Failure(BadRequest)
  {
    if f.name !in ds then Failure(Raised(KeyError))
    else if f.op == Some("in") then
      var rs := InValues(ds[f.name], f.value);
      assert (forall i | 0 <= i < |rs| :: rs[i].Success?) ==> Collect(rs).Success?;
      var vs :- Raise(Collect(rs));
      Success((In, VList(vs)))
    else
      var v :- Raise(ds[f.name](VStr(f.value)));
      match CompareOp(f.op)
      case None => Failure(BadRequest)
      case Some(op) => Success((op, v))
  }

  function Conditions(ds: map<string, Fn>): Conditioner {
    f => Condition(ds, f)
  }

  /** The arguments `get` reads itself. */
  datatype Plain = Plain(fields: seq<string>, limit: int, offset: int, distinct: bool,
                         orderBy: seq<(string, Dir)>, groupBy: seq<string>)

  /** The WHERE clause: conditions and `max` sub-queries. */
  datatype Where = Where(conditions: seq<Cond>, maxFilters: seq<MaxFilter>)

  /** The first phase of `get`: its own arguments. */
  function PlainArgs(n2f: FieldMap, args: Args): Result<Plain, Fail> {
    var fields :- SelectFields(n2f, args);
    var limit :- IntArg(args, "limit", "50");
    var offset :- IntArg(args, "offset", "0");
    var distinct := GetOr(args, "unique", "false") == "true";
    var orderBy :- OrderBy(n2f, args, BadRequest);
    var groupBy :- GroupBy(n2f, args);
    Success(Plain(fields, limit, offset, distinct, orderBy, groupBy))
  }

  /** The second phase: the filter arguments, given whether the query groups. */
  function WhereOf(api: Api, args: Args, grouped: bool): Result<Where, Fail> {
    var n2f := api.table.field;
    var groups :- FilterFields(OpFields, n2f, Items(args));
    var st :- Dispatch(n2f, Conditions(api.deserializers), FlatFilters(groups));
    var maxFilters :- (if grouped then (if |st.maxes| > 0 then Failure(BadRequest) else Success([]))
                       else Collect(MaxFilterResults(n2f, st.maxes)));
    Success(Where(Flatten(st.conds), maxFilters))
  }

  /** What `get` builds, or how it fails, for the arguments `args`. */
  function GetQuery(api: Api, args: Args): Result<Query, Fail> {
    var p :- PlainArgs(api.table.field, args);
    var w :- WhereOf(api, args, |p.groupBy| > 0);
    Success(Query(p.fields, p.distinct, p.orderBy, p.groupBy, w.conditions, w.maxFilters, p.limit, p.offset))
  }

  /** The handler's steps, up to the query it runs. */
  method Get(api: Api, args: Args) returns (r: Result<Query, Fail>)
    ensures r == GetQuery(api, args)
  {
    var n2f := api.table.field;
    var fields :- SelectFields(n2f, args);
    var limit :- IntArg(args, "limit", "50");
    var offset :- IntArg(args, "offset", "0");
    var distinct := GetOr(args, "unique", "false") == "true";
    var orderBy :- SortLoop(n2f, ListArg(args, "sorted_by"), BadRequest);
    var groupBy :- GroupLoop(n2f, ListArg(args, "group_by"));
    assert PlainArgs(n2f, args) == Success(Plain(fields, limit, offset, distinct, orderBy, groupBy));
    var groups :- FilterLoop(OpFields, n2f, Items(args));
    var st :- DispatchLoop(n2f, Conditions(api.deserializers), groups);
    var maxFilters: seq<MaxFilter> := [];
    if |groupBy| > 0 {
      if |st.maxes| > 0 {
        return Failure(BadRequest);
      }
    } else {
      maxFilters :- MaxLoop(n2f, st.maxes);
    }
    assert WhereOf(api, args, |groupBy| > 0) == Success(Where(Flatten(st.conds), maxFilters));
    return Success(Query(fields, distinct, orderBy, groupBy, Flatten(st.conds), maxFilters, limit, offset));
  }

  /** The plain arguments: `limit` defaults to 50, `offset` to 0, `unique` is on only for "true". */
  lemma GetArguments(api: Api, args: Args)
    requires GetQuery(api, args).Success?
    ensures var q := GetQuery(api, args).value;
      && q.fields == ListArg(args, "fields")
      && q.limit == ParseInt(GetOr(args, "limit", "50")).value
      && q.offset == ParseInt(GetOr(args, "offset", "0")).value
      && (!HasKey(args, "limit") ==> q.limit == 50)
      && (!HasKey(args, "offset") ==> q.offset == 0)
      && (q.distinct <==> HasKey(args, "unique") && Lookup(args, "unique").value == "true")
  {
    var p := PlainArgs(api.table.field, args);
    assert p.Success?;
    PlainArguments(api.table.field, args);
  }

  lemma PlainArguments(n2f: FieldMap, args: Args)
    requires PlainArgs(n2f, args).Success?
    ensures var p := PlainArgs(n2f, args).value;
      && p.fields == ListArg(args, "fields")
      && p.limit == ParseInt(GetOr(args, "limit", "50")).value
      && p.offset == ParseInt(GetOr(args, "offset", "0")).value
      && (!HasKey(args, "limit") ==> p.limit == 50)
      && (!HasKey(args, "offset") ==> p.offset == 0)
      && (p.distinct <==> HasKey(args, "unique") && Lookup(args, "unique").value == "true")
  {
    DefaultsParse();
    if !HasKey(args, "limit") {
      IntArgDefault(args, "limit", "50", 50);
    }
    if !HasKey(args, "offset") {
      IntArgDefault(args, "offset", "0", 0);
    }
  }

  /** Every argument other than the handler's own is a known field with an optional `[op]`. */
  lemma GetFilterKeys(api: Api, args: Args)
    requires GetQuery(api, args).Success?
    ensures forall i | 0 <= i < |args| :: args[i].0 in OpFields || KnownKey(api.table.field, args[i].0)
  {
    var p := PlainArgs(api.table.field, args).value;
    assert WhereOf(api, args, |p.groupBy| > 0).Success?;
    var items := Items(args);
    assert FilterFields(OpFields, api.table.field, items).Success?;
    ItemsLookup(args);
    forall i | 0 <= i < |args| ensures args[i].0 in OpFields || KnownKey(api.table.field, args[i].0) {
      assert HasKey(args, args[i].0);
      var p :| p in items && p.0 == args[i].0;
    }
  }

  /** The filters `get` dispatches, in dispatch order. */
  function Filters(api: Api, args: Args): seq<Filter>
    requires FilterFields(OpFields, api.table.field, Items(args)).Success?
  {
    FlatFilters(FilterFields(OpFields, api.table.field, Items(args)).value)
  }

  /**
   * The query's filters: each filter argument became one condition or one
   * `max` sub-query, and a `group_by` admits no `max`. The conditions on
   * each model field are, in order, the conditions its filters became, and
   * the sub-queries are those of the `max` filters, in order.
   */
  lemma GetFilters(api: Api, args: Args)
    requires GetQuery(api, args).Success?
    ensures FilterFields(OpFields, api.table.field, Items(args)).Success?
    ensures var q := GetQuery(api, args).value;
      var fs := Filters(api, args);
      var conds := CondList(api.table.field, Conditions(api.deserializers), fs);
      && (|q.groupBy| > 0 ==> q.maxFilters == [] && |q.conditions| == FilterCount(OpFields, Items(args)))
      && (|q.groupBy| == 0 ==> |q.conditions| + |q.maxFilters| == FilterCount(OpFields, Items(args)))
      && (forall k :: On(q.conditions, k) == On(conds, k))
      && (forall c :: c in q.conditions <==> c in conds)
      && (|q.groupBy| == 0 ==>
            |q.maxFilters| == |MaxesOf(fs)|
            && forall i | 0 <= i < |q.maxFilters| :: Success(q.maxFilters[i]) == MaxFilterOf(api.table.field, MaxesOf(fs)[i]))
  {
    var p := PlainArgs(api.table.field, args).value;
    WhereCounts(api, args, |p.groupBy| > 0);
  }

  lemma WhereCounts(api: Api, args: Args, grouped: bool)
    requires WhereOf(api, args, grouped).Success?
    ensures FilterFields(OpFields, api.table.field, Items(args)).Success?
    ensures var w := WhereOf(api, args, grouped).value;
      var fs := Filters(api, args);
      var conds := CondList(api.table.field, Conditions(api.deserializers), fs);
      && (grouped ==> w.maxFilters == [] && |w.conditions| == FilterCount(OpFields, Items(args)))
      && (!grouped ==> |w.conditions| + |w.maxFilters| == FilterCount(OpFields, Items(args)))
      && (forall k :: On(w.conditions, k) == On(conds, k))
      && (forall c :: c in w.conditions <==> c in conds)
      && (!grouped ==>
            |w.maxFilters| == |MaxesOf(fs)|
            && forall i | 0 <= i < |w.maxFilters| :: Success(w.maxFilters[i]) == MaxFilterOf(api.table.field, MaxesOf(fs)[i]))
  {
    var n2f := api.table.field;
    var groups := FilterFields(OpFields, n2f, Items(args)).value;
    var fs := FlatFilters(groups);
    var cond := Conditions(api.deserializers);
    DispatchKeepsAll(n2f, cond, fs);
    DispatchConds(n2f, cond, fs);
    DispatchMaxes(n2f, cond, fs);
  }

  /** A `get` whose arguments are otherwise valid answers 400 for an argument
      that is neither the handler's own nor a known field. */
  lemma GetUnknownFilter(api: Api, args: Args, i: nat)
    requires i < |args| && args[i].0 !in OpFields && !KnownKey(api.table.field, args[i].0)
    requires SelectFields(api.table.field, args).Success?
    requires IntArg(args, "limit", "50").Success? && IntArg(args, "offset", "0").Success?
    requires OrderBy(api.table.field, args, BadRequest).Success? && GroupBy(api.table.field, args).Success?
    ensures GetQuery(api, args) == Failure(BadRequest)
  {
    ItemsLookup(args);
    assert HasKey(args, args[i].0);
    var p :| p in Items(args) && p.0 == args[i].0;
  }

  // ---------------------------------------------------------------------
  // POST /<table>/find_by_ids

  /** `{"items": ..., "total": ...}`: a list, or with `fields` a dict by id. */
  datatype Found = FoundList(items: seq<Record>, total: int) | FoundById(byId: seq<(Value, Record)>, total: int)

  /** `(item["id"], {k: item[k] for k in names if k in item})` for each item. */
  function Projections(items: seq<Record>, names: seq<string>): seq<(Value, Record)>
    requires forall j | 0 <= j < |items| :: "id" in items[j]
  {
    seq(|items|, j requires 0 <= j < |items| => (items[j]["id"], ProjectPresent(items[j], names)))
  }

  /** find_by_ids, given the serialized records the database returned for the ids. */
  function FindByIds(api: Api, args: Args, body: seq<Entry>, found: seq<Record>): (r: Result<Found, Fail>)
    ensures Deserializers.FieldValue(body, "ids").None? ==> r == Failure(BadRequest)
    ensures Deserializers.FieldValue(body, "ids").Some? ==>
      (r.Success? <==> SelectFields(api.table.field, args).Success?
                       && (|ListArg(args, "fields")| == 0 || forall j | 0 <= j < |found| :: "id" in found[j]))
      && (r.Failure? ==> r.error == Raised(KeyError))
    ensures r.Success? ==> (r.value.FoundList? <==> |ListArg(args, "fields")| == 0)
    ensures r.Success? && r.value.FoundList? ==> r.value.items == found && r.value.total == |found|
    ensures r.Success? && r.value.FoundById? ==> r.value.total == |r.value.byId| <= |found| && DistinctIds(r.value.byId)
  {
    if Deserializers.FieldValue(body, "ids").None? then Failure(BadRequest)
    else
      var names :- SelectFields(api.table.field, args);
      if |names| == 0 then Success(FoundList(found, |found|))
      else
        if exists j | 0 <= j < |found| :: "id" !in found[j] then Failure(Raised(KeyError))
        else
          var d := ById(Projections(found, names));
          Success(FoundById(d, |d|))
  }

  /**
   * With `fields`, the dict holds the id of every record found, and each
   * entry is the `(id, projection)` pair of the last record with that id.
   */
  lemma FindByIdsFound(api: Api, args: Args, body: seq<Entry>, found: seq<Record>)
    requires FindByIds(api, args, body, found).Success? && FindByIds(api, args, body, found).value.FoundById?
    ensures forall j | 0 <= j < |found| :: "id" in found[j]
    ensures var d := FindByIds(api, args, body, found).value.byId;
      var pairs := Projections(found, ListArg(args, "fields"));
      && (forall j | 0 <= j < |found| :: HasId(d, found[j]["id"]))
      && forall j | 0 <= j < |d| :: exists i | 0 <= i < |pairs| :: d[j] == pairs[i] && LastOfKey(pairs, i)
  {
    var pairs := Projections(found, ListArg(args, "fields"));
    assert FindByIds(api, args, body, found).value.byId == ById(pairs);
    ByIdKeys(pairs);
    ByIdLast(pairs);
    assert forall j | 0 <= j < |found| :: pairs[j].0 == found[j]["id"];
  }

  // ---------------------------------------------------------------------
  // Payloads of create and update.

  /** A record's attributes, by name. */
  type Row = map<string, Value>

  /**
   * The attributes the loop over `name2field`'s first `n` names takes from
   * `body`: each name present in the body, deserialized; the first
   * deserializer that raises stops the request.
   */
  function Assigned(api: Api, body: seq<Entry>, n: nat): Result<Row, Fail>
    requires n <= |api.table.names|
  {
    if n == 0 then Success(map[])
    else
      var row :- Assigned(api, body, n - 1);
      var name := api.table.names[n - 1];
      match Deserializers.FieldValue(body, name)
      case None => Success(row)
      case Some(raw) =>
        if name !in api.deserializers then Failure(Raised(KeyError))
        else
          var v :- Raise(api.deserializers[name](raw));
          Success(row[name := v])
  }

  /** The attributes set are exactly the names among the first `n` that the body holds. */
  lemma {:induction false} AssignedKeys(api: Api, body: seq<Entry>, n: nat)
    requires n <= |api.table.names| && Assigned(api, body, n).Success?
    ensures forall k :: k in Assigned(api, body, n).value <==>
      k in api.table.names[..n] && Deserializers.FieldValue(body, k).Some?
  {
    if n > 0 {
      AssignedKeys(api, body, n - 1);
      assert api.table.names[..n] == api.table.names[..n - 1] + [api.table.names[n - 1]];
    }
  }

  /** Each stored value is what the name's deserializer made of the body's value. */
  lemma {:induction false} AssignedValues(api: Api, body: seq<Entry>, n: nat)
    requires n <= |api.table.names| && Assigned(api, body, n).Success?
    ensures forall k | k in Assigned(api, body, n).value ::
      k in api.deserializers && Deserializers.FieldValue(body, k).Some? &&
      api.deserializers[k](Deserializers.FieldValue(body, k).value) == Success(Assigned(api, body, n).value[k])
  {
    if n > 0 {
      AssignedValues(api, body, n - 1);
    }
  }

  /** The loop over `name2field` of create and update. */
  method AssignLoop(api: Api, body: seq<Entry>) returns (r: Result<Row, Fail>)
    ensures r == Assigned(api, body, |api.table.names|)
  {
    var row: Row := map[];
    var names := api.table.names;
    for i := 0 to |names|
      invariant Assigned(api, body, i) == Success(row)
    {
      var name := names[i];
      var raw := Deserializers.FieldValue(body, name);
      if raw.Some? {
        if name !in api.deserializers {
          AssignedFailed(api, body, i + 1);
          return Failure(Raised(KeyError));
        }
        var v := api.deserializers[name](raw.value);
        if v.Failure? {
          AssignedFailed(api, body, i + 1);
          return Failure(Raised(v.error));
        }
        row := row[name := v.value];
      }
    }
    r := Success(row);
  }

  lemma {:induction false} AssignedFailed(api: Api, body: seq<Entry>, n: nat)
    requires n <= |api.table.names| && Assigned(api, body, n).Failure?
    ensures Assigned(api, body, |api.table.names|) == Assigned(api, body, n)
    decreases |api.table.names| - n
  {
    if n < |api.table.names| {
      AssignedFailed(api, body, n + 1);
    }
  }

  /** The body's name `m` sets field `k`: a foreign key's `<name>` and `<name>_id` both set the field `<name>`. */
  predicate Writes(t: FieldTable, raw: Row, m: nat, k: string)
    requires m < |t.names|
  {
    t.names[m] in raw && t.names[m] in t.field && t.field[t.names[m]].name == k
  }

  /**
   * The fields of a record after `setattr(record, name, raw[name])` for the
   * first `n` names of `name2field` that `raw` holds (`Model.create(**raw)`
   * sets them in the same order): each name writes its model field, so the
   * last name that writes a field decides its value.
   */
  function Written(t: FieldTable, raw: Row, n: nat): Row
    requires n <= |t.names|
  {
    if n == 0 then map[]
    else
      var w := Written(t, raw, n - 1);
      var name := t.names[n - 1];
      if name in raw && name in t.field then w[t.field[name].name := raw[name]] else w
  }

  /** The fields written are exactly those some name in `raw` leads to. */
  lemma {:induction false} WrittenKeys(t: FieldTable, raw: Row, n: nat, k: string)
    requires n <= |t.names|
    ensures k in Written(t, raw, n) <==> exists m | 0 <= m < n :: Writes(t, raw, m, k)
  {
    if n > 0 {
      WrittenKeys(t, raw, n - 1, k);
      if Writes(t, raw, n - 1, k) {
        assert k in Written(t, raw, n);
      } else if exists m | 0 <= m < n :: Writes(t, raw, m, k) {
        var m :| 0 <= m < n && Writes(t, raw, m, k);
        assert m < n - 1;
      }
    }
  }

  /** A field holds the value of the last name that writes it. */
  lemma {:induction false} WrittenLast(t: FieldTable, raw: Row, n: nat, m: nat, k: string)
    requires m < n <= |t.names| && Writes(t, raw, m, k)
    requires forall m' | m < m' < n :: !Writes(t, raw, m', k)
    ensures k in Written(t, raw, n) && Written(t, raw, n)[k] == raw[t.names[m]]
  {
    if m < n - 1 {
      WrittenLast(t, raw, n - 1, m, k);
      assert !Writes(t, raw, n - 1, k);
    }
  }

  // ---------------------------------------------------------------------
  // The handlers that read or change single records.

  /**
   * The key `record.save()` writes to: peewee updates the row whose primary
   * key is the record's current `id`, which a body `id` has replaced.
   */
  function SavedKey(id: Value, changes: Row): (key: Value)
    ensures "id" !in changes ==> key == id
    ensures "id" in changes ==> key == changes["id"]
  {
    if "id" in changes then changes["id"] else id
  }

  /** The model's table: its records by primary key. */
  class Table {
    var rows: map<Value, Row>

    constructor (rows: map<Value, Row>)
      ensures this.rows == rows
    {
      this.rows := rows;
    }

    /** GET /<table>/<id> */
    method GetOne(api: Api, args: Args, id: Value, serialize: Row -> Record) returns (r: Result<Record, Fail>)
      ensures SelectFields(api.table.field, args).Failure? ==> r == Failure(Raised(KeyError))
      ensures SelectFields(api.table.field, args).Success? && id !in rows ==> r == Failure(NotFound)
      ensures r.Success? ==> id in rows
      ensures r.Success? && ListArg(args, "fields") == [] ==> r.value == serialize(rows[id])
      ensures r.Success? && ListArg(args, "fields") != [] ==>
        Success(r.value) == ProjectStrict(serialize(rows[id]), ListArg(args, "fields"))
    {
      var names :- SelectFields(api.table.field, args);
      if id !in rows {
        return Failure(NotFound);
      }
      var record := serialize(rows[id]);
      if |names| > 0 {
        r := ProjectStrict(record, names);
      } else {
        r := Success(record);
      }
    }

    /** HEAD /<table>/<id> */
    method Has(id: Value) returns (r: Result<(), Fail>)
      ensures r.Success? <==> id in rows
      ensures r.Failure? ==> r.error == NotFound
    {
      if id !in rows {
        return Failure(NotFound);
      }
      return Success(());
    }

    /** POST /<table>: `Model.create(**raw_record)` without `id`; the record is stored under
        `newId`, the key the database hands out. */
    method Create(api: Api, body: seq<Entry>, newId: Value, serialize: Row -> Record) returns (r: Result<Record, Fail>)
      requires newId !in rows
      modifies this
      ensures r.Failure? ==> rows == old(rows) && Assigned(api, body, |api.table.names|).Failure?
      ensures r.Failure? ==> r.error == Assigned(api, body, |api.table.names|).error
      ensures r.Success? ==> Assigned(api, body, |api.table.names|).Success?
      ensures r.Success? ==>
        var created := Written(api.table, Assigned(api, body, |api.table.names|).value - {"id"}, |api.table.names|)["id" := newId];
        rows == old(rows)[newId := created] && r.value == serialize(created)
    {
      var raw := AssignLoop(api, body);
      if raw.Failure? {
        return Failure(raw.error);
      }
      var created := Written(api.table, raw.value - {"id"}, |api.table.names|)["id" := newId];
      rows := rows[newId := created];
      return Success(serialize(created));
    }

    /** PUT /<table>/<id> */
    method Update(api: Api, id: Value, body: Option<seq<Entry>>, serialize: Row -> Record) returns (r: Result<Record, Fail>)
      modifies this
      ensures id !in old(rows) ==> r == Failure(NotFound)
      ensures id in old(rows) && body.None? ==> r == Failure(BadRequest)
      ensures r.Failure? ==> rows == old(rows)
      ensures r.Success? ==> id in old(rows) && body.Some? && Assigned(api, body.value, |api.table.names|).Success?
      ensures r.Success? ==>
        var changes := Written(api.table, Assigned(api, body.value, |api.table.names|).value, |api.table.names|);
        var updated := old(rows)[id] + changes;
        var key := SavedKey(id, changes);
        rows == (if key in old(rows) then old(rows)[key := updated] else old(rows)) && r.value == serialize(updated)
    {
      if id !in rows {
        return Failure(NotFound);
      }
      if body.None? {
        return Failure(BadRequest);
      }
      var raw := AssignLoop(api, body.value);
      if raw.Failure? {
        return Failure(raw.error);
      }
      var changes := Written(api.table, raw.value, |api.table.names|);
      var updated := rows[id] + changes;
      var key := SavedKey(id, changes);
      if key in rows {
        rows := rows[key := updated];
      }
      return Success(serialize(updated));
    }

    /** DELETE /<table>/<id> */
    method DeleteById(id: Value) returns (r: Result<(), Fail>)
      modifies this
      ensures r.Success? <==> id in old(rows)
      ensures r.Failure? ==> r.error == NotFound && rows == old(rows)
      ensures r.Success? ==> rows == old(rows) - {id}
    {
      if id !in rows {
        return Failure(NotFound);
      }
      rows := rows - {id};
      return Success(());
    }

    /** DELETE /<table> */
    method TruncateTable()
      modifies this
      ensures rows == map[]
    {
      rows := map[];
    }
  }
}
