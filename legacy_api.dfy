/**
 * `generate_api` of flask_peewee_restful/api_generator.py, the older
 * generator: `name2field` holds the model's own field names only, filter
 * values are normalized with each field's `db_value` instead of a
 * deserializer, there is no `in` operator and no `group_by`, and a
 * request with `limit=1` reports a total of 1 without counting.
 */
module LegacyApi {
  import opened Wrappers
  import opened Py
  import opened Text
  import opened Peewee
  import opened RequestArgs
  import opened Query

  /** The arguments `get` reads itself rather than as filters. */
  const OpFields: set<string> := {"fields", "limit", "offset", "unique", "sorted_by"}

  /** A field's `db_value`: raises, or returns the value compared with. */
  type Norm = Value -> Result<Value, Exc>

  /** What `generate_api` keeps for its handlers. */
  datatype Api = Api(n2f: FieldMap, norm: map<string, Norm>)

  // ---------------------------------------------------------------------
  // generate_api

  /** `{name: field for name, field in Model._meta.fields.items()}` over the first `n` fields. */
  function FieldsByName(fields: seq<ModelField>, n: nat): (r: FieldMap)
    requires n <= |fields|
    ensures forall k :: k in r <==> exists i | 0 <= i < n :: fields[i].name == k
  {
    if n == 0 then map[]
    else
      var r := FieldsByName(fields, n - 1)[fields[n - 1].name := fields[n - 1]];
      assert forall k | k in r && k != fields[n - 1].name :: exists i | 0 <= i < n - 1 :: fields[i].name == k;
      r
  }

  /** The last field of a name is the one the name leads to. */
  lemma {:induction false} FieldsByNameLast(fields: seq<ModelField>, n: nat, i: nat)
    requires i < n <= |fields| && forall j | i < j < n :: fields[j].name != fields[i].name
    ensures fields[i].name in FieldsByName(fields, n) && FieldsByName(fields, n)[fields[i].name] == fields[i]
  {
    if i < n - 1 {
      FieldsByNameLast(fields, n - 1, i);
    }
  }

  /** `{name: field.db_value for ...}` */
  function NormByName(fields: seq<ModelField>, dbValue: ModelField -> Norm, n: nat): (r: map<string, Norm>)
    requires n <= |fields|
    ensures r.Keys == FieldsByName(fields, n).Keys
  {
    if n == 0 then map[]
    else NormByName(fields, dbValue, n - 1)[fields[n - 1].name := dbValue(fields[n - 1])]
  }

  /** What the handlers can count on. */
  predicate Ready(api: Api) {
    api.n2f.Keys == api.norm.Keys && api.n2f.Keys !! OpFields
  }

  /**
   * generate_api, with `dbValue` standing for each field's `db_value`: the
   * handlers' own argument names must not be field names.
   */
  function GenerateApi(m: PeeweeModel, dbValue: ModelField -> Norm): (r: Result<Api, Exc>)
    ensures r.Success? <==> forall i | 0 <= i < |m.fields| :: m.fields[i].name !in OpFields
    ensures r.Failure? ==> r.error == AssertionError
    ensures r.Success? ==> Ready(r.value)
    ensures r.Success? ==> forall i | 0 <= i < |m.fields| :: m.fields[i].name in r.value.n2f
  {
    var n2f := FieldsByName(m.fields, |m.fields|);
    var norm := NormByName(m.fields, dbValue, |m.fields|);
    if n2f.Keys !! OpFields then
      assert forall i | 0 <= i < |m.fields| :: m.fields[i].name in n2f;
      Success(Api(n2f, norm))
    else
      var k :| k in n2f.Keys && k in OpFields;
      Failure(AssertionError)
  }

  // ---------------------------------------------------------------------
  // GET /<table>

  /**
   * The condition a filter other than `max` becomes: the value is normalized
   * first (its exception escapes); then only no operator, gt, gte, lt and lte
   * are accepted.
   */
  function Condition(norm: map<string, Norm>, f: Filter): (r: Result<(Op, Value), Fail>)
    ensures r.Success? ==> f.name in norm && CompareOp(f.op).Some? && r.value.0 == CompareOp(f.op).value
    ensures r.Success? ==> Success(r.value.1) == norm[f.name](VStr(f.value))
    ensures f.name in norm && norm[f.name](VStr(f.value)).Failure? ==>
      r == Failure(Raised(norm[f.name](VStr(f.value)).error))
    ensures f.name in norm && norm[f.name](VStr(f.value)).Success? && CompareOp(f.op).None? ==>
      r == Failure(BadRequest)
  {
    if f.name !in norm then Failure(Raised(KeyError))
    else
      var v :- Raise(norm[f.name](VStr(f.value)));
      match CompareOp(f.op)
      case None => Failure(BadRequest)
      case Some(op) => Success((op, v))
  }

  function Conditions(norm: map<string, Norm>): Conditioner {
    f => Condition(norm, f)
  }

  /** The arguments `get` reads itself. */
  datatype Plain = Plain(fields: seq<string>, limit: int, offset: int, distinct: bool, orderBy: seq<(string, Dir)>)

  /** `default_limit = str(50)` */
  const DefaultLimit: string := ShowInt(50)

  /** The first phase of `get`: an unknown `fields` or `sorted_by` name is a KeyError. */
  function PlainArgs(n2f: FieldMap, args: Args): Result<Plain, Fail> {
    var fields :- SelectFields(n2f, args);
    var limit :- IntArg(args, "limit", DefaultLimit);
    var offset :- IntArg(args, "offset", "0");
    var distinct := GetOr(args, "unique", "false") == "true";
    var orderBy :- OrderBy(n2f, args, Raised(KeyError));
    Success(Plain(fields, limit, offset, distinct, orderBy))
  }

  /** The WHERE clause: conditions and `max` sub-queries. */
  datatype Where = Where(conditions: seq<Cond>, maxFilters: seq<MaxFilter>)

  /** The second phase: the filter arguments. */
  function WhereOf(api: Api, args: Args): Result<Where, Fail> {
    var groups :- FilterFields(OpFields, api.n2f, Items(args));
    var st :- Dispatch(api.n2f, Conditions(api.norm), FlatFilters(groups));
    var maxFilters :- Collect(MaxFilterResults(api.n2f, st.maxes));
    Success(Where(Flatten(st.conds), maxFilters))
  }

  /** What `get` builds, or how it fails, for the arguments `args`. */
  function GetQuery(api: Api, args: Args): Result<Query, Fail> {
    var p :- PlainArgs(api.n2f, args);
    var w :- WhereOf(api, args);
    Success(Query(p.fields, p.distinct, p.orderBy, [], w.conditions, w.maxFilters, p.limit, p.offset))
  }

  /** The handler's steps, up to the query it runs. */
  method Get(api: Api, args: Args) returns (r: Result<Query, Fail>)
    ensures r == GetQuery(api, args)
  {
    var n2f := api.n2f;
    var fields :- SelectFields(n2f, args);
    var limit :- IntArg(args, "limit", DefaultLimit);
    var offset :- IntArg(args, "offset", "0");
    var distinct := GetOr(args, "unique", "false") == "true";
    var orderBy :- SortLoop(n2f, ListArg(args, "sorted_by"), Raised(KeyError));
    assert PlainArgs(n2f, args) == Success(Plain(fields, limit, offset, distinct, orderBy));
    var groups :- FilterLoop(OpFields, n2f, Items(args));
    var st :- DispatchLoop(n2f, Conditions(api.norm), groups);
    var maxFilters :- MaxLoop(n2f, st.maxes);
    assert WhereOf(api, args) == Success(Where(Flatten(st.conds), maxFilters));
    return Success(Query(fields, distinct, orderBy, [], Flatten(st.conds), maxFilters, limit, offset));
  }

  /**
   * The page, given the serialized rows and the number of matches: with
   * `fields`, every item has exactly those keys (a row that lacks one is a
   * KeyError); `limit=1` reports a total of 1, any other limit the count.
   */
  function Reply(q: Query, rows: seq<Record>, count: int): (r: Result<Listing, Fail>)
    ensures r.Success? ==> |r.value.items| == |rows| && r.value.total == (if q.limit == 1 then 1 else count)
    ensures |q.fields| == 0 ==> r.Success? && r.value.items == rows
    ensures r.Success? && |q.fields| > 0 ==> forall j, k | 0 <= j < |rows| :: k in r.value.items[j] <==> k in q.fields
    ensures r.Success? && |q.fields| > 0 ==>
      forall j, k | 0 <= j < |rows| && k in r.value.items[j] :: k in rows[j] && r.value.items[j][k] == rows[j][k]
    ensures r.Failure? <==> |q.fields| > 0 && exists j, i | 0 <= j < |rows| && 0 <= i < |q.fields| :: q.fields[i] !in rows[j]
  {
    // total: with `limit=1` the matches are not counted
    Respond(q, rows, if q.limit == 1 then 1 else count)
  }

  /** The plain arguments: `limit` defaults to 50, `offset` to 0, `unique` is on only for "true". */
  lemma GetArguments(api: Api, args: Args)
    requires GetQuery(api, args).Success?
    ensures var q := GetQuery(api, args).value;
      && q.fields == ListArg(args, "fields")
      && q.groupBy == []
      && (!HasKey(args, "limit") ==> q.limit == 50)
      && (!HasKey(args, "offset") ==> q.offset == 0)
      && (HasKey(args, "limit") ==> q.limit == ParseInt(Lookup(args, "limit").value).value)
      && (q.distinct <==> HasKey(args, "unique") && Lookup(args, "unique").value == "true")
  {
    assert PlainArgs(api.n2f, args).Success?;
    PlainArguments(api.n2f, args);
  }

  lemma PlainArguments(n2f: FieldMap, args: Args)
    requires PlainArgs(n2f, args).Success?
    ensures var p := PlainArgs(n2f, args).value;
      && p.fields == ListArg(args, "fields")
      && (!HasKey(args, "limit") ==> p.limit == 50)
      && (!HasKey(args, "offset") ==> p.offset == 0)
      && (HasKey(args, "limit") ==> p.limit == ParseInt(Lookup(args, "limit").value).value)
      && (p.distinct <==> HasKey(args, "unique") && Lookup(args, "unique").value == "true")
  {
    DefaultsParse();
    if !HasKey(args, "limit") {
      IntArgDefault(args, "limit", DefaultLimit, 50);
    }
    if !HasKey(args, "offset") {
      IntArgDefault(args, "offset", "0", 0);
    }
  }

  /** Every argument other than the handler's own is a known field with an optional `[op]`. */
  lemma GetFilterKeys(api: Api, args: Args)
    requires GetQuery(api, args).Success?
    ensures forall i | 0 <= i < |args| :: args[i].0 in OpFields || KnownKey(api.n2f, args[i].0)
  {
    assert WhereOf(api, args).Success?;
    var items := Items(args);
    assert FilterFields(OpFields, api.n2f, items).Success?;
    ItemsLookup(args);
    forall i | 0 <= i < |args| ensures args[i].0 in OpFields || KnownKey(api.n2f, args[i].0) {
      assert HasKey(args, args[i].0);
      var p :| p in items && p.0 == args[i].0;
    }
  }

  /**
   * Each filter argument became one condition or one `max` sub-query: the
   * conditions on each model field are, in order, the conditions its
   * filters became, and the sub-queries are those of the `max` filters.
   */
  lemma GetFilters(api: Api, args: Args)
    requires GetQuery(api, args).Success?
    ensures FilterFields(OpFields, api.n2f, Items(args)).Success?
    ensures var q := GetQuery(api, args).value;
      var fs := FlatFilters(FilterFields(OpFields, api.n2f, Items(args)).value);
      var conds := CondList(api.n2f, Conditions(api.norm), fs);
      && |q.conditions| + |q.maxFilters| == FilterCount(OpFields, Items(args))
      && (forall k :: On(q.conditions, k) == On(conds, k))
      && (forall c :: c in q.conditions <==> c in conds)
      && |q.maxFilters| == |MaxesOf(fs)|
      && forall i | 0 <= i < |q.maxFilters| :: Success(q.maxFilters[i]) == MaxFilterOf(api.n2f, MaxesOf(fs)[i])
  {
    assert WhereOf(api, args).Success?;
    var groups := FilterFields(OpFields, api.n2f, Items(args)).value;
    var fs := FlatFilters(groups);
    DispatchKeepsAll(api.n2f, Conditions(api.norm), fs);
    DispatchConds(api.n2f, Conditions(api.norm), fs);
    DispatchMaxes(api.n2f, Conditions(api.norm), fs);
  }

  /** There is no `in` here: a normalized `name[in]=...` filter answers 400. */
  lemma NoInOperator(api: Api, name: string, value: string)
    requires name in api.norm && api.norm[name](VStr(value)).Success?
    ensures Condition(api.norm, Filter(name, Some("in"), value)) == Failure(BadRequest)
  {
  }

  // ---------------------------------------------------------------------
  // GET /<table>/<id>

  /** get_one over the table's records by primary key. */
  function GetOne<R>(rows: map<Value, R>, id: Value, serialize: R -> Record): (r: Result<Record, Fail>)
    ensures r.Success? <==> id in rows
    ensures r.Failure? ==> r.error == NotFound
    ensures r.Success? ==> r.value == serialize(rows[id])
  {
    if id in rows then Success(serialize(rows[id])) else Failure(NotFound)
  }
}
