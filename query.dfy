/**
 * The query `GET /<table>` builds from its arguments, in the steps both
 * generations of the generator share: the `fields` projection, integer
 * arguments, `sorted_by`, the filter keys grouped by field name, the
 * dispatch of each filter into a WHERE condition or a pending `max`, and the
 * sub-queries a pending `max` turns into. The SQL itself is not modelled:
 * a query is the record of what the handler asked peewee for.
 */
module Query {
  import opened Wrappers
  import opened Py
  import opened Text
  import opened Peewee
  import opened RequestArgs

  /** `name2field`: a query name to the model field it selects. */
  type FieldMap = map<string, ModelField>

  datatype Dir = Asc | Desc

  /** The comparison a WHERE condition makes. */
  datatype Op = Eq | Gt | Gte | Lt | Lte | In

  /** `field <op> value`, on the model field's own name. */
  datatype Cond = Cond(field: string, op: Op, value: Value)

  /** Keep, per group of `groupBy`, the record whose `field` is largest. */
  datatype MaxFilter = MaxFilter(field: string, groupBy: seq<string>)

  /** One filter argument `name[op]=value` after parsing its key. */
  datatype Filter = Filter(name: string, op: Option<string>, value: string)

  datatype Query = Query(
    fields: seq<string>,
    distinct: bool,
    orderBy: seq<(string, Dir)>,
    groupBy: seq<string>,
    conditions: seq<Cond>,
    maxFilters: seq<MaxFilter>,
    limit: int,
    offset: int)

  /** The page a listing handler answers with: `{"items": ..., "total": ...}`. */
  datatype Listing = Listing(items: seq<Record>, total: int)

  // ---------------------------------------------------------------------
  // Plain arguments.

  /** `request.args[k].split(",")` when `k` is given, otherwise no names. */
  function ListArg(args: Args, k: string): seq<string> {
    if HasKey(args, k) then Split(Lookup(args, k).value, ',') else []
  }

  /** `[name2field[name] for name in field_names]`: every requested name must be known. */
  function SelectFields(n2f: FieldMap, args: Args): (r: Result<seq<string>, Fail>)
    ensures r.Success? <==> forall i | 0 <= i < |ListArg(args, "fields")| :: ListArg(args, "fields")[i] in n2f
    ensures r.Success? ==> r.value == ListArg(args, "fields")
    ensures r.Failure? ==> r.error == Raised(KeyError)
  {
    var names := ListArg(args, "fields");
    if forall i | 0 <= i < |names| :: names[i] in n2f then Success(names) else Failure(Raised(KeyError))
  }

  /** `int(request.args.get(k, default))`: ValueError when the text is not an integer. */
  function IntArg(args: Args, k: string, default: string): (r: Result<int, Fail>)
    ensures r.Success? <==> ParseInt(GetOr(args, k, default)).Some?
    ensures r.Success? ==> r.value == ParseInt(GetOr(args, k, default)).value
    ensures r.Failure? ==> r.error == Raised(ValueError)
  {
    match ParseInt(GetOr(args, k, default))
    case None => Failure(Raised(ValueError))
    case Some(n) => Success(n)
  }

  /** The defaults `get` passes to `int(...)` for `limit` and `offset`. */
  lemma DefaultsParse()
    ensures ParseInt(ShowInt(50)) == Some(50) && ShowInt(50) == "50"
    ensures ParseInt("0") == Some(0)
  {
    ParseShowInt(50);
    ParseShowInt(0);
    assert ShowInt(50) == "50" by { ShowNatValue(50); }
    assert ShowInt(0) == "0" by { ShowNatValue(0); }
  }

  /** An absent argument reads as its default. */
  lemma IntArgDefault(args: Args, k: string, default: string, n: int)
    requires !HasKey(args, k) && ParseInt(default) == Some(n)
    ensures IntArg(args, k, default) == Success(n)
  {
  }

  // ---------------------------------------------------------------------
  // sorted_by

  /** One `sorted_by` entry: a leading "-" sorts descending; `unknown` is what an
      unknown name fails with. */
  function SortTerm(n2f: FieldMap, part: string, unknown: Fail): (r: Result<(string, Dir), Fail>)
    ensures r.Success? <==> (if StartsWith(part, "-") then part[1..] else part) in n2f
    ensures r.Success? ==> r.value.1 == (if StartsWith(part, "-") then Desc else Asc)
    ensures r.Success? ==> r.value.0 == n2f[if StartsWith(part, "-") then part[1..] else part].name
    ensures r.Failure? ==> r.error == unknown
  {
    if StartsWith(part, "-") then
      if part[1..] in n2f then Success((n2f[part[1..]].name, Desc)) else Failure(unknown)
    else if part in n2f then Success((n2f[part].name, Asc))
    else Failure(unknown)
  }

  function SortTerms(n2f: FieldMap, parts: seq<string>, unknown: Fail): seq<Result<(string, Dir), Fail>> {
    seq(|parts|, i requires 0 <= i < |parts| => SortTerm(n2f, parts[i], unknown))
  }

  /** The ORDER BY clause: the first unknown name fails. */
  function OrderBy(n2f: FieldMap, args: Args, unknown: Fail): (r: Result<seq<(string, Dir)>, Fail>)
    ensures r.Failure? ==> r.error == unknown
    ensures r.Success? ==>
      var parts := ListArg(args, "sorted_by");
      |r.value| == |parts| && forall i | 0 <= i < |parts| :: SortTerm(n2f, parts[i], unknown) == Success(r.value[i])
  {
    Collect(SortTerms(n2f, ListArg(args, "sorted_by"), unknown))
  }

  /** The `sorted_by` loop. */
  method SortLoop(n2f: FieldMap, parts: seq<string>, unknown: Fail) returns (r: Result<seq<(string, Dir)>, Fail>)
    ensures r == Collect(SortTerms(n2f, parts, unknown))
  {
    var order: seq<(string, Dir)> := [];
    for i := 0 to |parts|
      invariant |order| == i
      invariant forall j | 0 <= j < i :: SortTerms(n2f, parts, unknown)[j] == Success(order[j])
    {
      var part := parts[i];
      var dir := Asc;
      if StartsWith(part, "-") {
        part := part[1..];
        dir := Desc;
      }
      if part !in n2f {
        CollectStopsAt(SortTerms(n2f, parts, unknown), i);
        return Failure(unknown);
      }
      order := order + [(n2f[part].name, dir)];
    }
    CollectAll(SortTerms(n2f, parts, unknown), order);
    r := Success(order);
  }

  // ---------------------------------------------------------------------
  // Filter keys, grouped by field name (`filter_fields`).

  /** A filter key the pattern accepts and whose name is a known field. */
  predicate KnownKey(n2f: FieldMap, key: string) {
    ParseKey(key).Some? && ParseKey(key).value.name in n2f
  }

  function FilterStep(opFields: set<string>, n2f: FieldMap, g: Groups<string, (Option<string>, string)>,
                      item: (string, string)): Result<Groups<string, (Option<string>, string)>, Fail>
  {
    if item.0 in opFields then Success(g)
    else
      match ParseKey(item.0)
      case None => Failure(BadRequest)
      case Some(k) => if k.name in n2f then Success(Append(g, k.name, (k.op, item.1))) else Failure(BadRequest)
  }

  /** How many of `items` are filters rather than the handler's own arguments. */
  function FilterCount(opFields: set<string>, items: seq<(string, string)>): nat {
    if |items| == 0 then 0
    else FilterCount(opFields, items[..|items| - 1]) + if items[|items| - 1].0 in opFields then 0 else 1
  }

  /** A filter argument as `(name, (op, value))`; nothing for the handler's own arguments. */
  function FilterPair(opFields: set<string>, item: (string, string)): seq<(string, (Option<string>, string))> {
    if item.0 in opFields || ParseKey(item.0).None? then []
    else [(ParseKey(item.0).value.name, (ParseKey(item.0).value.op, item.1))]
  }

  /** The filter arguments among `items`, in argument order. */
  function FilterPairs(opFields: set<string>, items: seq<(string, string)>): seq<(string, (Option<string>, string))> {
    if |items| == 0 then []
    else FilterPairs(opFields, items[..|items| - 1]) + FilterPair(opFields, items[|items| - 1])
  }

  predicate NonEmptyGroups<K, V>(g: Groups<K, V>) {
    forall i | 0 <= i < |g| :: |g[i].1| > 0
  }

  /**
   * `filter_fields` after the loop over `items`: every argument that is not
   * one of `opFields` must be a known field, with an optional `[op]`; the
   * group of each name holds that name's `(op, value)` pairs in argument
   * order, and no group is empty.
   */
  function FilterFields(opFields: set<string>, n2f: FieldMap, items: seq<(string, string)>)
    : (r: Result<Groups<string, (Option<string>, string)>, Fail>)
    ensures r.Success? <==> forall i | 0 <= i < |items| :: items[i].0 in opFields || KnownKey(n2f, items[i].0)
    ensures r.Failure? ==> r.error == BadRequest
    ensures r.Success? ==> DistinctGroupKeys(r.value) && forall i | 0 <= i < |r.value| :: r.value[i].0 in n2f
    ensures r.Success? ==> |Flatten(r.value)| == FilterCount(opFields, items)
  {
    if |items| == 0 then Success([])
    else
      var prefix := items[..|items| - 1];
      assert forall i | 0 <= i < |prefix| :: prefix[i] == items[i];
      var g :- FilterFields(opFields, n2f, prefix);
      var item := items[|items| - 1];
      if item.0 in opFields then Success(g)
      else if !KnownKey(n2f, item.0) then Failure(BadRequest)
      else
        var k := ParseKey(item.0).value;
        AppendDistinct(g, k.name, (k.op, item.1));
        FlattenAppendLength(g, k.name, (k.op, item.1));
        Success(Append(g, k.name, (k.op, item.1)))
  }

  /** One more argument keeps every group equal to its name's filter pairs. */
  lemma {:induction false} FilterGroupsStep(opFields: set<string>, n2f: FieldMap, g: Groups<string, (Option<string>, string)>,
                                            pairs: seq<(string, (Option<string>, string))>, item: (string, string), name: string)
    requires GroupOf(g, name) == Picked(pairs, name) && NonEmptyGroups(g)
    requires FilterStep(opFields, n2f, g, item).Success?
    ensures GroupOf(FilterStep(opFields, n2f, g, item).value, name) == Picked(pairs + FilterPair(opFields, item), name)
    ensures NonEmptyGroups(FilterStep(opFields, n2f, g, item).value)
  {
    if item.0 in opFields {
      assert pairs + FilterPair(opFields, item) == pairs;
    } else {
      var k := ParseKey(item.0).value;
      AppendGroups(g, k.name, (k.op, item.1));
      PickedSnoc(pairs, (k.name, (k.op, item.1)));
    }
  }

  /** The group of each name holds that name's `(op, value)` pairs in argument order; no group is empty. */
  lemma {:induction false} FilterFieldsGroups(opFields: set<string>, n2f: FieldMap, items: seq<(string, string)>, name: string)
    requires FilterFields(opFields, n2f, items).Success?
    ensures GroupOf(FilterFields(opFields, n2f, items).value, name) == Picked(FilterPairs(opFields, items), name)
    ensures NonEmptyGroups(FilterFields(opFields, n2f, items).value)
  {
    if |items| > 0 {
      var prefix := items[..|items| - 1];
      FilterFieldsStep(opFields, n2f, items);
      FilterFieldsGroups(opFields, n2f, prefix, name);
      FilterGroupsStep(opFields, n2f, FilterFields(opFields, n2f, prefix).value, FilterPairs(opFields, prefix),
                       items[|items| - 1], name);
    }
  }

  lemma FilterFieldsStep(opFields: set<string>, n2f: FieldMap, items: seq<(string, string)>)
    requires |items| > 0
    ensures FilterFields(opFields, n2f, items) ==
      match FilterFields(opFields, n2f, items[..|items| - 1])
      case Failure(e) => Failure(e)
      case Success(g) => FilterStep(opFields, n2f, g, items[|items| - 1])
  {
  }

  /** The loop that fills `filter_fields`. */
  method FilterLoop(opFields: set<string>, n2f: FieldMap, items: seq<(string, string)>)
    returns (r: Result<Groups<string, (Option<string>, string)>, Fail>)
    ensures r == FilterFields(opFields, n2f, items)
  {
    var g: Groups<string, (Option<string>, string)> := [];
    for i := 0 to |items|
      invariant FilterFields(opFields, n2f, items[..i]) == Success(g)
    {
      var (name, value) := items[i];
      FilterFieldsStep(opFields, n2f, items[..i + 1]);
      assert items[..i + 1][..i] == items[..i];
      if name !in opFields {
        var m := ParseKey(name);
        if m.None? || m.value.name !in n2f {
          FilterFieldsFailed(opFields, n2f, items, i + 1);
          return Failure(BadRequest);
        }
        g := Append(g, m.value.name, (m.value.op, value));
      }
    }
    assert items[..|items|] == items;
    r := Success(g);
  }

  /** Once the loop has failed, the rest of the arguments are not looked at. */
  lemma {:induction false} FilterFieldsFailed(opFields: set<string>, n2f: FieldMap, items: seq<(string, string)>, n: nat)
    requires n <= |items| && FilterFields(opFields, n2f, items[..n]).Failure?
    ensures FilterFields(opFields, n2f, items) == FilterFields(opFields, n2f, items[..n])
    decreases |items| - n
  {
    if n < |items| {
      FilterFieldsStep(opFields, n2f, items[..n + 1]);
      assert items[..n + 1][..n] == items[..n];
      FilterFieldsFailed(opFields, n2f, items, n + 1);
    } else {
      assert items[..n] == items;
    }
  }

  /** `for name, ops in filter_fields.items(): for op, value in ops`, flattened. */
  function FlatFilters(g: Groups<string, (Option<string>, string)>): (fs: seq<Filter>)
    ensures |fs| == |Flatten(g)|
  {
    if |g| == 0 then []
    else FlatFilters(g[..|g| - 1]) + Tag(g[|g| - 1].0, g[|g| - 1].1)
  }

  function Tag(name: string, es: seq<(Option<string>, string)>): (fs: seq<Filter>)
    ensures |fs| == |es|
  {
    seq(|es|, i requires 0 <= i < |es| => Filter(name, es[i].0, es[i].1))
  }

  // ---------------------------------------------------------------------
  // Dispatch: WHERE conditions and pending `max` aggregations.

  /** What a filter other than `[max]` turns into, or how it fails. */
  type Conditioner = Filter -> Result<(Op, Value), Fail>

  /** `conditions` (grouped by model field) and `pending_ops` (name to `max` value). */
  datatype Pending = Pending(conds: Groups<string, Cond>, maxes: seq<(string, string)>)

  predicate HasMax(maxes: seq<(string, string)>, name: string) {
    exists i | 0 <= i < |maxes| :: maxes[i].0 == name
  }

  /** One filter of the loop: an unknown name is a KeyError, a second `max` on a name
      fails the `assert`. */
  function DispatchStep(n2f: FieldMap, cond: Conditioner, st: Pending, f: Filter): (r: Result<Pending, Fail>)
    ensures f.name !in n2f ==> r == Failure(Raised(KeyError))
    ensures f.name in n2f && f.op == Some("max") ==>
      (r.Success? <==> !HasMax(st.maxes, f.name)) && (r.Failure? ==> r.error == Raised(AssertionError))
    ensures f.name in n2f && f.op != Some("max") ==> (r.Success? <==> cond(f).Success?)
  {
    if f.name !in n2f then Failure(Raised(KeyError))
    else if f.op == Some("max") then
      if HasMax(st.maxes, f.name) then Failure(Raised(AssertionError))
      else Success(st.(maxes := st.maxes + [(f.name, f.value)]))
    else
      var c :- cond(f);
      var field := n2f[f.name].name;
      Success(st.(conds := Append(st.conds, field, Cond(field, c.0, c.1))))
  }

  /** The `max` filters among `fs`, as `pending_ops` records them. */
  function MaxesOf(fs: seq<Filter>): seq<(string, string)> {
    if |fs| == 0 then []
    else MaxesOf(fs[..|fs| - 1]) + if fs[|fs| - 1].op == Some("max") then [(fs[|fs| - 1].name, fs[|fs| - 1].value)] else []
  }

  predicate DistinctNames(maxes: seq<(string, string)>) {
    forall i, j | 0 <= i < j < |maxes| :: maxes[i].0 != maxes[j].0
  }

  /** The dispatch loop over the flattened filters. */
  function Dispatch(n2f: FieldMap, cond: Conditioner, fs: seq<Filter>): Result<Pending, Fail> {
    if |fs| == 0 then Success(Pending([], []))
    else
      var st :- Dispatch(n2f, cond, fs[..|fs| - 1]);
      DispatchStep(n2f, cond, st, fs[|fs| - 1])
  }

  /** Every dispatched filter became either a condition or a pending `max`. */
  lemma {:induction false} DispatchKeepsAll(n2f: FieldMap, cond: Conditioner, fs: seq<Filter>)
    requires Dispatch(n2f, cond, fs).Success?
    ensures |Flatten(Dispatch(n2f, cond, fs).value.conds)| + |Dispatch(n2f, cond, fs).value.maxes| == |fs|
  {
    if |fs| > 0 {
      var prefix := fs[..|fs| - 1];
      DispatchKeepsAll(n2f, cond, prefix);
      var st := Dispatch(n2f, cond, prefix).value;
      var f := fs[|fs| - 1];
      if f.op != Some("max") {
        var c := cond(f).value;
        var field := n2f[f.name].name;
        FlattenAppendLength(st.conds, field, Cond(field, c.0, c.1));
      }
    }
  }

  /** The pending aggregations are exactly the `max` filters, at most one per name. */
  lemma {:induction false} DispatchMaxes(n2f: FieldMap, cond: Conditioner, fs: seq<Filter>)
    requires Dispatch(n2f, cond, fs).Success?
    ensures Dispatch(n2f, cond, fs).value.maxes == MaxesOf(fs)
    ensures DistinctNames(Dispatch(n2f, cond, fs).value.maxes)
  {
    if |fs| > 0 {
      DispatchMaxes(n2f, cond, fs[..|fs| - 1]);
    }
  }

  /**
   * Dispatch succeeds exactly when every filter names a known field, `cond`
   * accepts every filter other than `max`, and no name has two `max` filters.
   */
  lemma {:induction false} DispatchAccepted(n2f: FieldMap, cond: Conditioner, fs: seq<Filter>)
    ensures Dispatch(n2f, cond, fs).Success? <==> AllAccepted(n2f, cond, fs) && DistinctNames(MaxesOf(fs))
  {
    if |fs| > 0 {
      var prefix := fs[..|fs| - 1];
      var f := fs[|fs| - 1];
      DispatchAccepted(n2f, cond, prefix);
      AllFiltersSnoc(n2f, cond, fs);
      DistinctNamesSnoc(MaxesOf(prefix), f);
      assert MaxesOf(fs) == MaxesOf(prefix) + if f.op == Some("max") then [(f.name, f.value)] else [];
      if Dispatch(n2f, cond, prefix).Success? {
        DispatchMaxes(n2f, cond, prefix);
        DispatchUnfold(n2f, cond, fs);
      } else {
        DispatchFailed(n2f, cond, prefix, fs);
      }
    }
  }

  /** Every filter names a known field and, unless it is a `max`, is accepted. */
  predicate AllAccepted(n2f: FieldMap, cond: Conditioner, fs: seq<Filter>) {
    forall i | 0 <= i < |fs| :: fs[i].name in n2f && (fs[i].op == Some("max") || cond(fs[i]).Success?)
  }

  lemma {:induction false} AllFiltersSnoc(n2f: FieldMap, cond: Conditioner, fs: seq<Filter>)
    requires |fs| > 0
    ensures var f := fs[|fs| - 1];
      AllAccepted(n2f, cond, fs) <==> AllAccepted(n2f, cond, fs[..|fs| - 1]) && f.name in n2f && (f.op == Some("max") || cond(f).Success?)
  {
    var prefix := fs[..|fs| - 1];
    assert forall i | 0 <= i < |prefix| :: prefix[i] == fs[i];
  }

  lemma {:induction false} DistinctNamesSnoc(maxes: seq<(string, string)>, f: Filter)
    ensures var next := maxes + if f.op == Some("max") then [(f.name, f.value)] else [];
      DistinctNames(next) <==> DistinctNames(maxes) && (f.op == Some("max") ==> !HasMax(maxes, f.name))
  {
    if f.op == Some("max") {
      var next := maxes + [(f.name, f.value)];
      assert forall i | 0 <= i < |maxes| :: next[i] == maxes[i];
      if HasMax(maxes, f.name) {
        var i :| 0 <= i < |maxes| && maxes[i].0 == f.name;
        assert next[i].0 == next[|maxes|].0;
        assert !DistinctNames(next);
      }
    } else {
      assert maxes + [] == maxes;
    }
  }

  // The conditions on each model field.

  /** The conditions in `cs` on model field `k`, in order. */
  function On(cs: seq<Cond>, k: string): seq<Cond> {
    if |cs| == 0 then []
    else On(cs[..|cs| - 1], k) + if cs[|cs| - 1].field == k then [cs[|cs| - 1]] else []
  }

  lemma {:induction false} OnMember(cs: seq<Cond>, k: string, c: Cond)
    ensures c in On(cs, k) <==> c in cs && c.field == k
  {
    if |cs| > 0 {
      OnMember(cs[..|cs| - 1], k, c);
      assert cs == cs[..|cs| - 1] + [cs[|cs| - 1]];
    }
  }

  lemma {:induction false} OnConcat(a: seq<Cond>, b: seq<Cond>, k: string)
    ensures On(a + b, k) == On(a, k) + On(b, k)
    decreases |b|
  {
    if |b| > 0 {
      assert (a + b)[..|a + b| - 1] == a + b[..|b| - 1];
      OnConcat(a, b[..|b| - 1], k);
    } else {
      assert a + b == a;
    }
  }

  /** The condition each accepted filter other than `max` becomes, in filter order. */
  function CondList(n2f: FieldMap, cond: Conditioner, fs: seq<Filter>): seq<Cond> {
    if |fs| == 0 then []
    else
      var f := fs[|fs| - 1];
      CondList(n2f, cond, fs[..|fs| - 1]) +
        if f.op == Some("max") || f.name !in n2f || cond(f).Failure? then []
        else [Cond(n2f[f.name].name, cond(f).value.0, cond(f).value.1)]
  }

  /** Every condition sits in the group of its own field. */
  predicate Keyed(g: Groups<string, Cond>) {
    forall i, j | 0 <= i < |g| && 0 <= j < |g[i].1| :: g[i].1[j].field == g[i].0
  }

  lemma {:induction false} FlattenMember(g: Groups<string, Cond>, c: Cond)
    requires c in Flatten(g)
    ensures exists i | 0 <= i < |g| :: c in g[i].1
  {
    var prefix := g[..|g| - 1];
    if c !in g[|g| - 1].1 {
      FlattenMember(prefix, c);
      var i :| 0 <= i < |prefix| && c in prefix[i].1;
      assert prefix[i] == g[i];
    }
  }

  /** No condition of `g` is on a field that `g` has no group for. */
  lemma {:induction false} OnMissing(g: Groups<string, Cond>, k: string)
    requires Keyed(g) && forall i | 0 <= i < |g| :: g[i].0 != k
    ensures On(Flatten(g), k) == []
  {
    if On(Flatten(g), k) != [] {
      var d := On(Flatten(g), k)[0];
      OnMember(Flatten(g), k, d);
      FlattenMember(g, d);
    }
  }

  lemma {:induction false} KeyedRest(g: Groups<string, Cond>)
    requires |g| > 0 && DistinctGroupKeys(g) && Keyed(g)
    ensures DistinctGroupKeys(g[1..]) && Keyed(g[1..])
    ensures forall i | 0 <= i < |g[1..]| :: g[1..][i].0 != g[0].0
  {
    assert forall i | 0 <= i < |g[1..]| :: g[1..][i] == g[i + 1];
  }

  /** Filing `c` under the first group, which is its field's. */
  lemma {:induction false} OnAppendHere(g: Groups<string, Cond>, c: Cond, k: string)
    requires |g| > 0 && g[0].0 == c.field && DistinctGroupKeys(g) && Keyed(g)
    ensures On(Flatten(Append(g, c.field, c)), k) == On(Flatten(g), k) + On([c], k)
  {
    var head, rest := g[0], g[1..];
    var r := Append(g, c.field, c);
    assert g == [head] + rest;
    assert r == [(c.field, head.1 + [c])] + rest;
    KeyedRest(g);
    FlattenCons(head, rest);
    FlattenCons((c.field, head.1 + [c]), rest);
    OnConcat(head.1 + [c], Flatten(rest), k);
    OnConcat(head.1, [c], k);
    OnConcat(head.1, Flatten(rest), k);
    OnSingle(c, k);
    if c.field == k {
      OnMissing(rest, k);
    }
  }

  lemma {:induction false} OnSingle(c: Cond, k: string)
    ensures On([c], k) == if c.field == k then [c] else []
  {
    assert [c][..0] == [];
  }

  /** Filing `c` past a first group that is not its field's. */
  lemma {:induction false} OnAppendPast(g: Groups<string, Cond>, c: Cond, k: string)
    requires |g| > 0 && g[0].0 != c.field
    requires On(Flatten(Append(g[1..], c.field, c)), k) == On(Flatten(g[1..]), k) + On([c], k)
    ensures On(Flatten(Append(g, c.field, c)), k) == On(Flatten(g), k) + On([c], k)
  {
    var head, rest := g[0], g[1..];
    var rest' := Append(rest, c.field, c);
    assert g == [head] + rest;
    assert Append(g, c.field, c) == [head] + rest';
    FlattenCons(head, rest);
    FlattenCons(head, rest');
    OnConcat(head.1, Flatten(rest'), k);
    OnConcat(head.1, Flatten(rest), k);
  }

  lemma {:induction false} AppendKeyed(g: Groups<string, Cond>, c: Cond)
    requires Keyed(g)
    ensures Keyed(Append(g, c.field, c))
    decreases |g|
  {
    var r := Append(g, c.field, c);
    if |g| > 0 {
      var rest := g[1..];
      assert forall i | 0 <= i < |rest| :: rest[i] == g[i + 1];
      if g[0].0 == c.field {
        assert r == [(c.field, g[0].1 + [c])] + rest;
        assert forall i | 1 <= i < |r| :: r[i] == rest[i - 1];
      } else {
        AppendKeyed(rest, c);
        assert r == [g[0]] + Append(rest, c.field, c);
        assert forall i | 1 <= i < |r| :: r[i] == Append(rest, c.field, c)[i - 1];
      }
    }
  }

  /** Filing `c` under its field adds `c` to the conditions on that field only. */
  lemma {:induction false} OnAppend(g: Groups<string, Cond>, c: Cond, k: string)
    requires DistinctGroupKeys(g) && Keyed(g)
    ensures On(Flatten(Append(g, c.field, c)), k) == On(Flatten(g), k) + On([c], k)
    decreases |g|
  {
    if |g| == 0 {
      var r := Append(g, c.field, c);
      assert Flatten(r) == [c] by { assert r[..0] == []; }
      assert On([], k) == [];
    } else if g[0].0 == c.field {
      OnAppendHere(g, c, k);
    } else {
      KeyedRest(g);
      OnAppend(g[1..], c, k);
      OnAppendPast(g, c, k);
    }
  }

  /**
   * `conditions[field]` after dispatch: the conditions on each model field
   * are, in order, those its accepted filters became; the WHERE clause
   * holds exactly the conditions of the filters other than `max`.
   */
  lemma {:induction false} DispatchConds(n2f: FieldMap, cond: Conditioner, fs: seq<Filter>)
    requires Dispatch(n2f, cond, fs).Success?
    ensures var conds := Dispatch(n2f, cond, fs).value.conds;
      && DistinctGroupKeys(conds) && Keyed(conds)
      && (forall k :: On(Flatten(conds), k) == On(CondList(n2f, cond, fs), k))
      && (forall c :: c in Flatten(conds) <==> c in CondList(n2f, cond, fs))
  {
    var conds := Dispatch(n2f, cond, fs).value.conds;
    if |fs| > 0 {
      var prefix := fs[..|fs| - 1];
      var f := fs[|fs| - 1];
      DispatchConds(n2f, cond, prefix);
      var st := Dispatch(n2f, cond, prefix).value;
      if f.op != Some("max") {
        var field := n2f[f.name].name;
        var c := Cond(field, cond(f).value.0, cond(f).value.1);
        AppendDistinct(st.conds, field, c);
        forall k ensures On(Flatten(conds), k) == On(CondList(n2f, cond, fs), k) {
          OnAppend(st.conds, c, k);
          OnConcat(CondList(n2f, cond, prefix), [c], k);
        }
        AppendKeyed(st.conds, c);
      } else {
        assert CondList(n2f, cond, fs) == CondList(n2f, cond, prefix);
      }
    } else {
      assert Flatten(conds) == [] && CondList(n2f, cond, fs) == [];
    }
    forall c: Cond ensures c in Flatten(conds) <==> c in CondList(n2f, cond, fs) {
      OnMember(Flatten(conds), c.field, c);
      OnMember(CondList(n2f, cond, fs), c.field, c);
    }
  }

  lemma DispatchUnfold(n2f: FieldMap, cond: Conditioner, fs: seq<Filter>)
    requires |fs| > 0
    ensures Dispatch(n2f, cond, fs) ==
      match Dispatch(n2f, cond, fs[..|fs| - 1])
      case Failure(e) => Failure(e)
      case Success(st) => DispatchStep(n2f, cond, st, fs[|fs| - 1])
  {
  }

  /** Once dispatch has failed on a prefix, it fails the same way on the whole. */
  lemma {:induction false} DispatchFailed(n2f: FieldMap, cond: Conditioner, a: seq<Filter>, b: seq<Filter>)
    requires a <= b && Dispatch(n2f, cond, a).Failure?
    ensures Dispatch(n2f, cond, b) == Dispatch(n2f, cond, a)
    decreases |b|
  {
    if |b| > |a| {
      assert a <= b[..|b| - 1];
      DispatchFailed(n2f, cond, a, b[..|b| - 1]);
      DispatchUnfold(n2f, cond, b);
    } else {
      assert a == b;
    }
  }

  lemma {:induction false} FlatFiltersPrefix(g: Groups<string, (Option<string>, string)>, i: nat)
    requires i <= |g|
    ensures FlatFilters(g[..i]) <= FlatFilters(g)
    decreases |g| - i
  {
    if i < |g| {
      FlatFiltersPrefix(g, i + 1);
      assert g[..i + 1][..i] == g[..i];
    } else {
      assert g[..i] == g;
    }
  }

  /** Filter `j` of group `i` extends the filters before it, within the whole. */
  lemma DispatchPosition(groups: Groups<string, (Option<string>, string)>, i: nat, j: nat)
    requires i < |groups| && j < |groups[i].1|
    ensures var next := FlatFilters(groups[..i]) + Tag(groups[i].0, groups[i].1[..j + 1]);
      && next == FlatFilters(groups[..i]) + Tag(groups[i].0, groups[i].1[..j]) + [Filter(groups[i].0, groups[i].1[j].0, groups[i].1[j].1)]
      && next <= FlatFilters(groups)
  {
    var (name, ops) := groups[i];
    var done := FlatFilters(groups[..i]);
    var next := done + Tag(name, ops[..j + 1]);
    assert Tag(name, ops[..j + 1]) == Tag(name, ops[..j]) + [Filter(name, ops[j].0, ops[j].1)];
    assert groups[..i + 1][..i] == groups[..i];
    assert FlatFilters(groups[..i + 1]) == done + Tag(name, ops);
    FlatFiltersPrefix(groups, i + 1);
    assert Tag(name, ops[..j + 1]) <= Tag(name, ops);
  }

  /** Group `i` finished: the filters so far are those of the first `i + 1` groups. */
  lemma DispatchGroupDone(groups: Groups<string, (Option<string>, string)>, i: nat)
    requires i < |groups|
    ensures FlatFilters(groups[..i]) + Tag(groups[i].0, groups[i].1[..|groups[i].1|]) == FlatFilters(groups[..i + 1])
  {
    assert groups[i].1[..|groups[i].1|] == groups[i].1;
    assert groups[..i + 1][..i] == groups[..i];
  }

  /** Dispatching filter `j` of group `i` after those before it. */
  lemma {:induction false} DispatchAdvance(n2f: FieldMap, cond: Conditioner, groups: Groups<string, (Option<string>, string)>,
                                           i: nat, j: nat, st: Pending)
    requires i < |groups| && j < |groups[i].1|
    requires Dispatch(n2f, cond, FlatFilters(groups[..i]) + Tag(groups[i].0, groups[i].1[..j])) == Success(st)
    ensures var res := DispatchStep(n2f, cond, st, Filter(groups[i].0, groups[i].1[j].0, groups[i].1[j].1));
      && Dispatch(n2f, cond, FlatFilters(groups[..i]) + Tag(groups[i].0, groups[i].1[..j + 1])) == res
      && (res.Failure? ==> Dispatch(n2f, cond, FlatFilters(groups)) == res)
  {
    var prev := FlatFilters(groups[..i]) + Tag(groups[i].0, groups[i].1[..j]);
    var f := Filter(groups[i].0, groups[i].1[j].0, groups[i].1[j].1);
    var next := FlatFilters(groups[..i]) + Tag(groups[i].0, groups[i].1[..j + 1]);
    DispatchPosition(groups, i, j);
    DispatchSnoc(n2f, cond, prev, f, st);
    if Dispatch(n2f, cond, next).Failure? {
      DispatchFailed(n2f, cond, next, FlatFilters(groups));
    }
  }

  /** One more filter is one more step. */
  lemma {:induction false} DispatchSnoc(n2f: FieldMap, cond: Conditioner, prev: seq<Filter>, f: Filter, st: Pending)
    requires Dispatch(n2f, cond, prev) == Success(st)
    ensures Dispatch(n2f, cond, prev + [f]) == DispatchStep(n2f, cond, st, f)
  {
    var next := prev + [f];
    assert next[..|next| - 1] == prev;
    DispatchUnfold(n2f, cond, next);
  }

  /** The nested dispatch loop over `filter_fields.items()`. */
  method DispatchLoop(n2f: FieldMap, cond: Conditioner, groups: Groups<string, (Option<string>, string)>)
    returns (r: Result<Pending, Fail>)
    ensures r == Dispatch(n2f, cond, FlatFilters(groups))
  {
    var st := Pending([], []);
    for i := 0 to |groups|
      invariant Dispatch(n2f, cond, FlatFilters(groups[..i])) == Success(st)
    {
      var name := groups[i].0;
      var ops := groups[i].1;
      assert FlatFilters(groups[..i]) + Tag(name, ops[..0]) == FlatFilters(groups[..i]);
      for j := 0 to |ops|
        invariant Dispatch(n2f, cond, FlatFilters(groups[..i]) + Tag(name, ops[..j])) == Success(st)
      {
        DispatchAdvance(n2f, cond, groups, i, j, st);
        var res := DispatchStep(n2f, cond, st, Filter(name, ops[j].0, ops[j].1));
        if res.Failure? {
          return res;
        }
        st := res.value;
      }
      DispatchGroupDone(groups, i);
    }
    assert groups[..|groups|] == groups;
    r := Success(st);
  }

  // ---------------------------------------------------------------------
  // Pending `max` filters become sub-queries.

  predicate AllKnown(n2f: FieldMap, names: seq<string>) {
    forall i | 0 <= i < |names| :: names[i] in n2f
  }

  /** The comparison operators: no operator is equality. */
  function CompareOp(op: Option<string>): (r: Option<Op>)
    ensures r.Some? <==> op in {None, Some("gt"), Some("gte"), Some("lt"), Some("lte")}
    ensures op == None ==> r == Some(Eq)
  {
    match op
    case None => Some(Eq)
    case Some(s) =>
      if s == "gt" then Some(Gt) else if s == "gte" then Some(Gte)
      else if s == "lt" then Some(Lt) else if s == "lte" then Some(Lte)
      else None
  }

  /** One pending `name[max]=g1,g2,...`: every group field must be known. */
  function MaxFilterOf(n2f: FieldMap, m: (string, string)): (r: Result<MaxFilter, Fail>)
    ensures r.Success? <==> m.0 in n2f && AllKnown(n2f, Split(m.1, ','))
    ensures m.0 in n2f && r.Failure? ==> r.error == BadRequest
    ensures r.Success? ==> r.value.field == n2f[m.0].name && |r.value.groupBy| == |Split(m.1, ',')|
    ensures r.Success? ==> forall i | 0 <= i < |r.value.groupBy| :: r.value.groupBy[i] == n2f[Split(m.1, ',')[i]].name
  {
    if m.0 !in n2f then Failure(Raised(KeyError))
    else
      var gs := Split(m.1, ',');
      if AllKnown(n2f, gs) then
        Success(MaxFilter(n2f[m.0].name, seq(|gs|, i requires 0 <= i < |gs| => n2f[gs[i]].name)))
      else Failure(BadRequest)
  }

  function MaxFilterResults(n2f: FieldMap, maxes: seq<(string, string)>): (rs: seq<Result<MaxFilter, Fail>>)
    ensures |rs| == |maxes| && forall i | 0 <= i < |maxes| :: rs[i] == MaxFilterOf(n2f, maxes[i])
  {
    seq(|maxes|, i requires 0 <= i < |maxes| => MaxFilterOf(n2f, maxes[i]))
  }

  /** The loop over `pending_ops`. */
  method MaxLoop(n2f: FieldMap, maxes: seq<(string, string)>) returns (r: Result<seq<MaxFilter>, Fail>)
    ensures r == Collect(MaxFilterResults(n2f, maxes))
  {
    var out: seq<MaxFilter> := [];
    for i := 0 to |maxes|
      invariant |out| == i
      invariant forall j | 0 <= j < i :: MaxFilterResults(n2f, maxes)[j] == Success(out[j])
    {
      var (name, value) := maxes[i];
      if name !in n2f {
        CollectStopsAt(MaxFilterResults(n2f, maxes), i);
        return Failure(Raised(KeyError));
      }
      var gs := Split(value, ',');
      var groupBy: seq<string> := [];
      for k := 0 to |gs|
        invariant |groupBy| == k
        invariant forall j | 0 <= j < k :: gs[j] in n2f && groupBy[j] == n2f[gs[j]].name
      {
        if gs[k] !in n2f {
          CollectStopsAt(MaxFilterResults(n2f, maxes), i);
          return Failure(BadRequest);
        }
        groupBy := groupBy + [n2f[gs[k]].name];
      }
      assert groupBy == seq(|gs|, j requires 0 <= j < |gs| => n2f[gs[j]].name);
      out := out + [MaxFilter(n2f[name].name, groupBy)];
    }
    CollectAll(MaxFilterResults(n2f, maxes), out);
    r := Success(out);
  }

  // ---------------------------------------------------------------------
  // The response.

  /** `batch_serialize` output, projected onto `fields` when some were asked for. */
  function Respond(q: Query, rows: seq<Record>, total: int): (r: Result<Listing, Fail>)
    ensures |q.fields| == 0 ==> r == Success(Listing(rows, total))
    ensures r.Success? <==> |q.fields| == 0 || forall j | 0 <= j < |rows| :: forall i | 0 <= i < |q.fields| :: q.fields[i] in rows[j]
    ensures r.Failure? ==> r.error == Raised(KeyError)
    ensures r.Success? ==> |r.value.items| == |rows| && r.value.total == total
    ensures r.Success? && |q.fields| > 0 ==>
      forall j, k | 0 <= j < |rows| :: k in r.value.items[j] <==> k in q.fields
    ensures r.Success? && |q.fields| > 0 ==>
      forall j, k | 0 <= j < |rows| && k in r.value.items[j] :: k in rows[j] && r.value.items[j][k] == rows[j][k]
  {
    if |q.fields| == 0 then Success(Listing(rows, total))
    else
      var items :- ProjectAll(rows, q.fields);
      Success(Listing(items, total))
  }
}
