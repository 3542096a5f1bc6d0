/**
 * `generate_readonly_api_4dict` and `gen_batch_serialize` of
 * gena/api_generator.py: a read-only blueprint over an in-memory dictionary
 * `id2ent` of entities by id. A record is reached only through a unique key:
 * `GET /<name>` takes exactly one unique field, which `unique_field_funcs`
 * turns into an id; `find_by_ids` and `find_by_id` take ids directly.
 */
module GenaReadonly {
  import opened Wrappers
  import opened Py
  import opened RequestArgs
  import opened Query
  import Deserializers

  /** The arguments `get` does not read as unique fields (no `group_by` here). */
  const OpFields: set<string> := {"fields", "limit", "offset", "unique", "sorted_by"}

  /** A `unique_field_funcs` entry: the value of a unique field to the entity's id. */
  type ToId = string -> Result<string, Exc>

  // ---------------------------------------------------------------------
  // gen_batch_serialize

  /** `[serialize(item) for item in lst]` */
  function BatchSerialize<E>(serialize: E -> Record, lst: seq<E>): (r: seq<Record>)
    ensures |r| == |lst|
  {
    if |lst| == 0 then [] else BatchSerialize(serialize, lst[..|lst| - 1]) + [serialize(lst[|lst| - 1])]
  }

  /** The generated batch serializer serializes each entity on its own. */
  lemma {:induction false} BatchSerializeEach<E>(serialize: E -> Record, lst: seq<E>)
    ensures forall i | 0 <= i < |lst| :: BatchSerialize(serialize, lst)[i] == serialize(lst[i])
  {
    if |lst| > 0 {
      BatchSerializeEach(serialize, lst[..|lst| - 1]);
    }
  }

  /** Serializing a concatenation serializes each part. */
  lemma {:induction false} BatchSerializeAppend<E>(serialize: E -> Record, a: seq<E>, b: seq<E>)
    ensures BatchSerialize(serialize, a + b) == BatchSerialize(serialize, a) + BatchSerialize(serialize, b)
    decreases |b|
  {
    if |b| > 0 {
      var b' := b[..|b| - 1];
      assert (a + b)[..|a + b| - 1] == a + b';
      assert (a + b)[|a + b| - 1] == b[|b| - 1];
      BatchSerializeAppend(serialize, a, b');
    } else {
      assert a + b == a;
    }
  }

  /** `serialize = lambda x: batch_serialize([x])[0]` recovers the serializer the
      batch serializer was generated from. */
  lemma SingleOfBatch<E>(serialize: E -> Record, x: E)
    ensures BatchSerialize(serialize, [x])[0] == serialize(x)
  {
    BatchSerializeEach(serialize, [x]);
  }

  // ---------------------------------------------------------------------
  // GET /<name>

  /** `request.args.keys()`: each key once, in the order it first appears. */
  function ArgKeys(args: Args): (r: seq<string>)
    ensures |r| == |Items(args)| && forall i | 0 <= i < |r| :: r[i] == Items(args)[i].0
  {
    seq(|Items(args)|, i requires 0 <= i < |Items(args)| => Items(args)[i].0)
  }

  /** The keys that are not the handler's own, in order. */
  function NonOpKeys(keys: seq<string>): (r: seq<string>)
    ensures forall i | 0 <= i < |r| :: r[i] in keys && r[i] !in OpFields
  {
    if |keys| == 0 then []
    else
      var k := keys[|keys| - 1];
      NonOpKeys(keys[..|keys| - 1]) + (if k in OpFields then [] else [k])
  }

  /** Every key that is not the handler's own is among `NonOpKeys`. */
  lemma {:induction false} NonOpKeysHas(keys: seq<string>, i: nat)
    requires i < |keys| && keys[i] !in OpFields
    ensures keys[i] in NonOpKeys(keys)
  {
    if i < |keys| - 1 {
      NonOpKeysHas(keys[..|keys| - 1], i);
    }
  }

  /**
   * The loop collecting `lst` over the first `n` keys: the first key that is
   * neither the handler's own nor a unique field answers 400.
   */
  function Selected(funcs: map<string, ToId>, keys: seq<string>): (r: Result<seq<string>, Fail>)
    ensures r.Success? <==> forall i | 0 <= i < |keys| && keys[i] !in OpFields :: keys[i] in funcs
    ensures r.Success? ==> r.value == NonOpKeys(keys)
    ensures r.Failure? ==> r.error == BadRequest
  {
    if |keys| == 0 then Success([])
    else
      var prefix := keys[..|keys| - 1];
      var k := keys[|keys| - 1];
      assert forall i | 0 <= i < |prefix| :: prefix[i] == keys[i];
      var rest := Selected(funcs, prefix);
      if rest.Failure? || k in OpFields then rest
      else if k !in funcs then Failure(BadRequest)
      else Success(rest.value + [k])
  }

  /** The `for name in request.args.keys()` loop. */
  method SelectLoop(funcs: map<string, ToId>, keys: seq<string>) returns (r: Result<seq<string>, Fail>)
    ensures r == Selected(funcs, keys)
  {
    var lst: seq<string> := [];
    for i := 0 to |keys|
      invariant Selected(funcs, keys[..i]) == Success(lst)
    {
      assert keys[..i + 1][..i] == keys[..i];
      var name := keys[i];
      if name in OpFields {
        continue;
      }
      if name !in funcs {
        SelectedFailed(funcs, keys, i + 1);
        return Failure(BadRequest);
      }
      lst := lst + [name];
    }
    assert keys[..|keys|] == keys;
    r := Success(lst);
  }

  /** Once a prefix of the keys fails, all of them fail the same way. */
  lemma SelectedFailed(funcs: map<string, ToId>, keys: seq<string>, n: nat)
    requires n <= |keys| && Selected(funcs, keys[..n]).Failure?
    ensures Selected(funcs, keys).Failure?
  {
    var i :| 0 <= i < n && keys[..n][i] !in OpFields && keys[..n][i] !in funcs;
    assert keys[i] == keys[..n][i];
  }

  /** The single record a unique-field query answers with. */
  function GetReply<E>(funcs: map<string, ToId>, id2ent: map<string, E>, serialize: E -> Record, args: Args)
    : (r: Result<Listing, Fail>)
    ensures r.Success? ==> |r.value.items| == 1 && r.value.total == 1
  {
    var names := ListArg(args, "fields");
    var lst :- Selected(funcs, ArgKeys(args));
    if |lst| != 1 then Failure(BadRequest)
    else
      var id :- Raise(funcs[lst[0]](Lookup(args, lst[0]).value));
      if id !in id2ent then Failure(Raised(KeyError))
      else
        Success(Listing([Shown(serialize(id2ent[id]), names)], 1))
  }

  /** get */
  method Get<E>(funcs: map<string, ToId>, id2ent: map<string, E>, serialize: E -> Record, args: Args)
    returns (r: Result<Listing, Fail>)
    ensures r == GetReply(funcs, id2ent, serialize, args)
  {
    var names := ListArg(args, "fields");
    var lst :- SelectLoop(funcs, ArgKeys(args));
    if |lst| > 1 {
      return Failure(BadRequest);
    }
    if |lst| == 0 {
      return Failure(BadRequest);
    }
    var id :- Raise(funcs[lst[0]](Lookup(args, lst[0]).value));
    if id !in id2ent {
      return Failure(Raised(KeyError));
    }
    var record := serialize(id2ent[id]);
    if |names| > 0 {
      record := ProjectPresent(record, names);
    }
    return Success(Listing([record], 1));
  }

  /**
   * `get` answers exactly when the query names one argument besides the
   * handler's own, that argument is a unique field, its value maps to an id
   * and the id is in the dictionary; the answer is that one entity, as
   * `find_by_id` gives it.
   */
  lemma GetOneKey<E>(funcs: map<string, ToId>, id2ent: map<string, E>, serialize: E -> Record, args: Args)
    ensures var r := GetReply(funcs, id2ent, serialize, args);
      var keys := NonOpKeys(ArgKeys(args));
      r.Success? <==>
        && (forall k | k in keys :: k in funcs)
        && |keys| == 1
        && funcs[keys[0]](Lookup(args, keys[0]).value).Success?
        && funcs[keys[0]](Lookup(args, keys[0]).value).value in id2ent
    ensures var r := GetReply(funcs, id2ent, serialize, args);
      r.Success? ==>
        var k := NonOpKeys(ArgKeys(args))[0];
        r.value.total == 1 &&
        r.value.items == [FindById(id2ent, serialize, args, funcs[k](Lookup(args, k).value).value).value]
  {
    var keys := ArgKeys(args);
    if forall k | k in NonOpKeys(keys) :: k in funcs {
      forall i | 0 <= i < |keys| && keys[i] !in OpFields ensures keys[i] in funcs {
        NonOpKeysHas(keys, i);
      }
    }
  }

  /** Two arguments besides the handler's own answer 400, whatever they are. */
  lemma GetTwoKeys<E>(funcs: map<string, ToId>, id2ent: map<string, E>, serialize: E -> Record, args: Args)
    requires |NonOpKeys(ArgKeys(args))| > 1
    ensures GetReply(funcs, id2ent, serialize, args) == Failure(BadRequest)
  {
  }

  // ---------------------------------------------------------------------
  // POST /<name>/find_by_ids

  /** `id in id2ent` holds: only a string can equal a key of the dictionary. */
  predicate Present<E>(id2ent: map<string, E>, id: Value) {
    id.VStr? && id.s in id2ent
  }

  /** The requested ids the dictionary has, in request order, repeats included. */
  function Kept<E>(id2ent: map<string, E>, ids: seq<Value>): (r: seq<Value>)
    ensures |r| <= |ids|
    ensures forall j | 0 <= j < |r| :: r[j].VStr? && r[j].s in id2ent
  {
    if |ids| == 0 then []
    else
      var id := ids[|ids| - 1];
      Kept(id2ent, ids[..|ids| - 1]) + (if Present(id2ent, id) then [id] else [])
  }

  /** The request order is kept: filtering a concatenation filters each part. */
  lemma {:induction false} KeptAppend<E>(id2ent: map<string, E>, a: seq<Value>, b: seq<Value>)
    ensures Kept(id2ent, a + b) == Kept(id2ent, a) + Kept(id2ent, b)
    decreases |b|
  {
    if |b| > 0 {
      var b' := b[..|b| - 1];
      assert (a + b)[..|a + b| - 1] == a + b';
      assert (a + b)[|a + b| - 1] == b[|b| - 1];
      KeptAppend(id2ent, a, b');
    } else {
      assert a + b == a;
    }
  }

  /** Each id is kept as often as it was requested if the dictionary has it, and never otherwise. */
  lemma {:induction false} KeptCount<E>(id2ent: map<string, E>, ids: seq<Value>, id: Value)
    ensures multiset(Kept(id2ent, ids))[id] == if Present(id2ent, id) then multiset(ids)[id] else 0
  {
    if |ids| > 0 {
      var init, last := ids[..|ids| - 1], ids[|ids| - 1];
      KeptCount(id2ent, init, id);
      assert ids == init + [last];
      var tail := if Present(id2ent, last) then [last] else [];
      assert Kept(id2ent, ids) == Kept(id2ent, init) + tail;
      assert multiset(Kept(id2ent, ids)) == multiset(Kept(id2ent, init)) + multiset(tail);
      assert multiset(ids) == multiset(init) + multiset{last};
    }
  }

  /** The entities of the kept ids. */
  function Entities<E>(id2ent: map<string, E>, kept: seq<Value>): (r: seq<E>)
    requires forall j | 0 <= j < |kept| :: kept[j].VStr? && kept[j].s in id2ent
    ensures |r| == |kept| && forall j | 0 <= j < |kept| :: r[j] == id2ent[kept[j].s]
  {
    seq(|kept|, j requires 0 <= j < |kept| => id2ent[kept[j].s])
  }

  /** The `for id in request.json["ids"]` loop: an unhashable id raises TypeError. */
  method Gather<E>(id2ent: map<string, E>, ids: seq<Value>) returns (r: Result<(seq<Value>, seq<E>), Fail>)
    ensures r.Failure? <==> exists j | 0 <= j < |ids| :: !Hashable(ids[j])
    ensures r.Failure? ==> r.error == Raised(TypeError)
    ensures r.Success? ==> r.value.0 == Kept(id2ent, ids) && r.value.1 == Entities(id2ent, Kept(id2ent, ids))
  {
    var kept: seq<Value> := [];
    var ents: seq<E> := [];
    for i := 0 to |ids|
      invariant kept == Kept(id2ent, ids[..i])
      invariant ents == Entities(id2ent, kept)
      invariant forall j | 0 <= j < i :: Hashable(ids[j])
    {
      assert ids[..i + 1][..i] == ids[..i];
      var id := ids[i];
      if !Hashable(id) {
        return Failure(Raised(TypeError));
      }
      if Present(id2ent, id) {
        ents := ents + [id2ent[id.s]];
        kept := kept + [id];
      }
    }
    assert ids[..|ids|] == ids;
    r := Success((kept, ents));
  }

  /** The reply of `find_by_ids`: the entities by id, and how many were found. */
  datatype ByIds = ByIds(items: seq<(Value, Record)>, total: int)

  /** `dict(zip(ids, records))` */
  function Zip(ids: seq<Value>, records: seq<Record>): (r: seq<(Value, Record)>)
    ensures |r| == if |ids| <= |records| then |ids| else |records|
    ensures forall j | 0 <= j < |r| :: r[j] == (ids[j], records[j])
  {
    var n := if |ids| <= |records| then |ids| else |records|;
    seq(n, j requires 0 <= j < n => (ids[j], records[j]))
  }

  /** `{k: record[k] for k in names if k in record}` when fields were requested. */
  function Shown(record: Record, names: seq<string>): (r: Record)
    ensures names == [] ==> r == record
    ensures names != [] ==> forall k :: k in r <==> k in record && k in names
    ensures forall k | k in r :: r[k] == record[k]
  {
    if |names| > 0 then ProjectPresent(record, names) else record
  }

  /** The record `find_by_ids` answers for a requested id the dictionary has. */
  function RecordOf<E>(id2ent: map<string, E>, serialize: E -> Record, names: seq<string>): Value -> Record {
    (id: Value) => if id.VStr? && id.s in id2ent then Shown(serialize(id2ent[id.s]), names) else map[]
  }

  /** The reply to a request for `ids`, all of them hashable. */
  function Answer<E>(id2ent: map<string, E>, serialize: E -> Record, names: seq<string>, ids: seq<Value>): (r: ByIds)
    ensures DistinctIds(r.items) && |r.items| <= r.total <= |ids|
  {
    var kept := Kept(id2ent, ids);
    var records := BatchSerialize(serialize, Entities(id2ent, kept));
    var shown := seq(|records|, j requires 0 <= j < |records| => Shown(records[j], names));
    ByIds(ById(Zip(kept, shown)), |kept|)
  }

  /** What `find_by_ids` answers for the JSON body `body`. */
  function FindByIdsReply<E>(id2ent: map<string, E>, serialize: E -> Record, args: Args, body: seq<Entry>)
    : (r: Result<ByIds, Fail>)
    ensures Deserializers.FieldValue(body, "ids").None? ==> r == Failure(BadRequest)
    ensures r.Failure? ==> r.error == BadRequest || r.error == Raised(TypeError)
    ensures r.Success? ==> DistinctIds(r.value.items) && |r.value.items| <= r.value.total
  {
    match Deserializers.FieldValue(body, "ids")
    case None => Failure(BadRequest)
    case Some(v) =>
      match Iterate(v)
      case None => Failure(Raised(TypeError))
      case Some(ids) =>
        if exists j | 0 <= j < |ids| :: !Hashable(ids[j]) then Failure(Raised(TypeError))
        else Success(Answer(id2ent, serialize, ListArg(args, "fields"), ids))
  }

  /** find_by_ids */
  method FindByIds<E>(id2ent: map<string, E>, serialize: E -> Record, args: Args, body: seq<Entry>)
    returns (r: Result<ByIds, Fail>)
    ensures r == FindByIdsReply(id2ent, serialize, args, body)
  {
    var v := Deserializers.FieldValue(body, "ids");
    if v.None? {
      return Failure(BadRequest);
    }
    var names := ListArg(args, "fields");
    var ids := Iterate(v.value);
    if ids.None? {
      return Failure(Raised(TypeError));
    }
    var gathered :- Gather(id2ent, ids.value);
    var (kept, ents) := gathered;
    var records := BatchSerialize(serialize, ents);
    if |names| > 0 {
      records := seq(|records|, j requires 0 <= j < |records| => ProjectPresent(records[j], names));
    }
    assert records == seq(|records|, j requires 0 <= j < |records| => Shown(BatchSerialize(serialize, ents)[j], names));
    assert Answer(id2ent, serialize, names, ids.value) == ByIds(ById(Zip(kept, records)), |ents|);
    return Success(ByIds(ById(Zip(kept, records)), |ents|));
  }

  /**
   * `find_by_ids` answers with exactly the requested ids the dictionary has,
   * each once and with its own entity's record, and counts every such
   * request, repeats included.
   */
  lemma FindByIdsFound<E>(id2ent: map<string, E>, serialize: E -> Record, names: seq<string>, ids: seq<Value>)
    ensures var r := Answer(id2ent, serialize, names, ids);
      && r.total == |Kept(id2ent, ids)|
      && DistinctIds(r.items)
      && (forall j | 0 <= j < |r.items| :: Present(id2ent, r.items[j].0))
      && (forall j | 0 <= j < |r.items| :: r.items[j].1 == Shown(serialize(id2ent[r.items[j].0.s]), names))
      && (forall j | 0 <= j < |ids| && Present(id2ent, ids[j]) :: HasId(r.items, ids[j]))
  {
    var kept := Kept(id2ent, ids);
    var ents := Entities(id2ent, kept);
    var records := BatchSerialize(serialize, ents);
    BatchSerializeEach(serialize, ents);
    var shown := seq(|records|, j requires 0 <= j < |records| => Shown(records[j], names));
    var pairs := Zip(kept, shown);
    var f := RecordOf(id2ent, serialize, names);
    forall i | 0 <= i < |pairs| ensures pairs[i].1 == f(pairs[i].0) {
      assert pairs[i] == (kept[i], Shown(serialize(id2ent[kept[i].s]), names));
    }
    ByIdValues(pairs, f);
    ByIdKeys(pairs);
    ByIdFrom(pairs);
    var d := ById(pairs);
    forall j | 0 <= j < |d| ensures Present(id2ent, d[j].0) {
      var i :| 0 <= i < |pairs| && pairs[i].0 == d[j].0;
    }
    forall j | 0 <= j < |ids| && Present(id2ent, ids[j]) ensures HasId(d, ids[j]) {
      KeptCount(id2ent, ids, ids[j]);
      assert ids[j] in multiset(kept);
      var i :| 0 <= i < |kept| && kept[i] == ids[j];
      assert pairs[i].0 == ids[j];
    }
  }

  /** Without a `ids` key the request is malformed. */
  lemma FindByIdsMissing<E>(id2ent: map<string, E>, serialize: E -> Record, args: Args, body: seq<Entry>)
    requires Deserializers.FieldValue(body, "ids").None?
    ensures FindByIdsReply(id2ent, serialize, args, body) == Failure(BadRequest)
  {
  }

  // ---------------------------------------------------------------------
  // GET /<name>/<id>

  /** find_by_id */
  function FindById<E>(id2ent: map<string, E>, serialize: E -> Record, args: Args, id: string): (r: Result<Record, Fail>)
    ensures r.Success? <==> id in id2ent
    ensures r.Failure? ==> r.error == NotFound
    ensures r.Success? && ListArg(args, "fields") == [] ==> r.value == serialize(id2ent[id])
    ensures r.Success? && ListArg(args, "fields") != [] ==>
      forall k :: k in r.value <==> k in serialize(id2ent[id]) && k in ListArg(args, "fields")
    ensures r.Success? ==> forall k | k in r.value :: r.value[k] == serialize(id2ent[id])[k]
  {
    if id !in id2ent then Failure(NotFound)
    else Success(Shown(serialize(id2ent[id]), ListArg(args, "fields")))
  }
}
