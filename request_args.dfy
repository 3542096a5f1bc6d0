/**
 * What the generated REST handlers read from a request and how they shape a
 * response: the query-string arguments (`request.args`, a MultiDict), the
 * filter-key pattern `(?P<name>[a-zA-Z_0-9]+)(?:\[(?P<op>[a-zA-Z0-9]+)\])?`
 * applied with `re.match`, the HTTP errors the handlers raise, the
 * projection of serialized records onto requested keys, and the
 * insertion-ordered grouping of a `defaultdict(list)`.
 */
module RequestArgs {
  import opened Wrappers
  import opened Py
  import opened Text

  // ---------------------------------------------------------------------
  // request.args

  /** The query string's pairs in order; a key may occur more than once. */
  type Args = seq<(string, string)>

  /** `k in request.args` */
  predicate HasKey(args: Args, k: string) {
    exists i | 0 <= i < |args| :: args[i].0 == k
  }

  /** `request.args[k]`: a MultiDict answers with the first value given for `k`. */
  function Lookup(args: Args, k: string): (r: Option<string>)
    ensures r.None? <==> !HasKey(args, k)
    ensures r.Some? ==> (k, r.value) in args
  {
    if |args| == 0 then None
    else if args[0].0 == k then Some(args[0].1)
    else
      assert forall i | 1 <= i < |args| :: args[i] == args[1..][i - 1];
      Lookup(args[1..], k)
  }

  /** The pair at the first occurrence of `k` is what `request.args[k]` answers. */
  lemma {:induction false} LookupFirst(args: Args, i: nat)
    requires i < |args| && forall j | 0 <= j < i :: args[j].0 != args[i].0
    ensures Lookup(args, args[i].0) == Some(args[i].1)
  {
    if i > 0 {
      assert args[1..][i - 1] == args[i];
      LookupFirst(args[1..], i - 1);
    }
  }

  /** `request.args.get(k, default)` */
  function GetOr(args: Args, k: string, default: string): (r: string)
    ensures !HasKey(args, k) ==> r == default
    ensures HasKey(args, k) ==> Some(r) == Lookup(args, k)
  {
    match Lookup(args, k)
    case Some(v) => v
    case None => default
  }

  /** The pairs without key `k`. */
  function Without(args: Args, k: string): (r: Args)
    ensures |r| <= |args|
    ensures forall p :: p in r <==> p in args && p.0 != k
  {
    if |args| == 0 then []
    else if args[0].0 == k then Without(args[1..], k)
    else [args[0]] + Without(args[1..], k)
  }

  lemma {:induction false} LookupWithout(args: Args, k: string, x: string)
    requires x != k
    ensures Lookup(Without(args, k), x) == Lookup(args, x)
  {
    if |args| > 0 {
      LookupWithout(args[1..], k, x);
    }
  }

  /** `request.args.items()` (and `.keys()`): every key once, in the order of its
      first occurrence, with its first value. */
  function Items(args: Args): (r: seq<(string, string)>)
    ensures forall p | p in r :: p in args
    ensures forall i, j | 0 <= i < j < |r| :: r[i].0 != r[j].0
    decreases |args|
  {
    if |args| == 0 then []
    else
      var rest := Items(Without(args[1..], args[0].0));
      [args[0]] + rest
  }

  /** Every key of the arguments appears among the items, with its first value. */
  lemma {:induction false} ItemsLookup(args: Args)
    ensures forall p | p in Items(args) :: Lookup(args, p.0) == Some(p.1)
    ensures forall k :: HasKey(args, k) <==> exists p | p in Items(args) :: p.0 == k
    decreases |args|
  {
    if |args| > 0 {
      var k0 := args[0].0;
      var w := Without(args[1..], k0);
      ItemsLookup(w);
      forall p | p in Items(args) ensures Lookup(args, p.0) == Some(p.1) {
        if p != args[0] {
          assert p in Items(w) && p in w;
          LookupWithout(args[1..], k0, p.0);
        }
      }
      forall k | HasKey(args, k) ensures exists p | p in Items(args) :: p.0 == k {
        if k != k0 {
          var i :| 0 <= i < |args| && args[i].0 == k;
          assert args[i] in w;
          assert HasKey(w, k);
        } else {
          assert Items(args)[0].0 == k;
        }
      }
    }
  }

  // ---------------------------------------------------------------------
  // The filter-key pattern, applied with re.match (a prefix match).

  /** `[a-zA-Z_0-9]` */
  predicate IsNameChar(c: char) {
    'a' <= c <= 'z' || 'A' <= c <= 'Z' || '0' <= c <= '9' || c == '_'
  }

  /** `[a-zA-Z0-9]` */
  predicate IsOpChar(c: char) {
    'a' <= c <= 'z' || 'A' <= c <= 'Z' || '0' <= c <= '9'
  }

  predicate AllNameChars(s: string) {
    forall i | 0 <= i < |s| :: IsNameChar(s[i])
  }

  predicate AllOpChars(s: string) {
    forall i | 0 <= i < |s| :: IsOpChar(s[i])
  }

  /** The length of the longest prefix of `s` made of `[a-zA-Z_0-9]`. */
  function NameLen(s: string): (n: nat)
    ensures n <= |s| && AllNameChars(s[..n])
    ensures n < |s| ==> !IsNameChar(s[n])
  {
    if |s| == 0 || !IsNameChar(s[0]) then 0
    else
      var m := NameLen(s[1..]);
      assert s[..m + 1] == [s[0]] + s[1..][..m];
      m + 1
  }

  /** The length of the longest prefix of `s` made of `[a-zA-Z0-9]`. */
  function OpLen(s: string): (n: nat)
    ensures n <= |s| && AllOpChars(s[..n])
    ensures n < |s| ==> !IsOpChar(s[n])
  {
    if |s| == 0 || !IsOpChar(s[0]) then 0
    else
      var m := OpLen(s[1..]);
      assert s[..m + 1] == [s[0]] + s[1..][..m];
      m + 1
  }

  /** What a match gives: the `name` group and the optional `op` group. */
  datatype Key = Key(name: string, op: Option<string>)

  /** `[op]` at the start of `rest`, for a non-empty run of `[a-zA-Z0-9]`. */
  predicate OpBracket(rest: string) {
    var n := OpLen(if |rest| > 0 then rest[1..] else "");
    |rest| >= n + 2 && n > 0 && rest[0] == '[' && rest[n + 1] == ']'
  }

  /**
   * `field_reg.match(key)`. The name is greedy and `[` is not a name character,
   * so the name is the longest leading run of name characters; the optional
   * group matches exactly when that run is followed by `[`, a non-empty
   * alphanumeric run and `]`. Whatever follows is ignored.
   */
  function ParseKey(s: string): (r: Option<Key>)
    ensures r.None? <==> |s| == 0 || !IsNameChar(s[0])
    ensures r.Some? ==> var n := |r.value.name|;
      && 0 < n <= |s| && r.value.name == s[..n] && AllNameChars(r.value.name)
      && (n < |s| ==> !IsNameChar(s[n]))
      && (r.value.op.Some? <==> OpBracket(s[n..]))
      && (r.value.op.Some? ==>
            var op := r.value.op.value;
            0 < |op| && AllOpChars(op) && n + |op| + 2 <= |s|
            && s[n] == '[' && s[n + 1..n + 1 + |op|] == op && s[n + 1 + |op|] == ']')
  {
    var n := NameLen(s);
    if n == 0 then None
    else
      var rest := s[n..];
      if OpBracket(rest) then
        var m := OpLen(rest[1..]);
        assert rest[1..][..m] == s[n + 1..n + 1 + m];
        Some(Key(s[..n], Some(rest[1..][..m])))
      else Some(Key(s[..n], None))
  }

  lemma {:induction false} NameLenOf(name: string, rest: string)
    requires AllNameChars(name)
    requires |rest| == 0 || !IsNameChar(rest[0])
    ensures NameLen(name + rest) == |name|
    decreases |name|
  {
    if |name| > 0 {
      assert (name + rest)[1..] == name[1..] + rest;
      NameLenOf(name[1..], rest);
    }
  }

  lemma {:induction false} OpLenOf(op: string, rest: string)
    requires AllOpChars(op)
    requires |rest| == 0 || !IsOpChar(rest[0])
    ensures OpLen(op + rest) == |op|
    decreases |op|
  {
    if |op| > 0 {
      assert (op + rest)[1..] == op[1..] + rest;
      OpLenOf(op[1..], rest);
    }
  }

  /** `name[op]` followed by anything parses to that name and op. */
  lemma ParseNameOp(name: string, op: string, rest: string)
    requires |name| > 0 && AllNameChars(name)
    requires |op| > 0 && AllOpChars(op)
    ensures ParseKey(name + "[" + op + "]" + rest) == Some(Key(name, Some(op)))
  {
    var s := name + "[" + op + "]" + rest;
    assert s == name + ("[" + op + "]" + rest);
    NameLenOf(name, "[" + op + "]" + rest);
    assert s[|name|..] == "[" + op + "]" + rest;
    assert s[|name|..][1..] == op + ("]" + rest);
    OpLenOf(op, "]" + rest);
    assert s[..|name|] == name;
  }

  /** A key that is a bare name parses to that name without an op. */
  lemma ParseBareName(name: string)
    requires |name| > 0 && AllNameChars(name)
    ensures ParseKey(name) == Some(Key(name, None))
  {
    NameLenOf(name, "");
    assert name + "" == name;
  }

  /** Characters after the name that do not form `[op]` are ignored: `a[]`, `a[x`,
      `a-b` all parse to the bare name. */
  lemma ParseNameJunk(name: string, rest: string)
    requires |name| > 0 && AllNameChars(name)
    requires |rest| > 0 && !IsNameChar(rest[0]) && !OpBracket(rest)
    ensures ParseKey(name + rest) == Some(Key(name, None))
  {
    NameLenOf(name, rest);
    assert (name + rest)[|name|..] == rest;
    assert (name + rest)[..|name|] == name;
  }

  // ---------------------------------------------------------------------
  // HTTP errors.

  /** How a handler fails: werkzeug's BadRequest / NotFound, or an exception that
      escapes the handler (a server error). */
  datatype Fail = BadRequest | NotFound | Raised(e: Exc)

  /** An exception escaping a handler. */
  function Raise<T>(r: Result<T, Exc>): (s: Result<T, Fail>)
    ensures r.Success? ==> s == Success(r.value)
    ensures r.Failure? ==> s == Failure(Raised(r.error))
  {
    match r
    case Success(x) => Success(x)
    case Failure(e) => Failure(Raised(e))
  }

  /** A serialized record: a JSON object, by key. */
  type Record = map<string, Value>

  /** `{k: item[k] for k in names}`: KeyError when the item lacks a requested key. */
  function ProjectStrict(item: Record, names: seq<string>): (r: Result<Record, Fail>)
    ensures r.Success? <==> forall i | 0 <= i < |names| :: names[i] in item
    ensures r.Success? ==> forall k :: k in r.value <==> k in names
    ensures r.Success? ==> forall k | k in r.value :: k in item && r.value[k] == item[k]
    ensures r.Failure? ==> r.error == Raised(KeyError)
  {
    if forall i | 0 <= i < |names| :: names[i] in item then
      Success(map k | k in item && k in names :: item[k])
    else Failure(Raised(KeyError))
  }

  /** `{k: item[k] for k in names if k in item}` */
  function ProjectPresent(item: Record, names: seq<string>): (r: Record)
    ensures forall k :: k in r <==> k in item && k in names
    ensures forall k | k in r :: r[k] == item[k]
  {
    map k | k in item && k in names :: item[k]
  }

  /** `[{k: item[k] for k in names} for item in items]`: the first KeyError, or every
      item projected. */
  function ProjectAll(items: seq<Record>, names: seq<string>): (r: Result<seq<Record>, Fail>)
    ensures r.Success? <==> forall j | 0 <= j < |items| :: ProjectStrict(items[j], names).Success?
    ensures r.Success? ==> (|r.value| == |items|
      && forall j | 0 <= j < |items| :: Success(r.value[j]) == ProjectStrict(items[j], names))
    ensures r.Failure? ==> r.error == Raised(KeyError)
  {
    if |items| == 0 then Success([])
    else
      match ProjectStrict(items[0], names)
      case Failure(e) => Failure(e)
      case Success(x) =>
        match ProjectAll(items[1..], names)
        case Failure(e) => Failure(e)
        case Success(xs) =>
          assert forall j | 1 <= j < |items| :: items[j] == items[1..][j - 1];
          Success([x] + xs)
  }

  /** Every projected item has exactly the requested keys, with the item's values. */
  lemma ProjectedKeys(items: seq<Record>, names: seq<string>, j: nat)
    requires ProjectAll(items, names).Success? && j < |items|
    ensures var p := ProjectAll(items, names).value[j];
      (forall k :: k in p <==> k in names) && forall k | k in p :: p[k] == items[j][k]
  {
  }

  // ---------------------------------------------------------------------
  // A JSON object keyed by record id, in insertion order.

  predicate HasId(d: seq<(Value, Record)>, k: Value) {
    exists i | 0 <= i < |d| :: d[i].0 == k
  }

  predicate DistinctIds(d: seq<(Value, Record)>) {
    forall i, j | 0 <= i < j < |d| :: d[i].0 != d[j].0
  }

  /** `d[k] = v` on an insertion-ordered dict: a new key goes last, an existing one
      keeps its place and takes the new value. */
  function Store(d: seq<(Value, Record)>, k: Value, v: Record): (r: seq<(Value, Record)>)
    requires DistinctIds(d)
    ensures DistinctIds(r) && HasId(r, k)
    ensures HasId(d, k) ==> |r| == |d| && forall i | 0 <= i < |d| :: r[i] == if d[i].0 == k then (k, v) else d[i]
    ensures !HasId(d, k) ==> r == d + [(k, v)]
  {
    if HasId(d, k) then
      var r := seq(|d|, i requires 0 <= i < |d| => if d[i].0 == k then (k, v) else d[i]);
      assert forall i | 0 <= i < |d| :: r[i].0 == d[i].0;
      r
    else
      var r := d + [(k, v)];
      assert r[|d|].0 == k;
      r
  }

  /** `dict(pairs)`: one entry per distinct key, at its first position, with its last value. */
  function ById(pairs: seq<(Value, Record)>): (r: seq<(Value, Record)>)
    ensures DistinctIds(r) && |r| <= |pairs|
  {
    if |pairs| == 0 then []
    else Store(ById(pairs[..|pairs| - 1]), pairs[|pairs| - 1].0, pairs[|pairs| - 1].1)
  }

  /** Every key of the dict is a key of the pairs. */
  lemma {:induction false} ByIdFrom(pairs: seq<(Value, Record)>)
    ensures forall j | 0 <= j < |ById(pairs)| :: exists i | 0 <= i < |pairs| :: pairs[i].0 == ById(pairs)[j].0
  {
    if |pairs| > 0 {
      var prefix := pairs[..|pairs| - 1];
      ByIdFrom(prefix);
      var d := ById(prefix);
      var r := ById(pairs);
      forall j | 0 <= j < |r| ensures exists i | 0 <= i < |pairs| :: pairs[i].0 == r[j].0 {
        if j < |d| {
          var i :| 0 <= i < |prefix| && prefix[i].0 == d[j].0;
          assert pairs[i] == prefix[i];
          if HasId(d, pairs[|pairs| - 1].0) {
            assert r[j].0 == d[j].0;
          } else {
            assert r[j] == d[j];
          }
        } else {
          assert r == d + [pairs[|pairs| - 1]];
          assert pairs[|pairs| - 1].0 == r[j].0;
        }
      }
      assert forall j | 0 <= j < |ById(pairs)| :: exists i | 0 <= i < |pairs| :: pairs[i].0 == ById(pairs)[j].0;
    } else {
      assert ById(pairs) == [];
    }
  }

  /** When every pair's value is `f` of its key, so is every entry's. */
  lemma {:induction false} ByIdValues(pairs: seq<(Value, Record)>, f: Value -> Record)
    requires forall i | 0 <= i < |pairs| :: pairs[i].1 == f(pairs[i].0)
    ensures forall j | 0 <= j < |ById(pairs)| :: ById(pairs)[j].1 == f(ById(pairs)[j].0)
  {
    if |pairs| > 0 {
      var prefix := pairs[..|pairs| - 1];
      assert forall i | 0 <= i < |prefix| :: prefix[i] == pairs[i];
      ByIdValues(prefix, f);
    }
  }

  /** The pair `i` is the last one with its key. */
  predicate LastOfKey(pairs: seq<(Value, Record)>, i: nat)
    requires i < |pairs|
  {
    forall i' | i < i' < |pairs| :: pairs[i'].0 != pairs[i].0
  }

  /** Each entry of the dict is the last pair with its key. */
  lemma {:induction false} ByIdLast(pairs: seq<(Value, Record)>)
    ensures forall j | 0 <= j < |ById(pairs)| :: exists i | 0 <= i < |pairs| :: pairs[i] == ById(pairs)[j] && LastOfKey(pairs, i)
  {
    if |pairs| > 0 {
      var n := |pairs| - 1;
      var prefix := pairs[..n];
      ByIdLast(prefix);
      var d := ById(prefix);
      var r := ById(pairs);
      forall j | 0 <= j < |r| ensures exists i | 0 <= i < |pairs| :: pairs[i] == r[j] && LastOfKey(pairs, i) {
        if j < |d| && d[j].0 != pairs[n].0 {
          assert r[j] == d[j];
          var i :| 0 <= i < |prefix| && prefix[i] == d[j] && LastOfKey(prefix, i);
          assert pairs[i] == prefix[i];
          assert LastOfKey(pairs, i);
        } else {
          if j == |d| {
            assert r == d + [pairs[n]];
          }
          assert r[j] == pairs[n];
          assert LastOfKey(pairs, n);
        }
      }
    } else {
      assert ById(pairs) == [];
    }
  }

  /** Every key of the pairs is a key of the dict. */
  lemma {:induction false} ByIdKeys(pairs: seq<(Value, Record)>)
    ensures forall j | 0 <= j < |pairs| :: HasId(ById(pairs), pairs[j].0)
  {
    if |pairs| > 0 {
      var prefix := pairs[..|pairs| - 1];
      ByIdKeys(prefix);
      var d := ById(prefix);
      var r := ById(pairs);
      forall j | 0 <= j < |prefix| ensures HasId(r, pairs[j].0) {
        assert pairs[j] == prefix[j];
        var i :| 0 <= i < |d| && d[i].0 == prefix[j].0;
        if HasId(d, pairs[|pairs| - 1].0) {
          assert r[i].0 == d[i].0;
        } else {
          assert r[i] == d[i];
        }
      }
    }
  }

  // ---------------------------------------------------------------------
  // defaultdict(list): groups in the order their key first appeared.

  type Groups<K, V> = seq<(K, seq<V>)>

  predicate DistinctGroupKeys<K(==), V>(g: Groups<K, V>) {
    forall i, j | 0 <= i < j < |g| :: g[i].0 != g[j].0
  }

  /** `groups[k]`: what is filed under `k`, empty when `k` has no group. */
  function GroupOf<K(==), V>(g: Groups<K, V>, k: K): seq<V> {
    if |g| == 0 then [] else if g[0].0 == k then g[0].1 else GroupOf(g[1..], k)
  }

  /** The values paired with `k`, in order. */
  function Picked<K(==), V>(pairs: seq<(K, V)>, k: K): seq<V> {
    if |pairs| == 0 then []
    else Picked(pairs[..|pairs| - 1], k) + if pairs[|pairs| - 1].0 == k then [pairs[|pairs| - 1].1] else []
  }

  lemma PickedSnoc<K, V>(pairs: seq<(K, V)>, p: (K, V))
    ensures forall k :: Picked(pairs + [p], k) == Picked(pairs, k) + if p.0 == k then [p.1] else []
  {
    assert (pairs + [p])[..|pairs|] == pairs;
  }

  /** `groups[k].append(v)`: `v` goes at the end of `k`'s group, a new group at the end when there is none. */
  function Append<K(==), V>(g: Groups<K, V>, k: K, v: V): (r: Groups<K, V>)
    ensures |g| <= |r| && forall i | 0 <= i < |g| :: r[i].0 == g[i].0
    ensures (exists i | 0 <= i < |g| :: g[i].0 == k) ==> |r| == |g|
    ensures (forall i | 0 <= i < |g| :: g[i].0 != k) ==> r == g + [(k, [v])]
  {
    if |g| == 0 then [(k, [v])]
    else if g[0].0 == k then [(k, g[0].1 + [v])] + g[1..]
    else
      var rest := Append(g[1..], k, v);
      assert forall i | 1 <= i < |g| :: g[i] == g[1..][i - 1];
      [g[0]] + rest
  }

  /** `v` lands at the end of `k`'s group; every other group is unchanged, and none becomes empty. */
  lemma {:induction false} AppendGroups<K(!new), V>(g: Groups<K, V>, k: K, v: V)
    ensures GroupOf(Append(g, k, v), k) == GroupOf(g, k) + [v]
    ensures forall k' | k' != k :: GroupOf(Append(g, k, v), k') == GroupOf(g, k')
    ensures (forall i | 0 <= i < |g| :: |g[i].1| > 0) ==> forall i | 0 <= i < |Append(g, k, v)| :: |Append(g, k, v)[i].1| > 0
    decreases |g|
  {
    var r := Append(g, k, v);
    if |g| > 0 {
      if g[0].0 == k {
        assert r[1..] == g[1..];
      } else {
        AppendGroups(g[1..], k, v);
        assert r[1..] == Append(g[1..], k, v);
      }
    }
  }

  lemma {:induction false} AppendDistinct<K, V>(g: Groups<K, V>, k: K, v: V)
    requires DistinctGroupKeys(g)
    ensures DistinctGroupKeys(Append(g, k, v))
  {
    var r := Append(g, k, v);
    if exists i | 0 <= i < |g| :: g[i].0 == k {
      assert forall i | 0 <= i < |g| :: r[i].0 == g[i].0;
    } else {
      assert r == g + [(k, [v])];
    }
  }

  /** `[item for lst in groups.values() for item in lst]` */
  function Flatten<K, V>(g: Groups<K, V>): (r: seq<V>)
    ensures |g| == 0 ==> r == []
  {
    if |g| == 0 then [] else Flatten(g[..|g| - 1]) + g[|g| - 1].1
  }

  /** Appending to a group adds one element to the flattened sequence. */
  lemma {:induction false} FlattenAppendLength<K, V>(g: Groups<K, V>, k: K, v: V)
    ensures |Flatten(Append(g, k, v))| == |Flatten(g)| + 1
    decreases |g|
  {
    if |g| > 0 {
      var r := Append(g, k, v);
      if g[0].0 == k {
        FlattenReplaceHead(g, g[0].1 + [v]);
      } else {
        FlattenAppendLength(g[1..], k, v);
        FlattenCons(g[0], g[1..]);
        FlattenCons(g[0], Append(g[1..], k, v));
        assert g == [g[0]] + g[1..];
      }
    }
  }

  lemma {:induction false} FlattenCons<K, V>(x: (K, seq<V>), g: Groups<K, V>)
    ensures Flatten([x] + g) == x.1 + Flatten(g)
    decreases |g|
  {
    if |g| > 0 {
      var h := [x] + g;
      assert h[..|h| - 1] == [x] + g[..|g| - 1];
      FlattenCons(x, g[..|g| - 1]);
    } else {
      assert [x][..0] == [];
    }
  }

  lemma FlattenReplaceHead<K, V>(g: Groups<K, V>, s: seq<V>)
    requires |g| > 0
    ensures |Flatten([(g[0].0, s)] + g[1..])| == |Flatten(g)| - |g[0].1| + |s|
  {
    FlattenCons((g[0].0, s), g[1..]);
    FlattenCons(g[0], g[1..]);
    assert g == [g[0]] + g[1..];
  }
}
