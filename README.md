# gena: generated REST APIs over peewee models, in Dafny

gena turns a peewee model class into a Flask blueprint: `generate_api` reads
the model's fields and builds a table of field names (`name2field`), one
deserializer per name and a serializer for records. Its handlers then turn
request arguments into a query (`GET /<table>`) or read and change single
records (`find_by_ids`, `get_one`, `has`, `create`, `update`, `delete_by_id`,
`truncate`). `generate_readonly_api_4dict` offers the read-only part of that
API over an in-memory dictionary of entities. The deserializers and
serializers are derived from peewee field classes and from Python type
annotations (dataclasses, TypedDicts, Enums, `List`, `Tuple`, `Dict`,
`Union`, `Literal`, ...). The repository also keeps the older generator of
the `flask_peewee_restful` package, which has its own deserializer
derivation and a smaller `generate_api`. The application's `home` route
decides which paths are sent as files.

The model, module by module:

- `Py`, `Text`, `Wrappers` (py.dfy, text.dfy, wrappers.dfy): Python values
  (None, bool, int, float as a real, str, list, tuple, set, dict, dataclass
  objects, enum members, datetimes), Python exceptions, `int(str)`,
  `str.split`, `str.find`, `str.upper`, dict assignment order,
  comprehensions that stop at the first exception, and the `add_trace`
  error traces of `NoDerivedDeserializer` / `NoDerivedSerializer`.
- `Peewee` (peewee.dfy): what the generators read from a model class: its
  name, its fields in declaration order with their field class, and its type
  hints.
- `Deserializers` (deserializers.dfy): the closures both generators build,
  as a datatype `Deser`, and `Run`, which gives what calling one on a value
  returns or raises.
- `GenaDeserializer` (gena_deserializer.dfy): the derivation of
  gena/deserializer.py. It is a class `Deriver` whose fields are the shared
  cache `known_type_deserializers` and the heap of dataclass / TypedDict
  closures. A closure is registered before its fields are derived, so a
  recursive type finds itself, and the methods update the cache in place.
- `LegacyDeserializer` (legacy_deserializer.dfy): the derivation of
  flask_peewee_restful/deserializer.py. It never caches, so it is modelled
  with functions; a class met again on the derivation path is Python's
  RecursionError.
- `Serializers` (serializer.dfy): gena/serializer.py. `Ser` closures with
  `RunSer`, the derivation as a class `SerDeriver` over the shared cache
  `known_type_serializer`, `get_peewee_serializer`'s plan and the
  `serialize_model` loops.
- `RequestArgs`, `Query` (request_args.dfy, query.dfy): `request.args` as a
  MultiDict (a sequence of pairs; `args[k]` is the first value), the
  `field_reg` pattern, and the parts of `GET /<table>` the two generators
  share: `fields`, `limit`, `offset`, `sorted_by`, the `filter_fields`
  loop, the dispatch of filters into conditions and `max` sub-queries, and
  the reply.
- `GenaApi` (gena_api.dfy): gena's `generate_api` and its handlers. The
  handlers that change records are methods of a class `Table` that holds the
  records by primary key.
- `GenaReadonly` (gena_readonly.dfy): `generate_readonly_api_4dict` and
  `gen_batch_serialize`.
- `LegacyApi` (legacy_api.dfy): `generate_api` of
  flask_peewee_restful/api_generator.py.
- `App` (app.dfy): the `home(path)` route of gena/app_generator.py.

Loops in the source are methods with loop invariants, each proved equal to a
function that states the same computation by recursion. The properties the
source promises are lemmas about those functions. The SQL that peewee would
run is not modelled: `GET /<table>` is specified up to the `Query` it
builds, and the rows the database returns are inputs.

Some behaviours are modelled as written, even where they look unintended:

- `generate_deserializer` calls the two-argument `get_deserialize_dict` with
  one argument for the `DictDataClassField` shapes, which raises TypeError
  (`GenaDeserializer.ShapeAsWritten`, `GenaDeserializer.Deriver.ForField`).
- `serialize_typeddict` reads each key from the TypedDict class rather than
  from the value (`Serializers.TypedDictClosureSpec`); for a key that is not
  an attribute of `dict` this raises AttributeError.
- A `Union` serializer calls the `None` member serializer of a member that
  needs none (`Serializers.UnionCallsNone`).
- A `Literal` member that rejects a value aborts a `Union` deserializer,
  because it raises a plain Exception rather than ValueError
  (`Deserializers.LiteralAbortsUnion`).
- The legacy `Dict[K, V]` deserializer checks the dict's values against
  `Union[K, V]` (`LegacyDeserializer.DictValuesUseUnion`).

## Model

| member | source | states |
|---|---|---|
| Deserializers.DeserializeInt | gena/deserializer.py:126-137 | deserialize_int raises only ValueError |
| Deserializers.DeserializeIntSpec | gena/deserializer.py:126-137 | ints (bools included) are kept; a string is accepted iff `int(s)` parses, and then gives the parsed int; a float is accepted iff it is integral, and then gives the equal int; anything else is a ValueError |
| Deserializers.DeserializeIntShowInt | flask_peewee_restful/deserializer.py:107-118 | the text `str(i)` deserializes back to `i` (round trip) |
| Deserializers.DeserializeFloat | gena/deserializer.py:158-165 | deserialize_float raises only ValueError |
| Deserializers.DeserializeBool | gena/deserializer.py:140-149 | deserialize_bool raises only ValueError |
| Deserializers.DeserializeBoolSpec | gena/deserializer.py:140-149 | accepted iff a bool or exactly "true"/"false"; "true" means True and "false" False; a bool is kept |
| Deserializers.DeserializeStr | gena/deserializer.py:152-155 | succeeds iff the value is a str, which is returned unchanged; ValueError otherwise |
| Deserializers.DeserializeNone | gena/deserializer.py:174-177 | succeeds iff the value is None; ValueError otherwise |
| Deserializers.FirstNotValueError | gena/deserializer.py:323-331 | the union's loop: ValueError iff every member raised ValueError; otherwise the first result that is not a ValueError |
| Deserializers.EnumLookup | gena/deserializer.py:258-261 | an Enum used as its own constructor returns a member of that Enum unchanged; any other value yields the member whose value is the first declared value equal to it (numbers by value), and raises ValueError iff there is none |
| Deserializers.FirstEq | gena/deserializer.py:279-282 | the first position of a value equal (Python `==`) to the input; None iff no value is equal |
| Deserializers.ValueResults | flask_peewee_restful/deserializer.py:179-185 | one result per dict entry, in order |
| Deserializers.MemberResults | gena/deserializer.py:323-328 | one result per union member, in order |
| Deserializers.Output | gena/deserializer.py:404-411 | the output dict holds at most one entry per field |
| Deserializers.FieldResults | gena/deserializer.py:405-410 | one result per field, in field order |
| Deserializers.CombineArgs | gena/deserializer.py:306-333 | one argument gives its own deserializer; two arguments with one None give the nullable of the non-None argument's deserializer; otherwise a union of all of them in order; only `[None, None]` fails (IndexError) |
| Deserializers.RequiredNames | gena/deserializer.py:411 | exactly the dataclass fields without a default are required by the constructor |
| Deserializers.NullableSpec | gena/deserializer.py:180-186 | None gives None; any other value is passed to the wrapped deserializer |
| Deserializers.ListSpec | gena/deserializer.py:189-195 | a non-list is a ValueError; a list succeeds iff every item does, and then gives the items deserialized in order with the same length |
| Deserializers.ListFailureSpec | gena/deserializer.py:189-195 | a list that fails raises the first failing item's exception, every earlier item having succeeded |
| Deserializers.TupleSpec | gena/deserializer.py:198-208 | a non-list or a list of the wrong length is a ValueError; a list of the right length succeeds iff every item does, the i-th deserializer handling the i-th item; otherwise the first failing item's exception is raised |
| Deserializers.HomTupleSpec | gena/deserializer.py:211-217 | only a list or tuple is accepted; it succeeds iff every item deserializes; the result is a tuple of the items deserialized in order |
| Deserializers.HomTupleFailureSpec | gena/deserializer.py:211-217 | a list or tuple that fails raises the first failing item's exception, every earlier item having succeeded |
| Deserializers.SetSpec | gena/deserializer.py:220-226 | a non-set is a ValueError; a set succeeds iff every item deserializes to a hashable value; the result is a set no larger than the input |
| Deserializers.SetFailureSpec | gena/deserializer.py:220-226 | a set that fails raises for its first item that fails: the item's exception, or TypeError when its result is unhashable |
| Deserializers.SetContentsSpec | gena/deserializer.py:220-226 | a deserialized set has no two equal items, holds only deserialized item values, and holds every deserialized item value up to equality |
| Deserializers.BuildSetContents | gena/deserializer.py:224 | a set comprehension over hashable values holds no two equal items, only those values, and every value up to equality |
| Deserializers.DictSpec | gena/deserializer.py:229-235 | a non-dict is a ValueError; a dict succeeds iff every key and value deserializes and every key result is hashable; the result is a dict no larger than the input |
| Deserializers.DictFailureSpec | gena/deserializer.py:229-235 | a dict that fails raises for its first entry that fails: its key's exception, else its value's, else TypeError for an unhashable key (`PairsOf`) |
| Deserializers.PairsOf | gena/deserializer.py:233 | each entry deserializes its key, then its value, then hashes the key: success iff all three do, with the deserialized pair; otherwise the first of the three failures |
| Deserializers.DictContentsSpec | gena/deserializer.py:229-235 | a deserialized dict has no two equal keys; each key is a deserialized key object; every deserialized key is present; each value is the deserialized value of the last entry whose deserialized key equals it |
| Deserializers.BuildDictContents | gena/deserializer.py:233 | a dict comprehension over pairs has no two equal keys, only the pairs' key objects, every pair's key up to equality, and for each key the value of the last pair whose key equals it |
| Deserializers.LastValueAt | gena/deserializer.py:233 | the last value recorded for a key comes from a pair whose key equals it with no equal key after it |
| Deserializers.DictValuesSpec | flask_peewee_restful/deserializer.py:179-185 | a non-dict is a ValueError; a dict succeeds iff every value deserializes, and then keeps every key in order with its value deserialized |
| Deserializers.ClosureRefSpec | gena/deserializer.py:413-415 | a dataclass or TypedDict deserializer registered in the cache is run as the cache holds it when called, which is how a recursive dataclass reaches itself |
| Deserializers.ClosureInlineSpec | flask_peewee_restful/deserializer.py:320-332 | a dataclass deserializer built in place (not through a cache) runs its own closure |
| Deserializers.LiteralSpec | gena/deserializer.py:273-284 | accepted iff the value is hashable and equal to a declared value, and then returned unchanged; a hashable undeclared value raises a plain Exception |
| Deserializers.UnionSpec | gena/deserializer.py:323-331 | ValueError iff every member raises ValueError; a success is the first member's result after members that raised ValueError |
| Deserializers.IntOfFive | gena/deserializer.py:130-131 | "5" deserializes to the int 5 |
| Deserializers.LiteralAbortsUnion | gena/deserializer.py:279-282 | `Union[Literal["a"], int]` rejects "5" although `int` alone accepts it |
| Deserializers.OutputKeys | gena/deserializer.py:404-410 | the output holds a field's key exactly when that field produced a value |
| Deserializers.DataclassClosureSpec | gena/deserializer.py:400-411 | a non-dict is a ValueError; an absent required field is a ValueError; an absent optional field is left out of the constructor's arguments; missing constructor arguments are a TypeError; the instance holds a field exactly when the input has it or the field has a default |
| Deserializers.DataclassInstanceSpec | gena/deserializer.py:404-411 | each field of the instance holds its deserialized input value, and a field absent from the input holds its default |
| Deserializers.Defaults | gena/deserializer.py:411 | the defaults `CLS(**output)` fills in: every field with a default has one, and each one is the default of a field of that name |
| Deserializers.WithDefaultsAt | gena/deserializer.py:411 | `CLS(**output)` sets a field exactly when it was passed or has a default, to the passed value, else the default |
| Deserializers.OutputAllSome | gena/deserializer.py:366-374 | when every field has a value the output has one entry per field, in field order, with that value |
| Deserializers.TypedDictClosureSpec | gena/deserializer.py:366-374 | a non-dict or a dict lacking an annotated key fails; a dict succeeds iff every annotated key is present and deserializes, and the result is `{k: deserialize_k(value[k])}` with one entry per key in annotation order |
| GenaDeserializer.NoDerivedFor | gena/deserializer.py:270 | the exception carries the annotation as its only trace entry |
| GenaDeserializer.UnsupportedFieldTrace | gena/deserializer.py:107 | the rendered trace names the model, then the field |
| GenaDeserializer.FieldTrace | gena/deserializer.py:428-431 | re-raising with the class and field names puts the class first, then one of its fields |
| GenaDeserializer.Wrap | gena/deserializer.py:120-121 | a nullable column gets the nullable wrapper, any other column its deserializer unchanged |
| GenaDeserializer.Put | gena/deserializer.py:108-122 | the output gains the field's name, plus `<name>_id` for a foreign key |
| GenaDeserializer.AddField | gena/deserializer.py:433-436 | appending one field to a closure keeps its class and required names |
| GenaDeserializer.Deriver.constructor | gena/deserializer.py:57-63 | a deriver starts with the caller's cache and no closures |
| GenaDeserializer.Deriver.FromType | gena/deserializer.py:238-351 | a cached annotation returns its cached deserializer and changes nothing; a success `Fits` the annotation (the caller's entry, the primitive, the Enum, a closure registered for that class, or the generic shape built from fitting argument deserializers: `Optional[X]` nullable of X's, a Union without None the union of its arguments' in order, `Tuple[X, ...]` a homogeneous tuple of X's); otherwise the result obeys `Derived`: NoDerivedDeserializer for underivable annotations, the registered dataclass / TypedDict closures with every field fitting, Literal checks and the generic failures; the cache only grows and every entry keeps fitting its key |
| GenaDeserializer.Deriver.FromClass | gena/deserializer.py:241-263 | a class without a cache entry is derived as a dataclass, a TypedDict (a closure registered for that class name), an Enum or refused, as `Derived` states; a success is `Built` for that class |
| GenaDeserializer.Deriver.FromGeneric | gena/deserializer.py:265-351 | a success is `Built` for the generic: list / set of the combined argument deserializer, dict of the first two arguments' deserializers, tuple of each argument's deserializer in order, homogeneous tuple of the first argument's, a Union the combined deserializer (`CombinedFits`); the failures `GenericFails` names |
| GenaDeserializer.Deriver.FromTypes | gena/deserializer.py:297-299 | one deserializer per argument, in order, each fitting its argument (`ArgsFit`) |
| GenaDeserializer.Deriver.Dataclass | gena/deserializer.py:390-438 | success is a new closure, registered under the class name, holding every field in order with its optional flag and a deserializer fitting the field's annotation; a class that is not a dataclass raises TypeError; NoDerivedDeserializer removes the registration and names the class and a field; an empty caller cache stays empty |
| GenaDeserializer.Deriver.FromArg | gena/deserializer.py:297-299 | one argument's deserializer fits that argument |
| GenaDeserializer.Deriver.Forget | gena/deserializer.py:428-431 | the class's cache entry is dropped and nothing else changes |
| GenaDeserializer.FitsGrow | gena/deserializer.py:413-415 | registering more closures keeps every derived deserializer fitting its annotation |
| GenaDeserializer.CacheGrow | gena/deserializer.py:413-415 | registering a closure keeps every cache entry fitting its key |
| GenaDeserializer.Deriver.DataclassFields | gena/deserializer.py:418-436 | the field loop fills the registered closure in field order, each field's deserializer fitting its annotation, or unregisters it on NoDerivedDeserializer |
| GenaDeserializer.Deriver.DeriveField | gena/deserializer.py:425-436 | a derived field, fitting its annotation, is appended to its closure; earlier closures are untouched |
| GenaDeserializer.Deriver.TypedDictDeser | gena/deserializer.py:354-387 | a non-total TypedDict raises NoDerivedDeserializer naming it and changes nothing; success is a closure registered under the class name with every annotated key, each required and with a deserializer fitting its annotation |
| GenaDeserializer.Deriver.TypedDictFields | gena/deserializer.py:379-385 | the annotation loop fills the closure in order, each key's deserializer fitting its annotation, or unregisters it on NoDerivedDeserializer |
| GenaDeserializer.Deriver.ForField | gena/deserializer.py:73-116 | int / float / bool / plain string / INT foreign-key columns get their fixed deserializer and change nothing; the field's rejection (untyped text subclass, non-INT foreign key, unknown field class) is raised; a Literal-hinted char or text column, or a text subclass hinted with another type than str, gets what `get_deserializer_from_type` gives for its hint (`ColumnFits`); a dataclass column gets a reference to the complete closure of its own class, alone or as a list's item; the dict shapes raise TypeError |
| GenaDeserializer.Deriver.Generate | gena/deserializer.py:57-123 | the output's keys are exactly the non-skipped fields' names plus `<name>_id` for foreign keys; with no name clash every fixed field has its fixed (possibly nullable) deserializer and every other field the (possibly nullable) deserializer `ForField` states for it; a model needing no derivation always succeeds; the first field needing more than a fixed deserializer raises its rejection |
| GenaDeserializer.Deriver.GenerateField | gena/deserializer.py:69-122 | one loop iteration adds exactly the field's keys and, with no name clash, keeps every earlier field's fixed or derived deserializer and adds its own |
| GenaDeserializer.Deriver.GenerateFields | gena/deserializer.py:69-123 | the field loop's result, as `Generate` states it |
| GenaDeserializer.FirstDerived | gena/deserializer.py:69-122 | the first field from `i` on that needs derivation, or the number of fields |
| GenaDeserializer.FirstDerivedAt | gena/deserializer.py:69-122 | that field is not skipped and has no fixed deserializer |
| GenaDeserializer.PutKeepsDirect | gena/deserializer.py:108-122 | without name clashes, storing a field keeps every earlier field's deserializer |
| LegacyDeserializer.ArgsFrom | flask_peewee_restful/deserializer.py:250-252 | one result per argument, each the argument's own derivation |
| LegacyDeserializer.FromType | flask_peewee_restful/deserializer.py:188-298 | the derivation raises only RecursionError (a class reaching itself), AssertionError (a bad Literal argument) or IndexError (`Union[None, None]`); anything else it cannot handle gives no deserializer |
| LegacyDeserializer.FromGeneric | flask_peewee_restful/deserializer.py:250-298 | the same for a subscripted generic |
| LegacyDeserializer.ByOrigin | flask_peewee_restful/deserializer.py:286-298 | only list, set, dict and Union origins give a deserializer, which is `deserialize_args` itself or wrapped by the list, set or dict combinator |
| LegacyDeserializer.GetDataclass | flask_peewee_restful/deserializer.py:301-333 | TypeError exactly for a class that is not a dataclass; otherwise only the derivation errors of its fields |
| LegacyDeserializer.GetTypedDict | flask_peewee_restful/deserializer.py:203-227 | only the derivation errors of its annotations; a non-total TypedDict gives no deserializer |
| LegacyDeserializer.FieldsUpTo | flask_peewee_restful/deserializer.py:309-318 | the dataclass field loop gives each field's name, its optional flag (a Union with None) and its derived deserializer |
| LegacyDeserializer.KeysUpTo | flask_peewee_restful/deserializer.py:206-211 | the TypedDict loop gives each annotated key, required, with its derived deserializer |
| LegacyDeserializer.DataclassDeserializer | flask_peewee_restful/deserializer.py:301-333 | the field loop computes `GetDataclass` |
| LegacyDeserializer.TypedDictDeserializer | flask_peewee_restful/deserializer.py:203-227 | the annotation loop computes `GetTypedDict` |
| LegacyDeserializer.PlainTypes | flask_peewee_restful/deserializer.py:188-234 | str, int, float and NoneType have deserializers; bool, datetime, `...`, a bare generic, an Enum and a plain class have none |
| LegacyDeserializer.ArgsAllSucceed | flask_peewee_restful/deserializer.py:250-252 | the argument list is derived when no argument raises |
| LegacyDeserializer.GenericRules | flask_peewee_restful/deserializer.py:250-298 | no deserializer when an argument has none; otherwise the origin applied to `deserialize_args` |
| LegacyDeserializer.OptionalOf | flask_peewee_restful/deserializer.py:259-270 | `Union[X, None]` is X's deserializer made nullable |
| LegacyDeserializer.DictValuesUseUnion | flask_peewee_restful/deserializer.py:285-292 | `Dict[str, int]` checks values with `Union[str, int]` |
| LegacyDeserializer.DictOfIntAcceptsText | flask_peewee_restful/deserializer.py:179-185 | so `{"a": "x"}` passes a `Dict[str, int]` field unchanged |
| LegacyDeserializer.FieldsAllSome | flask_peewee_restful/deserializer.py:309-315 | the field loop succeeds when every field derives |
| LegacyDeserializer.UnderivableField | flask_peewee_restful/deserializer.py:311-314 | the first field without a deserializer leaves the dataclass without one |
| LegacyDeserializer.DataclassShape | flask_peewee_restful/deserializer.py:301-333 | a derived dataclass deserializer checks every field with its own deserializer, marks a field optional iff its annotation is a Union with None, requires the fields without default and fills the others with their defaults |
| LegacyDeserializer.SelfReference | flask_peewee_restful/deserializer.py:301-311 | a dataclass whose first field is annotated with itself recurses until RecursionError |
| LegacyDeserializer.TypedDictShape | flask_peewee_restful/deserializer.py:203-227 | only a total TypedDict gets a deserializer, and then every annotated key is required and checked |
| LegacyDeserializer.OptionalButRequired | flask_peewee_restful/deserializer.py:316-331 | a Union-with-None field without default is optional to the closure but required by the constructor |
| LegacyDeserializer.MissingOptionalWithoutDefault | flask_peewee_restful/deserializer.py:320-331 | leaving such a field out is the constructor's TypeError |
| LegacyDeserializer.Shaped | flask_peewee_restful/deserializer.py:93-98 | the dict shapes wrap the dataclass deserializer in the one-argument dict combinator |
| LegacyDeserializer.FieldOut | flask_peewee_restful/deserializer.py:49-102 | a text-subclass column without annotation raises the plain Exception and nothing else does; TypeError exactly for a dataclass column whose class is not a dataclass; datetime and unknown columns are skipped |
| LegacyDeserializer.LiteralOrStr | flask_peewee_restful/deserializer.py:57-67 | a char or plain text column always gets a deserializer when it succeeds (`assert func is not None`), `deserialize_str` unless it is annotated with a Literal |
| LegacyDeserializer.Outputs | flask_peewee_restful/deserializer.py:47-104 | the loop raises only the plain Exception, TypeError or a derivation error |
| LegacyDeserializer.OutputsError | flask_peewee_restful/deserializer.py:47-104 | a failing loop raises what one of its fields raised |
| LegacyDeserializer.ForField | flask_peewee_restful/deserializer.py:49-102 | the loop body for one field computes `FieldOut` |
| LegacyDeserializer.Generate | flask_peewee_restful/deserializer.py:40-104 | the loop computes `Outputs` over all fields |
| LegacyDeserializer.OutputsSucceed | flask_peewee_restful/deserializer.py:47-104 | a loop that finished raised on no field |
| LegacyDeserializer.OutputsKeys | flask_peewee_restful/deserializer.py:47-104 | the output has exactly the fields that got a deserializer, under their own names, each with its own deserializer |
| LegacyDeserializer.SkippedFields | flask_peewee_restful/deserializer.py:71-100 | non-INT foreign keys, datetime and unknown columns, typed text columns and dataclasses without a deserializer are skipped; an unannotated text-subclass column raises |
| LegacyDeserializer.NullableIgnored | flask_peewee_restful/deserializer.py:102-103 | a nullable column gets the same deserializer as a non-nullable one |
| Py.AddTrace | gena/deserializer.py:46-48 | add_trace appends the parents in reverse order |
| Py.NestedTraceOrder | gena/deserializer.py:50-51 | a trace added outside another one is shown first |
| Py.DictSet | gena/serializer.py:132 | dict assignment appends a new key and keeps the position of an existing one |
| Py.Collect | gena/serializer.py:292 | a comprehension succeeds iff every element does, with their values in order; otherwise it raises the first element's exception |
| Py.Iterate | gena/serializer.py:292 | iterating a list, tuple or set gives its items, a dict its keys |
| Serializers.GetAttr | gena/serializer.py:130 | getattr on an object reads its attribute, otherwise AttributeError |
| Serializers.NonePassesThrough | gena/serializer.py:288-334 | every serializer but `attrgetter("value")` maps None to None; that one raises AttributeError |
| Serializers.LeafSpec | gena/serializer.py:55-59 | enum members serialize to their value, datetimes to milliseconds |
| Serializers.DatetimeValue | gena/serializer.py:55-59 | None stays None and a datetime becomes its milliseconds; anything else is an AttributeError |
| Serializers.EnumValue | gena/serializer.py:157 | `attrgetter("value")`: an enum member gives its value; None and anything without `.value` raise AttributeError |
| Serializers.IsInstance | gena/serializer.py:321-327 | `isinstance` raises TypeError exactly for a Literal, `...`, a TypedDict class, a subscripted generic or a Union; a class matches only its own instances |
| Serializers.RefSpec | gena/serializer.py:228-230 | a serializer registered for a class is run as the cache holds it when called |
| Serializers.SeqSpec | gena/serializer.py:288-294 | a non-iterable is a TypeError; otherwise a list of the serialized items, in order |
| Serializers.TupleSpec | gena/serializer.py:297-305 | items are paired with serializers up to the shorter of the two |
| Serializers.DictSpec | gena/serializer.py:308-314 | a non-dict is an AttributeError; keys are kept in order and values serialized |
| Serializers.UnionSpec | gena/serializer.py:317-334 | None gives None; no matching class is a ValueError; the first class the value is an instance of picks the serializer |
| Serializers.UnionCallsNone | gena/serializer.py:324-327 | `Union[int, datetime]` on 3 calls the missing int serializer (TypeError), while a datetime is serialized |
| Serializers.SubscriptedMemberRaises | gena/serializer.py:326 | `isinstance` against a subscripted generic member raises TypeError |
| Serializers.DataclassClosureSpec | gena/serializer.py:215-226 | None gives None; every field is output under its name, raw or serialized; a missing attribute raises |
| Serializers.TypedDictClosureSpec | gena/serializer.py:263-274 | None gives None; a TypedDict whose keys are not attribute names of `dict` raises AttributeError on any other value when it has keys, and gives `{}` when it has none |
| Serializers.SeqSer | gena/serializer.py:172-180 | a list / set / homogeneous tuple needs a serializer iff its element does |
| Serializers.TupleSer | gena/serializer.py:182-188 | a fixed tuple has no serializer as soon as one member has none |
| Serializers.DictSer | gena/serializer.py:190-194 | a dict needs a serializer iff its values do |
| Serializers.UnionSer | gena/serializer.py:317-319 | a union has no serializer only when no member needs one |
| Serializers.NoSerFor | gena/serializer.py:166 | the exception carries the annotation as its only trace entry |
| Serializers.FieldNames | gena/serializer.py:234 | the dataclass field names, in order |
| Serializers.ParentTrace | gena/serializer.py:244 | re-raising names the class first, then one of its fields |
| Serializers.KeyTrace | gena/serializer.py:282 | re-raising names one of the annotated keys |
| Serializers.ColumnFields | gena/serializer.py:85-125 | the fields in `field2func` are neither excluded nor foreign keys |
| Serializers.ForeignKeyFields | gena/serializer.py:96-103 | the foreign keys that are not excluded |
| Serializers.FieldsCovered | gena/serializer.py:85-125 | every field that is not excluded is in exactly one of the two lists |
| Serializers.ForeignKeyFor | gena/serializer.py:99-102 | a foreign key reads `<name>_id`, output under `<name>_id` in db_field mode and under `<name>` otherwise |
| Serializers.SerDeriver.constructor | gena/serializer.py:70-75 | a deriver starts with the caller's cache and no closures; every cache entry fits its key |
| Serializers.SerDeriver.FromType | gena/serializer.py:142-204 | a cached annotation returns its cached serializer; str, int, float, bool and None need none; a success `SerFits` the annotation: the caller's entry, or the serializer built from the arguments' own derivations (`SerBuilt`: list / set / `Tuple[X, ...]` give none exactly when X needs none and otherwise the sequence serializer of X's; a fixed tuple none when some member needs none, otherwise the tuple of its members' in order; a dict none or the dict serializer of the value type's; a Union none when no member needs one, otherwise the union over its arguments and their serializers in order); otherwise the result obeys `SerDerived`; the cache only grows and keeps fitting |
| Serializers.SerDeriver.FromClass | gena/serializer.py:149-166 | a class is serialized as a dataclass or a TypedDict (a closure registered for that class, with every field fitting its annotation), an Enum value, or refused |
| Serializers.SerDeriver.FromGeneric | gena/serializer.py:161-204 | a success is `SerBuilt` for the generic from its arguments' derivations (see `FromType`); plain-data generics need none and change nothing; the failures `SerGenericShape` names |
| Serializers.SerDeriver.FromTypes | gena/serializer.py:183-185 | one result per argument, in order, each fitting its argument (`SerArgsFit`); all none and nothing changed when every argument is plain data |
| Serializers.SerDeriver.Dataclass | gena/serializer.py:207-248 | success is a new closure, registered for the class, over every field in order: a caller-given field serializer as is, every other one fitting the field's annotation; a non-dataclass raises TypeError; NoDerivedSerializer unregisters the class and names it and a field |
| Serializers.SerDeriver.DataclassFields | gena/serializer.py:234-246 | the field loop fills the registered closure in field order, given serializers first and every derived one fitting its field's annotation |
| Serializers.SerDeriver.FieldFromType | gena/serializer.py:240 | the field's serializer fits its annotation; earlier closures are untouched |
| Serializers.SerDeriver.TypedDictSerializer | gena/serializer.py:251-285 | a non-total TypedDict raises and changes nothing; success is a closure registered for the class with every annotated key in order, each serializer fitting its annotation; the registration stays even when a key fails |
| Serializers.SerDeriver.FromArg | gena/serializer.py:183-185 | one argument's serializer fits that argument; a plain-data argument needs none and changes nothing |
| Serializers.SerDeriver.DataclassField | gena/serializer.py:235-240 | a field with a caller-given serializer takes it; any other field's derived serializer fits its annotation |
| Serializers.SerDeriver.Abandon | gena/serializer.py:241-244 | on NoDerivedSerializer the class's cache entry is dropped and the re-raised trace names the class, then the field; other exceptions pass unchanged |
| Serializers.SerDeriver.ColumnDataclass | gena/serializer.py:104-108 | a DataClassField column's serializer refers to a closure built for its class, holding every field of the class, each fitting its annotation; the datetime entry stays |
| Serializers.SerDeriver.ColumnFunc | gena/serializer.py:89-124 | a column that is not a foreign key gets the function its field class calls for: for a dataclass column, the closure of its own class in the field class's shape; only a dataclass column can fail, and a NoDerivedSerializer names the model and a field |
| Serializers.SerFitsGrow | gena/serializer.py:228-230 | registering more closures keeps every derived serializer fitting its annotation |
| Serializers.SerCacheGrow | gena/serializer.py:228-230 | registering a closure keeps every cache entry fitting its key |
| Serializers.TupleBuilt | gena/serializer.py:182-188 | the tuple serializer over fitting member serializers fits the tuple annotation, none included |
| Serializers.UnionBuilt | gena/serializer.py:196-202 | the union serializer over fitting member serializers fits the Union annotation, none included |
| Serializers.FixedFunc | gena/serializer.py:89-124 | a datetime column gets the datetime serializer, an unrecognised field its `db_value`, any other column its raw value |
| Serializers.SerDeriver.PeeweeSerializer | gena/serializer.py:70-139 | the plan has one column per non-excluded, non-foreign-key field with the function its class calls for (a dataclass column: the closure of its own class, `ColumnsDerived`), and the foreign keys in order; failure comes only from a dataclass column, and a NoDerivedSerializer names the model and a field; `datetime` is added to the cache |
| Serializers.SerDeriver.PeeweeFields | gena/serializer.py:85-125 | the field loop, as `PeeweeSerializer` states it |
| Serializers.ColumnStep | gena/serializer.py:130-134 | one entry of the first `serialize_model` loop |
| Serializers.ColumnsLoop | gena/serializer.py:129-134 | the first loop computes the columns' fold |
| Serializers.ForeignLoop | gena/serializer.py:135-136 | the second loop computes the foreign keys' fold |
| Serializers.SerializeModel | gena/serializer.py:127-137 | serialize_model computes `ModelOutput` |
| Serializers.ColumnsOutputKeys | gena/serializer.py:129-134 | the columns' fold outputs exactly the column names, in order |
| Serializers.ModelOutputColumns | gena/serializer.py:127-137 | with distinct keys, one entry per column, in order, each raw or serialized |
| Serializers.ModelOutputForeign | gena/serializer.py:135-137 | the entries after the columns' are the foreign keys', each read from its attribute |
| Serializers.ForeignKeyOutput | gena/serializer.py:96-102 | for the planned foreign keys, each is output under the key its mode calls for with the value of `<name>_id` |
| Text.Split | gena/api_generator.py:128 | `str.split(",")`: the parts joined back give the text, and no part holds the separator |
| Text.Find | gena/app_generator.py:37 | `str.find` is -1 iff the character is absent, otherwise its first index |
| Text.Upper | gena/deserializer.py:104 | `str.upper` keeps the length and upper-cases each character |
| Text.ParseShowInt | gena/deserializer.py:130-131 | `int(str(i)) == i` |
| Text.ParseInt | gena/deserializer.py:130-131 | a string of decimal digits parses to its value; a negative result needs a leading `-` |
| Peewee.IntColumnUpper | gena/deserializer.py:104 | a column type is INT exactly when `field_type.upper() == "INT"` |
| RequestArgs.Lookup | gena/api_generator.py:128 | `request.args[k]` answers the first value given for `k`, and only for a present key |
| RequestArgs.GetOr | gena/api_generator.py:134-135 | `request.args.get(k, default)` |
| RequestArgs.Items | gena/api_generator.py:169 | each key once, with its first value, in order of first appearance |
| RequestArgs.ItemsLookup | gena/api_generator.py:169 | every key of the arguments appears among the items, with its first value |
| RequestArgs.ParseKey | gena/api_generator.py:60 | `field_reg.match`: the longest run of name characters, then an optional `[op]` |
| RequestArgs.ParseNameOp | gena/api_generator.py:172-180 | `name[op]` followed by anything parses to that name and op |
| RequestArgs.ParseBareName | gena/api_generator.py:172-180 | a bare name parses to itself without op |
| RequestArgs.ParseNameJunk | gena/api_generator.py:172-180 | a name followed by anything but a well-formed `[op]` parses to the name without op |
| RequestArgs.Raise | gena/api_generator.py:200 | an exception escaping a handler keeps its kind |
| RequestArgs.ProjectStrict | gena/api_generator.py:275 | `{k: item[k] for k in names}`: KeyError iff a name is missing, otherwise exactly those keys |
| RequestArgs.ProjectPresent | gena/api_generator.py:300 | `{k: item[k] for k in names if k in item}`: exactly the requested keys the item has |
| RequestArgs.ProjectAll | gena/api_generator.py:274-275 | the projection of every item, or KeyError |
| RequestArgs.ProjectedKeys | gena/api_generator.py:274-275 | every projected item has exactly the requested keys, with the item's values |
| RequestArgs.Store | gena/api_generator.py:299-302 | a dict assignment by id replaces an existing id in place or appends a new one |
| RequestArgs.ById | gena/api_generator.py:299-302 | a dict built from pairs has distinct keys |
| RequestArgs.ByIdFrom | gena/api_generator.py:299-302 | every key of the dict comes from the pairs |
| RequestArgs.ByIdKeys | gena/api_generator.py:299-302 | every key of the pairs is in the dict |
| RequestArgs.ByIdValues | gena/api_generator.py:299-302 | when every pair's value is `f` of its key, so is every entry's |
| RequestArgs.ByIdLast | gena/api_generator.py:299-302 | every entry of the dict is the pair of the last occurrence of its id |
| RequestArgs.Append | gena/api_generator.py:181 | `filter_fields[name].append(...)`: every existing name keeps its place, and a new name opens a group at the end |
| RequestArgs.AppendGroups | gena/api_generator.py:181 | the value goes at the end of its name's group, every other group is unchanged, and no group becomes empty |
| RequestArgs.PickedSnoc | gena/api_generator.py:168-181 | one more pair adds its value to its own name's picks only |
| RequestArgs.Flatten | gena/api_generator.py:215 | `[item for lst in groups.values() for item in lst]` |
| Query.SelectFields | gena/api_generator.py:127-132 | succeeds iff every requested name is a known field, giving the names; KeyError otherwise |
| Query.IntArg | gena/api_generator.py:134-135 | `int(args.get(k, default))`: succeeds iff the text parses, ValueError otherwise |
| Query.SortTerm | gena/api_generator.py:146-154 | a leading `-` sorts descending; the name must be a known field, otherwise the handler's error |
| Query.SortLoop | gena/api_generator.py:144-154 | the `sorted_by` loop computes the ORDER BY clause |
| Query.OrderBy | gena/api_generator.py:144-154 | one term per `sorted_by` name, in order; an unknown name fails with the handler's error and nothing else |
| Query.FilterFields | gena/api_generator.py:168-181 | succeeds iff every argument is an op field or a known `name[op]`; groups are distinct known names and hold one entry per filter argument; BadRequest otherwise |
| Query.FilterFieldsGroups | gena/api_generator.py:168-181 | the group of each name holds exactly that name's `(op, value)` pairs, in argument order, and no group is empty |
| Query.FilterGroupsStep | gena/api_generator.py:172-181 | one argument keeps every group equal to its name's filter pairs |
| Query.FilterLoop | gena/api_generator.py:168-181 | the loop computes `FilterFields` |
| Query.FilterFieldsFailed | gena/api_generator.py:172-178 | once an argument is refused, the later ones do not matter |
| Query.DispatchKeepsAll | gena/api_generator.py:183-212 | every filter becomes one condition or one pending `max` |
| Query.DispatchStep | gena/api_generator.py:186-212 | an unknown name is a KeyError; a second `max` on a name fails the assert; any other filter passes iff its condition is accepted |
| Query.DispatchMaxes | gena/api_generator.py:188-191 | the pending aggregations are exactly the `max` filters, at most one per name |
| Query.DispatchAccepted | gena/api_generator.py:183-212 | dispatch succeeds iff every filter names a known field, every non-`max` condition is accepted, and no name has two `max` filters |
| Query.DispatchConds | gena/api_generator.py:192-215 | the WHERE conditions are grouped by distinct model field; on each field they are, in order, the conditions its non-`max` filters became, and the flattened conditions are exactly those |
| Query.OnAppend | gena/api_generator.py:196-212 | `conditions[field].append(c)` adds `c` after the conditions already on its field and changes no other field's |
| Query.OnConcat | gena/api_generator.py:215 | the conditions on a field of a concatenation are those of each part, in order |
| Query.OnMember | gena/api_generator.py:215 | a condition is among those on its field iff it is among all of them |
| Query.DispatchFailed | gena/api_generator.py:183-212 | once dispatch fails, later filters do not matter |
| Query.DispatchLoop | gena/api_generator.py:183-212 | the nested loop computes the dispatch of the flattened filters |
| Query.CompareOp | gena/api_generator.py:201-212 | no operator, gt, gte, lt and lte are the only comparison operators; no operator is equality |
| Query.MaxFilterOf | gena/api_generator.py:232-266 | `name[max]=g1,...` succeeds iff every group field is known, keeping them in order |
| Query.MaxLoop | gena/api_generator.py:232-266 | the loop over `pending_ops` computes every `max` sub-query or the first BadRequest |
| Query.MaxFilterResults | gena/api_generator.py:232-266 | one result per pending `max`, in order, each that filter's own sub-query |
| Query.Respond | gena/api_generator.py:273-277 | without `fields` the rows as they are; with `fields` every item has exactly those keys, each with the row's value, and a row lacking one is a KeyError; `total` is passed through |
| GenaApi.SkipFuncs | gena/api_generator.py:45-48 | `truncate` is skipped unless truncation is enabled; other functions are skipped only when listed |
| GenaApi.TruncateRoute | gena/api_generator.py:394-399 | `DELETE /<table>` is registered iff truncation is enabled and not skipped |
| GenaApi.Assign | gena/api_generator.py:55-57 | a new key of `name2field` goes last, an existing one keeps its place |
| GenaApi.Name2Field | gena/api_generator.py:53-57 | `name2field` has distinct names |
| GenaApi.BuildName2Field | gena/api_generator.py:53-57 | the loop computes `Name2Field` |
| GenaApi.Name2FieldKeys | gena/api_generator.py:53-57 | `name2field`'s names are the fields' names plus `<name>_id` for foreign keys: the names the generated deserializers cover |
| GenaApi.Name2FieldEntries | gena/api_generator.py:53-57 | without clashes every name leads to its field and `<name>_id` to its foreign key |
| GenaApi.NamesApart | gena/api_generator.py:53-57 | what no clash means for two different fields |
| GenaApi.CompletionCovers | gena/api_generator.py:62-79 | when the caller supplied `<name>_id` along with each foreign key they supplied, the completed deserializers cover every name |
| GenaApi.ForeignKeyAliasUncovered | gena/api_generator.py:62-79 | a caller who supplies a foreign key but not its `<name>_id` leaves that name uncovered, so `generate_api` raises |
| GenaApi.OutputNamesNoAlias | gena/deserializer.py:69-71 | a skipped foreign key's `<name>_id` is generated by no field |
| GenaApi.CompleteDeserializers | gena/api_generator.py:62-74 | the deserializers cover exactly the caller's names plus the generated ones; a caller covering every name needs no derivation |
| GenaApi.Merge | gena/api_generator.py:70-74 | `deserializers.update(generated)` keeps the caller's entries the generator did not produce |
| GenaApi.GivenKeys | gena/api_generator.py:72 | the names the caller supplied deserializers for |
| GenaApi.GenerateApi | gena/api_generator.py:25-97 | success gives handlers whose names all have deserializers and are not op fields, `name2field` as built, and the registered routes; a name left without deserializer fails; with full caller deserializers and a given serializer it succeeds iff no name is an op field |
| GenaApi.DeriveSerializer | gena/api_generator.py:81-89 | deriving the model serializer can fail only for a model with a dataclass column |
| GenaApi.GroupTerm | gena/api_generator.py:162-165 | a `group_by` name must be a known field; BadRequest otherwise |
| GenaApi.GroupLoop | gena/api_generator.py:160-165 | the loop computes the GROUP BY clause |
| GenaApi.InValues | gena/api_generator.py:192-197 | one result per comma-separated part of the value, in order, each the part deserialized by the field's deserializer |
| GenaApi.Condition | gena/api_generator.py:192-212 | `in` deserializes every comma-separated value; any other filter deserializes its value first, letting its exception escape, and only then refuses an unknown operator |
| GenaApi.Get | gena/api_generator.py:127-270 | the handler computes `GetQuery` |
| GenaApi.GetArguments | gena/api_generator.py:127-141 | `fields` are the requested names; `limit` defaults to 50 and `offset` to 0; `unique` only for "true" |
| GenaApi.PlainArguments | gena/api_generator.py:127-165 | the same for the handler's own arguments |
| GenaApi.GetFilterKeys | gena/api_generator.py:168-181 | every other argument is a known field with an optional `[op]` |
| GenaApi.GetFilters | gena/api_generator.py:183-266 | each filter became one condition or one `max` sub-query, and a `group_by` admits no `max`; on each model field the conditions are, in order, those its filters became; the sub-queries are those of the `max` filters, in order |
| GenaApi.WhereCounts | gena/api_generator.py:183-219 | the same for the WHERE phase, given whether the query groups |
| GenaApi.GetUnknownFilter | gena/api_generator.py:176-178 | an argument that is neither the handler's own nor a known field answers 400 |
| GenaApi.FindByIds | gena/api_generator.py:282-304 | a body without `ids` answers 400; an unknown `fields` name, or with `fields` a record without `id`, is a KeyError; without `fields` the records and their count; with `fields` a dict by distinct id whose total is its size |
| GenaApi.FindByIdsFound | gena/api_generator.py:297-304 | with `fields` the dict holds the id of every record found, each with the projection of the last record carrying that id |
| GenaApi.AssignedKeys | gena/api_generator.py:342-347 | the attributes set are exactly the names the body holds |
| GenaApi.AssignedValues | gena/api_generator.py:342-347 | each attribute is what the name's deserializer made of the body's value |
| GenaApi.AssignLoop | gena/api_generator.py:342-347 | the loop computes `Assigned` |
| GenaApi.AssignedFailed | gena/api_generator.py:344-347 | the first deserializer that raises stops the request |
| GenaApi.Table.constructor | gena/api_generator.py:97 | a table over the given records |
| GenaApi.Table.GetOne | gena/api_generator.py:309-325 | an unknown `fields` name is a KeyError; a missing id is NotFound; otherwise the serialized record, projected strictly onto `fields` |
| GenaApi.Table.Has | gena/api_generator.py:330-333 | succeeds iff the id exists; NotFound otherwise |
| GenaApi.Table.Create | gena/api_generator.py:338-353 | a failing deserializer leaves the table unchanged and is raised; otherwise exactly one new record, under the new key, whose fields are written by the deserialized body without `id`, a foreign key's `<name>` and `<name>_id` writing one field, the later name winning |
| GenaApi.Table.Update | gena/api_generator.py:358-378 | a missing id is NotFound, a missing body BadRequest, both leaving the table unchanged; otherwise the record with the body's fields written over it is saved under its current id, the body's `id` if it has one, and only that row changes |
| GenaApi.WrittenKeys | gena/api_generator.py:342-351 | the fields written are exactly those some name in the body leads to |
| GenaApi.WrittenLast | gena/api_generator.py:342-351 | a field holds the value of the last name that writes it |
| GenaApi.SavedKey | gena/api_generator.py:372-376 | `record.save()` writes the row of the record's current `id`: the body's `id` when it has one |
| GenaApi.Table.DeleteById | gena/api_generator.py:383-389 | succeeds iff the id exists, removing exactly that record; NotFound otherwise |
| GenaApi.Table.TruncateTable | gena/api_generator.py:394-396 | the table is empty |
| GenaReadonly.BatchSerialize | gena/api_generator.py:508-514 | one record per entity |
| GenaReadonly.BatchSerializeEach | gena/api_generator.py:511-512 | each entity is serialized on its own |
| GenaReadonly.BatchSerializeAppend | gena/api_generator.py:511-512 | serializing a concatenation serializes each part |
| GenaReadonly.SingleOfBatch | gena/api_generator.py:427-428 | `batch_serialize([x])[0]` is `serialize(x)` for the generated batch serializer |
| GenaReadonly.ArgKeys | gena/api_generator.py:443 | `request.args.keys()`, each key once in order |
| GenaReadonly.NonOpKeys | gena/api_generator.py:443-448 | the keys that are not op fields |
| GenaReadonly.NonOpKeysHas | gena/api_generator.py:443-448 | every key that is not an op field is among them |
| GenaReadonly.Selected | gena/api_generator.py:442-448 | succeeds iff every non-op key is a unique field, giving those keys; BadRequest otherwise |
| GenaReadonly.SelectLoop | gena/api_generator.py:442-448 | the loop computes `Selected` |
| GenaReadonly.SelectedFailed | gena/api_generator.py:446-447 | once a key is refused, the whole selection is |
| GenaReadonly.Get | gena/api_generator.py:435-461 | the handler computes `GetReply` |
| GenaReadonly.GetReply | gena/api_generator.py:450-461 | a reply is a single record with total 1 |
| GenaReadonly.GetOneKey | gena/api_generator.py:450-461 | `get` answers iff exactly one non-op key is given, it is a unique field and its id exists; the answer is that entity's record, with total 1 |
| GenaReadonly.GetTwoKeys | gena/api_generator.py:450-451 | two non-op keys answer 400 |
| GenaReadonly.Kept | gena/api_generator.py:475-478 | the kept ids are requested ids the dictionary has |
| GenaReadonly.KeptAppend | gena/api_generator.py:475-478 | the request order is kept |
| GenaReadonly.KeptCount | gena/api_generator.py:475-478 | each id is kept as often as requested if present, never otherwise |
| GenaReadonly.Entities | gena/api_generator.py:477 | one entity per kept id, its own |
| GenaReadonly.Gather | gena/api_generator.py:473-478 | an unhashable id raises TypeError; otherwise the kept ids and their entities |
| GenaReadonly.Zip | gena/api_generator.py:486 | `zip` pairs up to the shorter input |
| GenaReadonly.Shown | gena/api_generator.py:481-484 | with `fields`, exactly the requested keys the record has, with the record's values |
| GenaReadonly.FindByIds | gena/api_generator.py:464-486 | the handler computes `FindByIdsReply` |
| GenaReadonly.FindByIdsReply | gena/api_generator.py:464-486 | a body without `ids` answers 400 and every other failure is a TypeError; a reply holds distinct ids, at most its total |
| GenaReadonly.Answer | gena/api_generator.py:473-486 | distinct ids, no more than the kept requests, which are no more than the requested ids |
| GenaReadonly.FindByIdsFound | gena/api_generator.py:473-486 | the reply holds each requested id the dictionary has exactly once, with its own entity's record; the total counts every kept request |
| GenaReadonly.FindByIdsMissing | gena/api_generator.py:465-466 | a body without `ids` answers 400 |
| GenaReadonly.FindById | gena/api_generator.py:489-503 | succeeds iff the id exists; NotFound otherwise; the serialized record, or with `fields` exactly the requested keys it has, each with the serialized record's value |
| LegacyApi.FieldsByName | flask_peewee_restful/api_generator.py:17 | `name2field` holds exactly the model's field names |
| LegacyApi.FieldsByNameLast | flask_peewee_restful/api_generator.py:17 | a name leads to its last field |
| LegacyApi.NormByName | flask_peewee_restful/api_generator.py:19 | `norm_value` has the same names as `name2field` |
| LegacyApi.GenerateApi | flask_peewee_restful/api_generator.py:12-35 | succeeds iff no field name is an op field, otherwise AssertionError; success covers every field |
| LegacyApi.Condition | flask_peewee_restful/api_generator.py:83-102 | the value is normalized first, letting its exception escape; then only no operator, gt, gte, lt and lte are accepted, otherwise 400 |
| LegacyApi.Get | flask_peewee_restful/api_generator.py:44-149 | the handler computes `GetQuery` |
| LegacyApi.Reply | flask_peewee_restful/api_generator.py:140-161 | a request with `limit=1` reports total 1, any other the count; without `fields` the rows as they are; with `fields` every item has exactly those keys, each with the row's value, and a row lacking one is a KeyError |
| LegacyApi.GetArguments | flask_peewee_restful/api_generator.py:44-52 | `fields` are the requested names; `limit` defaults to 50 and `offset` to 0; `unique` only for "true"; no GROUP BY |
| LegacyApi.PlainArguments | flask_peewee_restful/api_generator.py:44-59 | the same for the handler's own arguments |
| LegacyApi.GetFilterKeys | flask_peewee_restful/api_generator.py:64-77 | every other argument is a known field with an optional `[op]` |
| LegacyApi.GetFilters | flask_peewee_restful/api_generator.py:79-135 | each filter became one condition or one `max` sub-query; on each model field the conditions are, in order, those its filters became; the sub-queries are those of the `max` filters, in order |
| LegacyApi.NoInOperator | flask_peewee_restful/api_generator.py:89-102 | there is no `in` operator: a normalizable `name[in]` filter answers 400 |
| LegacyApi.GetOne | flask_peewee_restful/api_generator.py:163-170 | succeeds iff the id exists, with the serialized record; NotFound otherwise |
| App.Home | gena/app_generator.py:34-41 | a file is sent only under the requested path |
| App.HomeSendsFile | gena/app_generator.py:36-41 | a file is sent iff the path has no `/`, has a `.` and ends with `.json`, `.ico` or `.png` |
| App.NestedPathRendersIndex | gena/app_generator.py:37 | a path inside a directory renders the index |
| App.UndottedPathRendersIndex | gena/app_generator.py:37 | a path without a dot renders the index |
| App.RootRendersIndex | gena/app_generator.py:34 | the root renders the index |
| App.ScriptRendersIndex | gena/app_generator.py:38-41 | `main.js` renders the index |
| App.IconIsSent | gena/app_generator.py:38-39 | `favicon.ico` is sent |

## Left out

- The SQL peewee builds and runs: `GET /<table>` is specified up to the `Query` value it builds (selected fields, DISTINCT, ORDER BY, GROUP BY, conditions, `max` sub-queries, LIMIT, OFFSET). The rows the database returns and the count it reports are inputs of `Query.Respond` / `LegacyApi.Reply`.
- The group-by join and the `max` sub-query's join predicate are not modelled beyond the names they group by.
- The `gfield in conditions` test (gena/api_generator.py:245-250, flask_peewee_restful/api_generator.py:120-123) compares a field name with a dict keyed by peewee field objects, so it never holds; the model's `max` sub-queries carry no group-field conditions.
- Flask, JSON encoding and HTTP: a handler's result is a `Result` whose failure names the HTTP error (BadRequest, NotFound) or the Python exception that escapes. The messages of exceptions are not modelled, including the `Field ... ` rewording of a ValueError in `create` and `update`.
- The JSON body is a list of dict entries; `request.get_json()` returning None is the `None` body of `GenaApi.Table.Update`.
- `Model.create` and `record.save()`: a created record's primary key is the parameter `newId`; column defaults are not applied.
- Floating point: floats are reals; `float(str)` accepts decimal text only, and `round(timestamp * 1000)` is an integer of milliseconds held by the datetime value.
- Each field's `db_value` (the legacy filter normalization) and `unique_field_funcs` (the read-only API) are parameters: the model does not know what they compute.
- The choice between a caller's `serialize`, the model's `to_dict`, `model_to_dict` and a derived serializer is not modelled: serializers are parameters of the handlers.
- GenaReadonly.FindByIds: a caller-supplied `batch_serialize` is taken to serialize element by element, as the generated one does.
- GenaApi.GenerateApi: does not state which exception a failure carries, because both the missing-deserializer check and the deriver can raise.
- GenaApi.DeriveSerializer: states only when the derivation can fail, because only its failure reaches the generated API.
- The logger warning for an unknown field class in `get_peewee_serializer`, and `GenaConfig` beyond the one foreign-key naming flag (`dbFieldNames`).
- gena/custom_fields.py, gena/client.py, gena/config.py, gena/api_testsuite.py and the blueprint discovery of gena/app_generator.py are not part of this model, nor are flask_peewee_restful/custom_fields.py, client.py and app_generator.py.
- `deserialize_number_or_string` and `deserialize_dict` are never used by the generators and are not modelled.
- Text.ParseInt: reads ASCII digits (with single `_` between digits, as Python allows) and ASCII whitespace; Python's `int` also accepts non-ASCII decimal digits and non-ASCII whitespace.
- Query.DispatchConds: the WHERE conditions are stated per model field (`On`), as the source groups them in `conditions[field]`; the order of the fields among themselves is that of their first filter group and is not stated further.
- GenaApi.Table.Update: peewee's `save()` on a record with no changed fields, and any save behaviour beyond writing the row whose key is the record's current `id`, are not modelled.
- Serializers.TypedDictClosureSpec: a TypedDict key that names an attribute of `dict` or of the class (`items`, `keys`, `values`, `get`, `copy`, `update`, `pop`, …) is found by `getattr` on the TypedDict class, so the source reads a method object there and serializes it instead of raising AttributeError; methods are not values of the model, which raises AttributeError for every key.
- GenaApi.FindByIds: the records that `query.where(Model.id.in_(ids))` returns are the input `found`, not computed from the body's `ids`, because the SQL peewee runs is not modelled (as for `GET /<table>`); the model states what the handler does with the records that come back.
- Deserializers.Defaults: a field's `default_factory` is modelled by one value it returns, the same on every call.
