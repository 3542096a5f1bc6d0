/**
 * What the generators read from a peewee model class: its qualified name, its
 * table name, its fields (`Model._meta.fields`, in declaration order) and the
 * class's type hints (`get_type_hints(Model)`).
 */
module Peewee {
  import opened Py
  import opened Text

  /** How a DataClassField stores its dataclass values. */
  datatype Shape =
    | Single        // DataClassField
    | ListOf        // ListDataClassField
    | DictOf        // DictDataClassField
    | DictOfLists   // Dict2ListDataClassField

  /** The field classes the generators distinguish, by `isinstance` / `type(...) is`. */
  datatype FieldKind =
    | IntegerField                            // IntegerField and subclasses (AutoField, ...)
    | FloatField
    | BooleanField
    | CharField                               // CharField and subclasses
    | TextField                               // exactly TextField
    | TextSubclassField                       // another string field, e.g. a JSON field over TextField
    | ForeignKeyField(columnType: string)     // `field.field_type` of the foreign key
    | DataClassField(shape: Shape, cls: string)
    | DateTimeField                           // DateTimeField or DateField
    | OtherField                              // any other peewee field class

  datatype ModelField = ModelField(name: string, kind: FieldKind, nullable: bool)

  datatype PeeweeModel = PeeweeModel(
    qualname: string,
    tableName: string,
    fields: seq<ModelField>,
    hints: map<string, TypeAnn>)

  /** `Model._meta.fields` is a dict: no two fields share a name. */
  predicate DistinctNames(fields: seq<ModelField>) {
    forall i, j | 0 <= i < j < |fields| :: fields[i].name != fields[j].name
  }

  /** `isinstance(field, _StringField)`. */
  predicate IsStringField(k: FieldKind) {
    k.CharField? || k.TextField? || k.TextSubclassField?
  }

  /** `field.field_type.upper() == "INT"`, letter by letter. */
  predicate IntColumn(col: string) {
    |col| == 3 && UpperChar(col[0]) == 'I' && UpperChar(col[1]) == 'N' && UpperChar(col[2]) == 'T'
  }

  lemma IntColumnUpper(col: string)
    ensures IntColumn(col) <==> Upper(col) == "INT"
  {
    if Upper(col) == "INT" {
      assert Upper(col)[0] == 'I' && Upper(col)[1] == 'N' && Upper(col)[2] == 'T';
    }
  }
}
