/** Stored values and the rows that filters judge. */
module Values {
  import opened Outcomes

  /** A configuration or column value, as JSON holds it. */
  datatype Value =
    | Null
    | Bool(b: bool)
    | Int(n: int)
    | Str(s: string)
    | List(items: seq<Value>)
    | Dict(entries: map<string, Value>)

  datatype PyType = BoolType | IntType | StrType | ListType | DictType

  type Params = map<string, Value>

  /** `isinstance(v, t)`; a boolean is an integer there. */
  predicate IsInstance(v: Value, t: PyType) {
    match t
    case BoolType => v.Bool?
    case IntType => v.Int? || v.Bool?
    case StrType => v.Str?
    case ListType => v.List?
    case DictType => v.Dict?
  }

  type Columns = map<string, Value>

  /** A stored row with the rows a to-many relation joins to it. */
  datatype Row = Row(pk: int, columns: Columns, related: seq<Columns>)

  /** One table per model, and what the database reads a piece of data as when it is compared with that model's
      primary key: a numeric string, say, as the number; nothing if it refuses the comparison. */
  datatype World = World(tables: map<string, seq<Row>>, keyOf: (string, Value) -> Option<int>)

  ghost predicate DistinctPks(table: seq<Row>) {
    forall i, j | 0 <= i < j < |table| :: table[i].pk != table[j].pk
  }
}
