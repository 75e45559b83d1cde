/**
 * `ObjectidColumn` (lib/objectid_columns/objectid_column.rb): one declared ObjectId column. Its
 * constructor validates the schema column's type and limit; `query_value_for` renders a value in
 * the column's storage form; `install_methods!` generates the column's getter and setter.
 * The manager reference the constructor stores is never read by any of these and is not modelled.
 */
module Column {
  import opened Wrappers
  import opened HexPacking
  import opened Domain
  import opened ObjectidColumns
  import opened Extensions
  import opened DynamicMethods

  /** A column that passed the constructor's checks; `column_name` and `type` read through to it. */
  datatype ObjectidColumn = ObjectidColumn(columnObject: ColumnObject) {
    function ColumnName(): string {
      columnObject.name
    }

    function Type(): ColumnType {
      columnObject.sqlType
    }
  }

  /** The least limit a column needs to hold an ObjectId: 12 bytes binary, 24 characters string. */
  function MinLimit(t: ColumnType): Option<nat> {
    match t
    case BinaryType => Some(12)
    case StringType => Some(24)
    case OtherType(_) => None
  }

  /** The column record passes the constructor's checks. */
  predicate Acceptable(col: ColumnObject) {
    || (col.sqlType == BinaryType && col.limit.Some? && col.limit.value >= 12)
    || (col.sqlType == StringType && col.limit.Some? && col.limit.value >= 24)
  }

  /**
   * `ObjectidColumn.new(manager, column_object)`: the type must be `:binary` or `:string`, else
   * ArgumentError; then `limit >= min_limit`, which raises NoMethodError on a nil limit and
   * ArgumentError on a smaller one.
   */
  function NewObjectidColumn(col: ColumnObject): (r: Result<ObjectidColumn, Error>)
    ensures r.Ok? <==> Acceptable(col)
    ensures r.Ok? ==> r.value.columnObject == col
    ensures MinLimit(col.sqlType).None? ==> r == Err(UnsupportedColumnType(col))
    ensures MinLimit(col.sqlType).Some? && col.limit.None? ==> r == Err(NilLimit(col))
    ensures MinLimit(col.sqlType).Some? && col.limit.Some? && col.limit.value < MinLimit(col.sqlType).value
      ==> r == Err(ColumnTooShort(col, col.limit.value, MinLimit(col.sqlType).value))
    ensures r.Err? ==> r.error.Raises() in {ArgumentError, NoMethodError}
  {
    match MinLimit(col.sqlType)
    case None => Err(UnsupportedColumnType(col))
    case Some(minLimit) =>
      match col.limit
      case None => Err(NilLimit(col))
      case Some(limit) =>
        if limit >= minLimit then Ok(ObjectidColumn(col)) else Err(ColumnTooShort(col, limit, minLimit))
  }

  /** An id rendered for storage: `to_binary` for a binary column, `to_s` for a string column. */
  function Render(id: ObjectId, t: ColumnType): (r: Result<Value, Error>)
    ensures t == BinaryType ==> r == Ok(Str(BinaryString(id.bytes)))
    ensures t == StringType ==> r == Ok(Str(TextString(id.ToS(), UsAscii)))
    ensures t.OtherType? ==> r.Err?
  {
    match t
    case BinaryType => Ok(Str(BinaryString(ToBinary(id))))
    case StringType => Ok(Str(TextString(id.ToS(), UsAscii)))
    case OtherType(_) => Err(NoQueryValueSupport(t))
  }

  /**
   * `query_value_for(value)`: nil and false pass through; a value with `to_bson_id` is converted
   * and rendered in the column's storage form; anything else raises ArgumentError.
   */
  function QueryValueFor(c: ObjectidColumn, value: Value, env: Env): (r: Result<Value, Error>)
    ensures !value.Truthy() ==> r == Ok(value)
    ensures value.Truthy() && !RespondsToBsonId(value, env.loaded)
      ==> r == Err(NotConvertibleForQuery(c.ColumnName(), value))
    ensures RespondsToBsonId(value, env.loaded) && ToBsonId(value, env).Err?
      ==> r == Err(ToBsonId(value, env).error)
    ensures RespondsToBsonId(value, env.loaded) && ToBsonId(value, env).Ok? ==>
      var id := ToBsonId(value, env).value;
      && (c.Type() == BinaryType ==> r == Ok(Str(BinaryString(id.bytes))))
      && (c.Type() == StringType ==> r == Ok(Str(TextString(id.ToS(), UsAscii))))
      && (c.Type().OtherType? ==> r == Err(NoQueryValueSupport(c.Type())))
  {
    if !value.Truthy() then Ok(value)
    else if RespondsToBsonId(value, env.loaded) then
      match ToBsonId(value, env)
      case Err(e) => Err(e)
      case Ok(bsonId) => Render(bsonId, c.Type())
    else Err(NotConvertibleForQuery(c.ColumnName(), value))
  }

  /** Querying a binary column with a 12-byte BINARY string yields that very string. */
  lemma QueryValueForBinaryIsIdentity(c: ObjectidColumn, bytes: seq<Byte>, env: Env)
    requires BothLoaded(env.loaded)
    requires c.Type() == BinaryType && |bytes| == 12
    ensures QueryValueFor(c, Str(BinaryString(bytes)), env) == Ok(Str(BinaryString(bytes)))
  {
    PatchedClasses(env.loaded);
    BinaryStringRoundTrip(bytes, env.preferred);
  }

  /** Querying a string column with 24 hex digits yields them in lower case. */
  lemma QueryValueForHexIsLowercased(c: ObjectidColumn, s: RString, env: Env)
    requires BothLoaded(env.loaded)
    requires c.Type() == StringType && s.AsciiCompatible() && s.Length() == 24 && IsHexString(s.Chars())
    ensures QueryValueFor(c, Str(s), env) == Ok(Str(TextString(DowncaseHex(s.Chars()), UsAscii)))
  {
    PatchedClasses(env.loaded);
    HexStringRoundTrip(s, env.preferred);
  }

  /** The getter's name is the column's name; the setter's adds `=`. */
  function SetterName(columnName: string): string {
    columnName + "="
  }

  /**
   * `install_methods!(dynamic_methods_module)`: defines the getter `name` and the setter `name=`,
   * each closed over the column's name and type.
   */
  method InstallMethods(c: ObjectidColumn, dmm: DynamicMethodsModule)
    modifies dmm
    ensures dmm.methods == old(dmm.methods)
      [c.ColumnName() := Method(ReadColumn(c.ColumnName(), c.Type()), Public)]
      [SetterName(c.ColumnName()) := Method(WriteColumn(c.ColumnName(), c.Type()), Public)]
    ensures dmm.methodsDefined == old(dmm.methodsDefined) + {c.ColumnName(), SetterName(c.ColumnName())}
    ensures dmm.classMethodsDefined == old(dmm.classMethodsDefined)
  {
    var t := c.Type();
    var cn := c.ColumnName();
    dmm.DefineMethod(cn, ReadColumn(cn, t));
    dmm.DefineMethod(SetterName(cn), WriteColumn(cn, t));
  }
}
