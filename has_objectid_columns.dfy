/**
 * The instance side of `HasObjectidColumns` (lib/objectid_columns/has_objectid_columns.rb): reading
 * an ObjectId column converts the stored value to an ObjectId; writing one stores the value's
 * binary or hex form. A record's attributes are a map from column name to value.
 */
module HasObjectidColumns {
  import opened Wrappers
  import opened HexPacking
  import opened Domain
  import opened ObjectidColumns
  import opened Extensions

  /** `self[column_name]`: the stored value, nil for an attribute that is not there. */
  function StoredValue(attributes: map<string, Value>, columnName: string): Value {
    if columnName in attributes then attributes[columnName] else Nil
  }

  /**
   * `read_objectid_column(column_name, type)`: nil and false come back unchanged; a stored value
   * with `to_bson_id` is converted (strings through the preferred class); anything else raises.
   * The `type` argument is not used.
   */
  function ReadObjectidColumn(attributes: map<string, Value>, columnName: string, sqlType: ColumnType, env: Env)
    : (r: Result<Value, Error>)
    ensures var stored := StoredValue(attributes, columnName);
      && (!stored.Truthy() ==> r == Ok(stored))
      && (stored.Oid? && ClassPatched(env.loaded, stored.id.cls) ==> r == Ok(stored))
      && (stored.Str? && StringPatched(env.loaded) ==>
            r == (match StringToBsonId(stored.s, env.preferred) case Ok(id) => Ok(Oid(id)) case Err(e) => Err(e)))
      && (stored.Truthy() && !RespondsToBsonId(stored, env.loaded) ==> r == Err(CorruptStoredValue(columnName, stored)))
  {
    var value := StoredValue(attributes, columnName);
    if !value.Truthy() then Ok(value)
    else if RespondsToBsonId(value, env.loaded) then
      match ToBsonId(value, env)
      case Ok(id) => Ok(Oid(id))
      case Err(e) => Err(e)
    else Err(CorruptStoredValue(columnName, value))
  }

  /**
   * The value `write_objectid_column(column_name, new_value, type)` assigns, or the exception it
   * raises before assigning anything: nil and false are stored as they are; otherwise the value
   * must have `to_bson_id`, and the column type decides between `to_binary` and `to_s`. The id
   * `to_bson_id` gives always passes `is_valid_bson_object?`: its class has been patched, so it is
   * loaded and comes before any nil entry.
   */
  function WriteValue(columnName: string, newValue: Value, sqlType: ColumnType, env: Env): (r: Result<Value, Error>)
    ensures !newValue.Truthy() ==> r == Ok(newValue)
    ensures newValue.Truthy() && !RespondsToBsonId(newValue, env.loaded)
      ==> r == Err(NotConvertibleForWrite(columnName, newValue))
    ensures newValue.Truthy() && RespondsToBsonId(newValue, env.loaded) && ToBsonId(newValue, env).Err?
      ==> r == Err(ToBsonId(newValue, env).error)
    ensures newValue.Truthy() && RespondsToBsonId(newValue, env.loaded) && ToBsonId(newValue, env).Ok? ==>
      var id := ToBsonId(newValue, env).value;
      && IsValidBsonObject(env.loaded, Oid(id)) == Ok(Some(id.cls))
      && (sqlType == BinaryType ==> r == Ok(Str(BinaryString(id.bytes))))
      && (sqlType == StringType ==> r == Ok(Str(TextString(id.ToS(), UsAscii))))
      && (sqlType.OtherType? ==> r == Err(InvalidType(sqlType)))
    ensures newValue.Truthy() && r.Ok? ==> r.value.Str? && sqlType in {BinaryType, StringType}
  {
    if !newValue.Truthy() then Ok(newValue)
    else if RespondsToBsonId(newValue, env.loaded) then
      match ToBsonId(newValue, env)
      case Err(e) => Err(e)
      case Ok(writeValue) =>
        match IsValidBsonObject(env.loaded, Oid(writeValue))
        case Err(e) => Err(e)
        case Ok(None) => Err(NotABsonObject(newValue, writeValue))
        case Ok(Some(_)) =>
          match sqlType
          case BinaryType => Ok(Str(BinaryString(ToBinary(writeValue))))
          case StringType => Ok(Str(TextString(writeValue.ToS(), UsAscii)))
          case OtherType(_) => Err(InvalidType(sqlType))
    else Err(NotConvertibleForWrite(columnName, newValue))
  }

  /** The id a value converts to, when it converts. */
  predicate ConvertsTo(v: Value, env: Env, id: ObjectId) {
    RespondsToBsonId(v, env.loaded) && ToBsonId(v, env) == Ok(id)
  }

  /**
   * With both libraries loaded, a value that converts to `id` is stored as `id`'s twelve bytes in
   * a binary column and as its 24 lowercase hex digits in a string column; any other column type
   * raises ArgumentError.
   */
  lemma WriteStoredForm(columnName: string, newValue: Value, sqlType: ColumnType, env: Env, id: ObjectId)
    requires BothLoaded(env.loaded)
    requires ConvertsTo(newValue, env, id)
    ensures sqlType == BinaryType ==> WriteValue(columnName, newValue, sqlType, env) == Ok(Str(BinaryString(id.bytes)))
    ensures sqlType == StringType ==> WriteValue(columnName, newValue, sqlType, env) == Ok(Str(TextString(id.ToS(), UsAscii)))
    ensures sqlType.OtherType? ==> WriteValue(columnName, newValue, sqlType, env) == Err(InvalidType(sqlType))
    ensures sqlType.OtherType? ==> WriteValue(columnName, newValue, sqlType, env).error.Raises() == ArgumentError
  {
    BothLoadedIsEverything(env.loaded);
    IsValidBsonObjectWithBothLoaded(Oid(id));
    assert IsValidBsonObject(env.loaded, Oid(id)).Ok? && IsValidBsonObject(env.loaded, Oid(id)).value.Some?;
    if sqlType.OtherType? {
      InvalidTypeRaises(sqlType);
    }
  }

  lemma InvalidTypeRaises(sqlType: ColumnType)
    ensures InvalidType(sqlType).Raises() == ArgumentError
  {
  }

  /**
   * Writing a convertible value to a binary or string column and reading it back yields an
   * ObjectId with the same twelve bytes (so the same hex), built by the preferred class.
   */
  lemma WriteThenRead(attributes: map<string, Value>, columnName: string, newValue: Value,
                      sqlType: ColumnType, env: Env, id: ObjectId)
    requires BothLoaded(env.loaded) && sqlType in {BinaryType, StringType}
    requires ConvertsTo(newValue, env, id)
    ensures WriteValue(columnName, newValue, sqlType, env).Ok?
    ensures ReadObjectidColumn(attributes[columnName := WriteValue(columnName, newValue, sqlType, env).value],
                               columnName, sqlType, env)
      == Ok(Oid(ObjectId(env.preferred, id.bytes)))
  {
    WriteStoredForm(columnName, newValue, sqlType, env, id);
    PatchedClasses(env.loaded);
    if sqlType == BinaryType {
      var stored := Str(BinaryString(id.bytes));
      BinaryStringRoundTrip(id.bytes, env.preferred);
      assert StoredValue(attributes[columnName := stored], columnName) == stored;
    } else {
      var stored := Str(TextString(id.ToS(), UsAscii));
      ToSRoundTrip(id, UsAscii, env.preferred);
      assert StoredValue(attributes[columnName := stored], columnName) == stored;
    }
  }

  lemma BothLoadedIsEverything(loaded: set<BsonClass>)
    requires BothLoaded(loaded)
    ensures loaded == {BsonObjectId, MopedObjectId}
  {
    forall c: BsonClass ensures c in loaded <==> c in {BsonObjectId, MopedObjectId} {
      match c
      case BsonObjectId =>
      case MopedObjectId =>
    }
  }

  /**
   * With a library missing, String never gets `to_bson_id`, so writing any string raises the
   * ArgumentError for an unconvertible value. Only a BSON::ObjectId, when that library is the one
   * loaded, still has `to_bson_id`, and it passes `is_valid_bson_object?` and is stored.
   */
  lemma WriteWithMissingLibrary(columnName: string, newValue: Value, sqlType: ColumnType, env: Env)
    requires !BothLoaded(env.loaded)
    ensures newValue.Str? ==> WriteValue(columnName, newValue, sqlType, env) == Err(NotConvertibleForWrite(columnName, newValue))
    ensures newValue.Oid? && !(BsonObjectId in env.loaded && newValue.id.cls == BsonObjectId)
      ==> WriteValue(columnName, newValue, sqlType, env) == Err(NotConvertibleForWrite(columnName, newValue))
    ensures newValue.Oid? && BsonObjectId in env.loaded && newValue.id.cls == BsonObjectId && sqlType == BinaryType
      ==> WriteValue(columnName, newValue, sqlType, env) == Ok(Str(BinaryString(newValue.id.bytes)))
    ensures newValue.Oid? && BsonObjectId in env.loaded && newValue.id.cls == BsonObjectId && sqlType == StringType
      ==> WriteValue(columnName, newValue, sqlType, env) == Ok(Str(TextString(newValue.id.ToS(), UsAscii)))
  {
    PatchedClasses(env.loaded);
    IsValidBsonObjectWithMissingLibrary(env.loaded, newValue);
  }

  /**
   * An empty string, text or BINARY, is truthy, so reading one converts it, and the conversion
   * raises.
   */
  lemma ReadEmptyStringRaises(attributes: map<string, Value>, columnName: string, sqlType: ColumnType,
                              env: Env, s: RString)
    requires StoredValue(attributes, columnName) == Str(s) && s.Length() == 0
    ensures ReadObjectidColumn(attributes, columnName, sqlType, env).Err?
    ensures BothLoaded(env.loaded) && s.AsciiCompatible()
      ==> ReadObjectidColumn(attributes, columnName, sqlType, env).error.Raises() == ArgumentError
  {
    PatchedClasses(env.loaded);
  }

  /** A record whose attributes `write_objectid_column` assigns in place. */
  class Record {
    var attributes: map<string, Value>

    constructor (attributes: map<string, Value>)
      ensures this.attributes == attributes
    {
      this.attributes := attributes;
    }

    /**
     * `write_objectid_column`: every check happens before the assignment, so a raised error
     * leaves the record unchanged; a successful write changes the named attribute only.
     */
    method WriteObjectidColumn(columnName: string, newValue: Value, sqlType: ColumnType, env: Env)
      returns (r: Outcome<Error>)
      modifies this
      ensures var w := WriteValue(columnName, newValue, sqlType, env);
        && (w.Err? ==> r == Fail(w.error) && attributes == old(attributes))
        && (w.Ok? ==> r == Pass && attributes == old(attributes)[columnName := w.value])
      ensures forall k | k != columnName ::
        (k in attributes <==> k in old(attributes)) && (k in attributes ==> attributes[k] == old(attributes)[k])
    {
      var w := WriteValue(columnName, newValue, sqlType, env);
      if w.Err? {
        return Fail(w.error);
      }
      attributes := attributes[columnName := w.value];
      r := Pass;
    }
  }
}
