/**
 * The values the library moves around: Ruby strings (BINARY or text), ObjectIds of the two
 * supported ObjectId classes, attribute values, schema column records and the exceptions raised.
 */
module Domain {
  import opened Wrappers
  import opened HexPacking

  /** The twelve bytes of an ObjectId. */
  type IdBytes = s: seq<Byte> | |s| == 12 witness [0, 0, 0, 0, 0, 0, 0, 0, 0, 0, 0, 0]

  /** The ObjectId classes the library knows about: `BSON::ObjectId` and `Moped::BSON::ObjectId`. */
  datatype BsonClass = BsonObjectId | MopedObjectId {
    function Name(): string {
      match this
      case BsonObjectId => "BSON::ObjectId"
      case MopedObjectId => "Moped::BSON::ObjectId"
    }
  }

  /** An ObjectId object: its class and its twelve bytes. */
  datatype ObjectId = ObjectId(cls: BsonClass, bytes: IdBytes) {
    /** `#to_s`: 24 lowercase hex digits (defined by the ObjectId library itself). */
    function ToS(): (hex: seq<char>)
      ensures |hex| == 24 && IsLowerHexString(hex)
    {
      UnpackHex(bytes)
    }
  }

  /**
   * The encodings a non-BINARY Ruby string may carry. An encoding is ASCII-compatible when the
   * ASCII characters are the single bytes 0-127 in it; UTF-16 and UTF-32 are not.
   */
  datatype TextEncoding = UsAscii | Utf8 | Iso8859_1 | OtherTextEncoding(name: string, asciiCompatible: bool)
  {
    predicate AsciiCompatible() {
      !OtherTextEncoding? || asciiCompatible
    }
  }

  /**
   * A Ruby string. A string in BINARY (ASCII-8BIT) encoding is a sequence of bytes; any other
   * string is a sequence of characters in its encoding.
   */
  datatype RString =
    | BinaryString(bytes: seq<Byte>)
    | TextString(chars: seq<char>, encoding: TextEncoding)
  {
    /** `#length`: bytes for a BINARY string, characters otherwise. */
    function Length(): nat {
      if BinaryString? then |bytes| else |chars|
    }

    /** The characters a regular expression sees: a BINARY string's bytes read as characters. */
    function Chars(): (cs: seq<char>)
      ensures |cs| == Length()
    {
      if BinaryString? then seq(|bytes|, i requires 0 <= i < |bytes| => bytes[i] as char) else chars
    }

    /** The name `#encoding` reports. */
    function EncodingName(): string {
      match this
      case BinaryString(_) => "ASCII-8BIT"
      case TextString(_, UsAscii) => "US-ASCII"
      case TextString(_, Utf8) => "UTF-8"
      case TextString(_, Iso8859_1) => "ISO-8859-1"
      case TextString(_, OtherTextEncoding(name, _)) => name
    }

    /** BINARY is ASCII-compatible; a text string is when its encoding is. */
    predicate AsciiCompatible() {
      BinaryString? || encoding.AsciiCompatible()
    }
  }

  /** A value held in a record attribute or passed to an accessor. */
  datatype Value =
    | Nil
    | False
    | Str(s: RString)
    | Oid(id: ObjectId)
    | Other(inspect: string)  // any other Ruby object: an Integer, `true`, a Hash, ...
  {
    /** Ruby truthiness: everything but `nil` and `false`. */
    predicate Truthy() {
      !Nil? && !False?
    }
  }

  /** A column's `type` as the schema reports it (`:binary`, `:string`, or anything else). */
  datatype ColumnType = BinaryType | StringType | OtherType(name: string)

  /** A schema column record: `name`, `type` and `limit` (nil when the schema reports none). */
  datatype ColumnObject = ColumnObject(name: string, sqlType: ColumnType, limit: Option<int>)

  /**
   * The loaded ObjectId libraries (which of the two classes `defined?` finds) and the class
   * `construct_objectid` instantiates (chosen through `preferred_bson_class=`, which is not part
   * of this model).
   */
  datatype Env = Env(loaded: set<BsonClass>, preferred: BsonClass)

  /** The Ruby exception classes raised by the library and by the Ruby core calls it makes. */
  datatype ExceptionClass =
    | ArgumentError
    | RuntimeError
    | NameError
    | NoMethodError
    | TypeError
    | InvalidObjectIdError  // raised by the ObjectId library's own parser
    | EncodingCompatibilityError  // Encoding::CompatibilityError

  /** Every exception the model raises, with what its message names. */
  datatype Error =
    | NotABsonId(str: RString, length: nat, encodingName: string)
    | IncompatibleEncodingMatch(encodingName: string)
    | ObjectIdParseFailure(hex: seq<char>)
    | NoObjectIdLibrary
    | KindOfNil
    | ClassEvalOnNil
    | UnsupportedColumnType(column: ColumnObject)
    | NilLimit(column: ColumnObject)
    | ColumnTooShort(column: ColumnObject, limit: int, minLimit: nat)
    | NoQueryValueSupport(sqlType: ColumnType)
    | NotConvertibleForQuery(columnName: string, value: Value)
    | CorruptStoredValue(columnName: string, value: Value)
    | NotABsonObject(value: Value, converted: ObjectId)
    | InvalidType(sqlType: ColumnType)
    | NotConvertibleForWrite(columnName: string, value: Value)
    | NotAClass(inspect: string)
    | NotAnActiveRecordClass(className: string)
    | InvalidModuleName(inspect: string)
    | WrongConstantName(name: string)
    | ConstantAlreadyDefined(name: string)
    | MissingColumns(names: seq<string>)
    | WrongNumberOfArguments(given: nat, expected: nat)
    | UndefinedMethod(name: string)
    | UndefinedMethodForVisibility(name: string)
  {
    /** The class of the exception Ruby raises. */
    function Raises(): ExceptionClass {
      match this
      case NotABsonId(_, _, _) => ArgumentError
      case IncompatibleEncodingMatch(_) => EncodingCompatibilityError
      case ObjectIdParseFailure(_) => InvalidObjectIdError
      case NoObjectIdLibrary => RuntimeError
      case KindOfNil => TypeError
      case ClassEvalOnNil => NoMethodError
      case UnsupportedColumnType(_) => ArgumentError
      case NilLimit(_) => NoMethodError
      case ColumnTooShort(_, _, _) => ArgumentError
      case NoQueryValueSupport(_) => RuntimeError
      case NotConvertibleForQuery(_, _) => ArgumentError
      case CorruptStoredValue(_, _) => RuntimeError
      case NotABsonObject(_, _) => RuntimeError
      case InvalidType(_) => ArgumentError
      case NotConvertibleForWrite(_, _) => ArgumentError
      case NotAClass(_) => ArgumentError
      case NotAnActiveRecordClass(_) => ArgumentError
      case InvalidModuleName(_) => ArgumentError
      case WrongConstantName(_) => NameError
      case ConstantAlreadyDefined(_) => NameError
      case MissingColumns(_) => ArgumentError
      case WrongNumberOfArguments(_, _) => ArgumentError
      case UndefinedMethod(_) => NoMethodError
      case UndefinedMethodForVisibility(_) => NameError
    }
  }
}
