/**
 * The conversions lib/objectid_columns/extensions.rb adds: `#to_binary` and `#to_bson_id` on the
 * ObjectId classes, and `String#to_bson_id`, which accepts the hex and the binary forms.
 */
module Extensions {
  import opened Wrappers
  import opened HexPacking
  import opened Domain
  import opened ObjectidColumns

  /** `#to_binary`: `[to_s].pack("H*")`, the id's own twelve bytes. */
  function ToBinary(id: ObjectId): (b: seq<Byte>)
    ensures |b| == 12
    ensures b == id.bytes
  {
    PackUnpackHex(id.bytes);
    PackHex(id.ToS())
  }

  /**
   * The class-patching loop: each entry of the available list is `class_eval`ed in order, and a
   * nil entry raises NoMethodError. Yields the classes patched.
   */
  function PatchEach(list: seq<Option<BsonClass>>): (r: Result<seq<BsonClass>, Error>)
    ensures r.Ok? <==> None !in list
    ensures r.Ok? ==> |r.value| == |list| && forall i | 0 <= i < |list| :: list[i] == Some(r.value[i])
    ensures r.Err? ==> r.error == ClassEvalOnNil
  {
    if list == [] then Ok([])
    else match list[0]
      case None => Err(ClassEvalOnNil)
      case Some(k) =>
        match PatchEach(list[1..])
        case Err(e) => Err(e)
        case Ok(rest) => Ok([k] + rest)
  }

  /** Loading the file patches both classes, and fails unless both ObjectId libraries are loaded. */
  function LoadExtensions(loaded: set<BsonClass>): (r: Result<seq<BsonClass>, Error>)
    ensures r.Ok? ==> forall k | k in r.value :: k in loaded
    ensures r.Err? ==> r.error == ClassEvalOnNil
  {
    match AvailableObjectidColumnsBsonClasses(loaded)
    case Err(e) => Err(e)
    case Ok(available) => PatchEach(available)
  }

  lemma LoadExtensionsNeedsBothLibraries(loaded: set<BsonClass>)
    ensures LoadExtensions(loaded).Ok? <==> BothLoaded(loaded)
    ensures LoadExtensions(loaded).Ok? ==> LoadExtensions(loaded).value == ValidObjectidBsonClasses()
    ensures LoadExtensions(loaded).Err? ==> LoadExtensions(loaded).error.Raises() == NoMethodError
  {
    var available := AvailableObjectidColumnsBsonClasses(loaded).value;
    if BsonObjectId !in loaded {
      assert available[0] == None;
    } else if MopedObjectId !in loaded {
      assert available[1] == None;
    } else {
      assert available == [Some(BsonObjectId), Some(MopedObjectId)];
    }
  }

  /**
   * The classes the patching loop has `class_eval`ed when it stops: the entries ahead of the
   * first nil, in order.
   */
  function PatchedPrefix(list: seq<Option<BsonClass>>): (r: seq<BsonClass>)
    ensures |r| <= |list|
    ensures forall i | 0 <= i < |r| :: list[i] == Some(r[i])
    ensures |r| < |list| ==> list[|r|] == None
  {
    if list == [] then []
    else match list[0]
      case None => []
      case Some(k) => [k] + PatchedPrefix(list[1..])
  }

  /** When the loop runs to the end, the classes it yields are the patched prefix: the whole list. */
  lemma {:induction false} PatchEachIsPatchedPrefix(list: seq<Option<BsonClass>>)
    requires PatchEach(list).Ok?
    ensures PatchEach(list).value == PatchedPrefix(list)
  {
    if list != [] {
      PatchEachIsPatchedPrefix(list[1..]);
    }
  }

  /** An ObjectId class has `to_binary` and `to_bson_id` once the loop has patched it. */
  predicate ClassPatched(loaded: set<BsonClass>, k: BsonClass) {
    k in PatchedPrefix(AvailableObjectidColumnsBsonClasses(loaded).value)
  }

  /** `String#to_bson_id` exists only once the whole file has loaded, after the loop. */
  predicate StringPatched(loaded: set<BsonClass>) {
    LoadExtensions(loaded).Ok?
  }

  /**
   * Which classes end up patched: a loaded BSON::ObjectId always, Moped's class only when
   * BSON::ObjectId is loaded too (a missing BSON::ObjectId stops the loop first), and String only
   * when both are.
   */
  lemma PatchedClasses(loaded: set<BsonClass>)
    ensures ClassPatched(loaded, BsonObjectId) <==> BsonObjectId in loaded
    ensures ClassPatched(loaded, MopedObjectId) <==> BothLoaded(loaded)
    ensures StringPatched(loaded) <==> BothLoaded(loaded)
  {
    LoadExtensionsNeedsBothLibraries(loaded);
    var available := AvailableObjectidColumnsBsonClasses(loaded).value;
    if BsonObjectId !in loaded {
      assert available[0] == None;
      assert PatchedPrefix(available) == [];
    } else if MopedObjectId !in loaded {
      assert available == [Some(BsonObjectId), None];
      assert available[1..] == [None];
      assert PatchedPrefix(available) == [BsonObjectId];
    } else {
      assert available == [Some(BsonObjectId), Some(MopedObjectId)];
      assert available[1..] == [Some(MopedObjectId)];
      assert available[1..][1..] == [];
      assert PatchedPrefix(available) == [BsonObjectId, MopedObjectId];
    }
  }

  /**
   * `^[0-9a-f]{24}$` with the `i` flag matches the 24 hex digits starting at `i`: Ruby's `^` holds
   * at the start of the string and after a newline, `$` at its end and before a newline.
   */
  predicate HexIdLineAt(cs: seq<char>, i: int)
    requires 0 <= i && i + 24 <= |cs|
  {
    && IsHexString(cs[i..i + 24])
    && (i == 0 || cs[i - 1] == '\n')
    && (i + 24 == |cs| || cs[i + 24] == '\n')
  }

  /** `s =~ BSON_HEX_ID_REGEX`: some line of `s` is exactly 24 hex digits. */
  predicate MatchesHexIdRegex(cs: seq<char>) {
    exists i | 0 <= i && i + 24 <= |cs| :: HexIdLineAt(cs, i)
  }

  predicate SingleLine(cs: seq<char>) {
    forall i | 0 <= i < |cs| :: cs[i] != '\n'
  }

  /** On a single line the regex accepts exactly the strings of 24 hex digits. */
  lemma SingleLineHexIdRegex(cs: seq<char>)
    requires SingleLine(cs)
    ensures MatchesHexIdRegex(cs) <==> |cs| == 24 && IsHexString(cs)
  {
    if |cs| == 24 && IsHexString(cs) {
      assert cs[0..24] == cs;
      assert HexIdLineAt(cs, 0);
    }
    if MatchesHexIdRegex(cs) {
      var i :| 0 <= i && i + 24 <= |cs| && HexIdLineAt(cs, i);
      assert i == 0 && i + 24 == |cs|;
      assert cs[i..i + 24] == cs;
    }
  }

  /**
   * `String#to_bson_id`. The regex match comes first, and Ruby refuses to match the US-ASCII regex
   * against a string whose encoding is not ASCII-compatible (Encoding::CompatibilityError).
   * Otherwise a string matching the hex regex is handed unchanged to `construct_objectid`; a
   * 12-character BINARY string is handed over as its 24 lowercase hex digits; anything else raises
   * ArgumentError naming its length and encoding.
   */
  function StringToBsonId(s: RString, cls: BsonClass): (r: Result<ObjectId, Error>)
    ensures r.Ok? ==> r.value.cls == cls && s.AsciiCompatible()
    ensures !s.AsciiCompatible() ==> r == Err(IncompatibleEncodingMatch(s.EncodingName()))
    ensures s.AsciiCompatible() && !MatchesHexIdRegex(s.Chars()) && !(s.BinaryString? && |s.bytes| == 12)
      ==> r == Err(NotABsonId(s, s.Length(), s.EncodingName()))
  {
    if !s.AsciiCompatible() then Err(IncompatibleEncodingMatch(s.EncodingName()))
    else if MatchesHexIdRegex(s.Chars()) then ConstructObjectid(cls, s.Chars())
    else if s.Length() == 12 && s.BinaryString? then ConstructObjectid(cls, UnpackHex(s.bytes))
    else Err(NotABsonId(s, s.Length(), s.EncodingName()))
  }

  /**
   * `respond_to?(:to_bson_id)`: Strings and the ObjectId classes, once they have been patched.
   * That is a String or a Moped id only when both libraries are loaded, and a BSON::ObjectId
   * whenever its library is.
   */
  predicate RespondsToBsonId(v: Value, loaded: set<BsonClass>)
    ensures RespondsToBsonId(v, loaded) <==>
      || (v.Str? && BothLoaded(loaded))
      || (v.Oid? && v.id.cls in loaded && (v.id.cls == BsonObjectId || BothLoaded(loaded)))
  {
    PatchedClasses(loaded);
    assert v.Oid? ==> v.id.cls == BsonObjectId || v.id.cls == MopedObjectId;
    || (v.Str? && StringPatched(loaded))
    || (v.Oid? && ClassPatched(loaded, v.id.cls))
  }

  /**
   * `#to_bson_id` on any value that has it: an ObjectId returns itself, a String converts through
   * the preferred class.
   */
  function ToBsonId(v: Value, env: Env): (r: Result<ObjectId, Error>)
    requires RespondsToBsonId(v, env.loaded)
    ensures v.Oid? ==> r == Ok(v.id)
    ensures v.Str? ==> r == StringToBsonId(v.s, env.preferred)
  {
    match v
    case Str(s) => StringToBsonId(s, env.preferred)
    case Oid(id) => Ok(id)
  }

  /**
   * For single-line input `to_bson_id` accepts exactly two shapes: 24 hex digits in either case
   * in an ASCII-compatible encoding, and 12 bytes in BINARY encoding. Every other string raises,
   * with Encoding::CompatibilityError when its encoding is not ASCII-compatible.
   */
  lemma StringToBsonIdAcceptedShapes(s: RString, cls: BsonClass)
    requires SingleLine(s.Chars())
    ensures StringToBsonId(s, cls).Ok?
      <==> s.AsciiCompatible()
           && ((s.Length() == 24 && IsHexString(s.Chars())) || (s.BinaryString? && |s.bytes| == 12))
    ensures StringToBsonId(s, cls).Err? && s.AsciiCompatible()
      ==> StringToBsonId(s, cls).error == NotABsonId(s, s.Length(), s.EncodingName())
    ensures !s.AsciiCompatible() ==> StringToBsonId(s, cls) == Err(IncompatibleEncodingMatch(s.EncodingName()))
  {
    SingleLineHexIdRegex(s.Chars());
  }

  /** A lowercase 24-hex-digit string comes back from `to_s` unchanged; upper case comes back lowered. */
  lemma HexStringRoundTrip(s: RString, cls: BsonClass)
    requires s.AsciiCompatible() && s.Length() == 24 && IsHexString(s.Chars())
    ensures StringToBsonId(s, cls).Ok?
    ensures StringToBsonId(s, cls).value.ToS() == DowncaseHex(s.Chars())
    ensures IsLowerHexString(s.Chars()) ==> StringToBsonId(s, cls).value.ToS() == s.Chars()
  {
    assert s.Chars()[0..24] == s.Chars();
    assert HexIdLineAt(s.Chars(), 0);
    if IsLowerHexString(s.Chars()) {
      assert DowncaseHex(s.Chars()) == s.Chars();
    }
  }

  /** A 12-byte BINARY string converts to the id with exactly those bytes, so `to_binary` gives it back. */
  lemma BinaryStringRoundTrip(bytes: seq<Byte>, cls: BsonClass)
    requires |bytes| == 12
    ensures StringToBsonId(BinaryString(bytes), cls).Ok?
    ensures StringToBsonId(BinaryString(bytes), cls).value.bytes == bytes
    ensures ToBinary(StringToBsonId(BinaryString(bytes), cls).value) == bytes
  {
    var s := BinaryString(bytes);
    assert !MatchesHexIdRegex(s.Chars());
    var hex := UnpackHex(bytes);
    PackUnpackHex(bytes);
    assert StringToBsonId(s, cls) == Ok(ObjectId(cls, PackHex(hex)));
  }

  /**
   * Rendering an id as text in an ASCII-compatible encoding and converting back gives an id with
   * the same bytes.
   */
  lemma ToSRoundTrip(id: ObjectId, encoding: TextEncoding, cls: BsonClass)
    requires encoding.AsciiCompatible()
    ensures StringToBsonId(TextString(id.ToS(), encoding), cls) == Ok(ObjectId(cls, id.bytes))
  {
    var s := TextString(id.ToS(), encoding);
    HexStringRoundTrip(s, cls);
    var r := StringToBsonId(s, cls).value;
    assert DowncaseHex(id.ToS()) == id.ToS();
    PackUnpackHex(r.bytes);
    PackUnpackHex(id.bytes);
  }
}
