/**
 * `ObjectidColumns` itself (lib/objectid_columns.rb): which ObjectId classes are available, which
 * one is preferred, and whether a value is an ObjectId object. `construct_objectid`, which the
 * library calls but which is defined by neither of its ObjectId libraries' shown code, is the
 * ObjectId library's parser, modelled as `ConstructObjectid`.
 */
module ObjectidColumns {
  import opened Wrappers
  import opened HexPacking
  import opened Domain

  /**
   * `valid_objectid_bson_class_names`: the candidates, in the order they are examined; every
   * ObjectId class is among them, once, and BSON::ObjectId comes first.
   */
  function ValidObjectidBsonClasses(): (r: seq<BsonClass>)
    ensures |r| == 2 && r[0] == BsonObjectId && r[0] != r[1]
    ensures BsonObjectId in r && MopedObjectId in r
  {
    [BsonObjectId, MopedObjectId]
  }

  /** `names.map { |name| eval("if defined?(name) then name end") }`: nil for each undefined class. */
  function DefinedOrNil(candidates: seq<BsonClass>, loaded: set<BsonClass>): (r: seq<Option<BsonClass>>)
    ensures |r| == |candidates|
    ensures forall i | 0 <= i < |r| ::
      r[i] == if candidates[i] in loaded then Some(candidates[i]) else None
  {
    if candidates == [] then []
    else
      var entry := if candidates[0] in loaded then Some(candidates[0]) else None;
      [entry] + DefinedOrNil(candidates[1..], loaded)
  }

  /**
   * `available_objectid_columns_bson_classes`: one entry per candidate, nil where the class is not
   * defined. The "no ObjectId library" error fires only on an empty list, which never happens.
   */
  function AvailableObjectidColumnsBsonClasses(loaded: set<BsonClass>): (r: Result<seq<Option<BsonClass>>, Error>)
    ensures r.Ok?
    ensures |r.value| == |ValidObjectidBsonClasses()|
    ensures forall i | 0 <= i < |r.value| ::
      (r.value[i].Some? <==> ValidObjectidBsonClasses()[i] in loaded)
      && (r.value[i].Some? ==> r.value[i].value == ValidObjectidBsonClasses()[i])
  {
    var definedClasses := DefinedOrNil(ValidObjectidBsonClasses(), loaded);
    if |definedClasses| == 0 then Err(NoObjectIdLibrary) else Ok(definedClasses)
  }

  /** `preferred_bson_class`: the first entry, so BSON::ObjectId when defined and nil otherwise. */
  function PreferredBsonClass(loaded: set<BsonClass>): (r: Result<Option<BsonClass>, Error>)
    ensures r == Ok(if BsonObjectId in loaded then Some(BsonObjectId) else None)
  {
    match AvailableObjectidColumnsBsonClasses(loaded)
    case Err(e) => Err(e)
    case Ok(available) => if |available| == 0 then Ok(None) else Ok(available[0])
  }

  /** Both ObjectId libraries are loaded. */
  predicate BothLoaded(loaded: set<BsonClass>) {
    BsonObjectId in loaded && MopedObjectId in loaded
  }

  /** `x.kind_of?(k)` for an ObjectId class `k`. */
  predicate KindOf(x: Value, k: BsonClass) {
    x.Oid? && x.id.cls == k
  }

  /**
   * Where a scan of `list` for a class `x` is a kind of stops: the first entry that is nil or
   * that `x` is a kind of, or `|list|` when there is none.
   */
  function FirstStop(list: seq<Option<BsonClass>>, x: Value): (i: nat)
    ensures i <= |list|
    ensures forall j | 0 <= j < i :: list[j].Some? && !KindOf(x, list[j].value)
    ensures i < |list| ==> list[i].None? || KindOf(x, list[i].value)
  {
    if list == [] then 0
    else if list[0].None? || KindOf(x, list[0].value) then 0
    else 1 + FirstStop(list[1..], x)
  }

  /**
   * `list.detect { |k| x.kind_of?(k) }`: the first class `x` is a kind of; `kind_of?(nil)` raises
   * a TypeError as soon as the scan reaches a nil entry.
   */
  function Detect(list: seq<Option<BsonClass>>, x: Value): (r: Result<Option<BsonClass>, Error>)
    ensures r.Ok? && r.value.Some? ==> Some(r.value.value) in list && KindOf(x, r.value.value)
    ensures r.Ok? && r.value.None? ==> forall i | 0 <= i < |list| :: list[i].Some? && !KindOf(x, list[i].value)
    ensures r.Err? ==> r.error == KindOfNil && None in list
    ensures list != [] && list[0] == None ==> r == Err(KindOfNil)
    ensures var i := FirstStop(list, x);
      && (i == |list| ==> r == Ok(None))
      && (i < |list| ==> r == if list[i].None? then Err(KindOfNil) else Ok(list[i]))
  {
    if list == [] then Ok(None)
    else match list[0]
      case None => Err(KindOfNil)
      case Some(k) => if KindOf(x, k) then Ok(Some(k)) else Detect(list[1..], x)
  }

  /** `is_valid_bson_object?(x)`: the first available class `x` is a kind of, or nil. */
  function IsValidBsonObject(loaded: set<BsonClass>, x: Value): (r: Result<Option<BsonClass>, Error>)
    ensures r.Ok? && r.value.Some? ==> r.value.value in loaded && KindOf(x, r.value.value)
    ensures r == Ok(None) ==> BothLoaded(loaded) && !x.Oid?
    ensures r.Err? ==> r.error == KindOfNil && !BothLoaded(loaded)
  {
    match AvailableObjectidColumnsBsonClasses(loaded)
    case Err(e) => Err(e)
    case Ok(available) => Detect(available, x)
  }

  /** With both libraries loaded the check never raises, and it recognises exactly the ObjectIds. */
  lemma IsValidBsonObjectWithBothLoaded(x: Value)
    ensures IsValidBsonObject({BsonObjectId, MopedObjectId}, x) == Ok(if x.Oid? then Some(x.id.cls) else None)
  {
    var available := AvailableObjectidColumnsBsonClasses({BsonObjectId, MopedObjectId}).value;
    assert available == [Some(BsonObjectId), Some(MopedObjectId)];
  }

  /**
   * With a library missing, the nil entry makes the check raise a TypeError: for every value when
   * BSON::ObjectId is the one missing, and for everything but a BSON::ObjectId otherwise.
   */
  lemma IsValidBsonObjectWithMissingLibrary(loaded: set<BsonClass>, x: Value)
    requires !(BsonObjectId in loaded && MopedObjectId in loaded)
    ensures IsValidBsonObject(loaded, x)
      == if BsonObjectId in loaded && KindOf(x, BsonObjectId) then Ok(Some(BsonObjectId)) else Err(KindOfNil)
  {
    var available := AvailableObjectidColumnsBsonClasses(loaded).value;
    if BsonObjectId in loaded {
      assert available == [Some(BsonObjectId), None];
      assert available[1..] == [None];
    }
  }

  /**
   * `construct_objectid(hex)`, the ObjectId library's parser for the preferred class: it accepts
   * exactly 24 hex digits of either case and raises otherwise.
   */
  function ConstructObjectid(cls: BsonClass, hex: seq<char>): (r: Result<ObjectId, Error>)
    ensures r.Ok? <==> |hex| == 24 && IsHexString(hex)
    ensures r.Ok? ==> r.value.cls == cls && r.value.ToS() == DowncaseHex(hex)
    ensures r.Err? ==> r.error == ObjectIdParseFailure(hex)
  {
    if |hex| == 24 && IsHexString(hex) then
      UnpackPackHex(hex);
      Ok(ObjectId(cls, PackHex(hex)))
    else Err(ObjectIdParseFailure(hex))
  }
}
