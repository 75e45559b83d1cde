# objectid_columns, modelled in Dafny

objectid_columns is a Ruby gem. It lets an ActiveRecord model keep MongoDB-style ObjectIds in
ordinary SQL columns. A `:binary` column holds an id as its 12 raw bytes. A `:string` column holds
it as 24 hex digits. A model class declares such columns with `has_objectid_columns :foo_oid, ...`,
or with no arguments, which picks every column whose name ends in `_oid`. The gem then generates a
getter and a setter for each declared column. The getter turns the stored value into an ObjectId
object (`BSON::ObjectId` or `Moped::BSON::ObjectId`). The setter accepts an ObjectId, its hex form
or its binary form, and stores whichever form the column's type needs.

This project models the gem's core:

- `HexPacking`: Ruby's `unpack("H*")` and `pack("H*")`, which every conversion goes through.
- `Domain`: Ruby strings (BINARY or text in an encoding), ObjectIds, attribute values, schema
  column records, and every exception the core raises, with its Ruby exception class.
- `ObjectidColumns`: the module-level helpers. These are the available ObjectId classes, the
  preferred class, and `is_valid_bson_object?`. It also holds `construct_objectid`, the ObjectId
  library's parser.
- `Extensions`: `#to_binary` and `#to_bson_id` on the ObjectId classes, and `String#to_bson_id`.
- `RubyClasses`: the parts of a Ruby class object the core reads and changes. These are its
  constant table, its included and extended modules, its superclass chain and its schema columns.
- `DynamicMethods`: `DynamicMethodsModule`, a module bound as a constant inside a class and
  included into it. It tracks the methods it defines so they can all be removed again.
- `Column`: `ObjectidColumn`. Its constructor validates a column's type and limit. It also
  provides `query_value_for` and `install_methods!`.
- `HasObjectidColumns`: the instance side of the concern, `read_objectid_column` and
  `write_objectid_column`.
- `Manager`: `ObjectidColumnsManager`, the per-class registry. It resolves and validates
  declarations, records the columns, and regenerates the accessors.
- `ActiveRecordBase`: the class-level entry points. A model class starts with the
  `ActiveRecord::Base` versions. Its first declaration includes the concern, and from then on the
  concern's `ClassMethods` versions delegate to a memoized manager.

Pure Ruby logic is modelled as functions and lemmas. The objects the source updates in place
are classes with `modifies` frames:

- the dynamic-methods module;
- the manager;
- the model class;
- a record's attributes.

The loops in `remove_all_methods!`, `install_methods!`, the manager's recording loop and
`superclasses` are proved against specification functions.

## Model

| member | source | states |
|---|---|---|
| HexPacking.UnpackHex | lib/objectid_columns/extensions.rb:35 | `unpack("H*")` gives exactly two lowercase hex digits per byte |
| HexPacking.UnpackHexAt | lib/objectid_columns/extensions.rb:35 | byte `i` becomes digits `2i` and `2i+1`: its high nibble first, then its low nibble, each as a lowercase hex digit |
| HexPacking.PackHex | lib/objectid_columns/extensions.rb:11 | `pack("H*")` on an even run of hex digits gives one byte per pair |
| HexPacking.PackHexAt | lib/objectid_columns/extensions.rb:11 | byte `i` of `pack("H*")` is sixteen times the value of digit `2i` plus the value of digit `2i+1`, so the high nibble comes first |
| HexPacking.PackUnpackHex | lib/objectid_columns/extensions.rb:10-12 | packing the unpacked digits gives the original bytes back |
| HexPacking.UnpackPackHex | lib/objectid_columns/extensions.rb:35 | unpacking packed digits gives the same digits in lower case |
| Domain.ObjectId.ToS | lib/objectid_columns/extensions.rb:11 | an id's `to_s` is 24 lowercase hex digits |
| ObjectidColumns.ValidObjectidBsonClasses | lib/objectid_columns.rb:5-7 | the candidate classes are both ObjectId classes, each once, with BSON::ObjectId first |
| ObjectidColumns.DefinedOrNil | lib/objectid_columns.rb:14-16 | each candidate class becomes itself when it is loaded and nil otherwise, position by position |
| ObjectidColumns.AvailableObjectidColumnsBsonClasses | lib/objectid_columns.rb:13-27 | never raises; one entry per candidate name in order; an entry is non-nil exactly when that class is loaded. The "neither one defined" error cannot fire |
| ObjectidColumns.PreferredBsonClass | lib/objectid_columns.rb:9-11 | the preferred class is BSON::ObjectId when it is loaded and nil otherwise, even when Moped's class is loaded |
| ObjectidColumns.Detect | lib/objectid_columns.rb:29-31 | the scan stops at the first entry that is nil or a class the value is a kind of. It gives that class, raises the TypeError of `kind_of?(nil)` if the entry is nil, and gives nil when no entry stops it. So a class found before a nil entry always wins |
| ObjectidColumns.IsValidBsonObject | lib/objectid_columns.rb:29-31 | a class it gives is loaded and the value is a kind of it. It gives nil only with both libraries loaded and a value that is no ObjectId. It raises only the TypeError of `kind_of?(nil)`, and only with a library missing |
| ObjectidColumns.IsValidBsonObjectWithBothLoaded | lib/objectid_columns.rb:29-31 | with both libraries loaded, `is_valid_bson_object?` never raises and recognises exactly the ObjectId objects, giving their class |
| ObjectidColumns.IsValidBsonObjectWithMissingLibrary | lib/objectid_columns.rb:14-16 | with a library missing, its nil entry makes every check raise TypeError, except a BSON::ObjectId found before the nil |
| ObjectidColumns.ConstructObjectid | lib/objectid_columns/extensions.rb:33 | the parser accepts exactly 24 hex digits in either case. The id's class is the preferred class, and its `to_s` is the digits lowercased |
| Extensions.ToBinary | lib/objectid_columns/extensions.rb:10-12 | `to_binary` is the id's own twelve bytes |
| Extensions.PatchEach | lib/objectid_columns/extensions.rb:8-18 | patching succeeds exactly when no entry is nil, and patches every class in list order. A nil entry raises NoMethodError |
| Extensions.LoadExtensions | lib/objectid_columns/extensions.rb:8-18 | a completed load has patched only loaded classes; a failed one raises the NoMethodError of `class_eval` on nil |
| Extensions.PatchEachIsPatchedPrefix | lib/objectid_columns/extensions.rb:8-18 | a loop that runs to the end has patched the classes of the whole list, in order |
| Extensions.PatchedClasses | lib/objectid_columns/extensions.rb:8-28 | BSON::ObjectId gets `to_bson_id` exactly when it is loaded, since it comes first. Moped's class and String get it only when both libraries are loaded, because a nil entry stops the loop before them |
| Extensions.LoadExtensionsNeedsBothLibraries | lib/objectid_columns/extensions.rb:8-18 | loading the extensions succeeds exactly when both ObjectId libraries are loaded, and then patches both classes in order. Otherwise it raises NoMethodError |
| Extensions.SingleLineHexIdRegex | lib/objectid_columns/extensions.rb:29 | on a string without line breaks, the hex regex matches exactly 24 hex digits in either case |
| Extensions.StringToBsonId | lib/objectid_columns/extensions.rb:31-40 | an accepted string is ASCII-compatible and becomes an id of the preferred class. In an encoding that is not ASCII-compatible, such as UTF-16 or UTF-32, the regex match raises Encoding::CompatibilityError. Any other string that is neither hex nor 12 BINARY bytes raises ArgumentError naming its length and encoding |
| Extensions.StringToBsonIdAcceptedShapes | lib/objectid_columns/extensions.rb:32-38 | for single-line strings, conversion succeeds if and only if the encoding is ASCII-compatible and the string is 24 hex digits or 12 bytes in BINARY encoding. A failure is the CompatibilityError for other encodings and the ArgumentError otherwise |
| Extensions.ToBsonId | lib/objectid_columns/extensions.rb:14-31 | defined only for values that have `to_bson_id` in the loaded environment. On an ObjectId it returns that same id; on a String it is `String#to_bson_id` through the preferred class |
| Extensions.RespondsToBsonId | lib/objectid_columns/has_objectid_columns.rb:12-22 | `respond_to?(:to_bson_id)` holds for a String or a Moped id exactly when both libraries are loaded, and for a BSON::ObjectId exactly when its library is loaded. Nothing else responds |
| Extensions.HexStringRoundTrip | spec/objectid_columns/system/extensions_spec.rb:47-50 | converting 24 hex digits yields an id whose `to_s` is those digits lowercased, and exactly those digits when they were lowercase |
| Extensions.BinaryStringRoundTrip | spec/objectid_columns/system/extensions_spec.rb:57-61 | converting 12 BINARY bytes yields an id with those bytes, whose `to_binary` gives them back |
| Extensions.ToSRoundTrip | lib/objectid_columns/extensions.rb:32-33 | converting an id's `to_s`, in any ASCII-compatible encoding, yields an id with the same bytes |
| Column.NewObjectidColumn | lib/objectid_columns/objectid_column.rb:3-16 | accepts exactly binary columns with limit at least 12 and string columns with limit at least 24. Another type raises ArgumentError; a nil limit raises NoMethodError; a short limit raises ArgumentError naming the limit and the minimum |
| Column.Render | lib/objectid_columns/objectid_column.rb:31-35 | a binary column stores the id's twelve bytes and a string column its lowercase hex. Any other type raises |
| Column.QueryValueFor | lib/objectid_columns/objectid_column.rb:26-39 | nil and false pass through. A value that has `to_bson_id` in the loaded environment is converted; a failed conversion raises its error. A binary column then gets the id's twelve bytes, a string column its lowercase hex, and any other type raises. A value without `to_bson_id` raises ArgumentError naming the column |
| Column.QueryValueForBinaryIsIdentity | lib/objectid_columns/objectid_column.rb:29-32 | querying a binary column with 12 BINARY bytes yields that very string |
| Column.QueryValueForHexIsLowercased | lib/objectid_columns/objectid_column.rb:29-33 | querying a string column with 24 hex digits yields the digits lowercased |
| Column.InstallMethods | lib/objectid_columns/objectid_column.rb:41-52 | defines the getter `name` and the setter `name=` as tracked public methods, closed over the column's name and type. Nothing else in the table changes |
| HasObjectidColumns.ReadObjectidColumn | lib/objectid_columns/has_objectid_columns.rb:7-17 | a falsy or absent stored value comes back as is. A stored ObjectId whose class was patched comes back unchanged. A stored string, once String is patched, is converted or raises the conversion's error. Any other truthy value raises the "not a valid BSON ID" RuntimeError |
| HasObjectidColumns.WriteValue | lib/objectid_columns/has_objectid_columns.rb:19-36 | nil and false are stored as they are. A value without `to_bson_id` in the loaded environment raises ArgumentError, and a failing conversion raises its own error. A converted id always passes `is_valid_bson_object?` with its own class. A binary column then stores the id's twelve bytes and a string column its lowercase hex in US-ASCII, and any other column type raises ArgumentError "Invalid type" |
| HasObjectidColumns.WriteStoredForm | lib/objectid_columns/has_objectid_columns.rb:28-32 | with both libraries loaded, a value converting to an id stores `to_binary` in a binary column and `to_s` in a string column. Any other column type raises ArgumentError "Invalid type" |
| HasObjectidColumns.WriteThenRead | spec/objectid_columns/system/basic_system_spec.rb:57-71 | with both libraries loaded, writing any convertible value to a binary or string column and reading it back gives an ObjectId of the preferred class with the same twelve bytes |
| HasObjectidColumns.WriteWithMissingLibrary | lib/objectid_columns/has_objectid_columns.rb:22-34 | with a library missing, String never gets `to_bson_id`, so writing any string raises the ArgumentError for an unconvertible value, and so does any ObjectId that is not a loaded BSON::ObjectId. A loaded BSON::ObjectId is still stored, as bytes or as hex |
| HasObjectidColumns.ReadEmptyStringRaises | lib/objectid_columns/has_objectid_columns.rb:10-13 | an empty stored string, text or BINARY, is truthy, so reading it always raises rather than giving nil. With both libraries loaded and an ASCII-compatible string, the error is ArgumentError |
| HasObjectidColumns.Record.WriteObjectidColumn | lib/objectid_columns/has_objectid_columns.rb:19-36 | a raised error leaves the record untouched. A successful write assigns the converted value to the named attribute and to no other |
| DynamicMethods.RemoveTracked | lib/objectid_columns/dynamic_methods_module.rb:96-101 | after removal a method remains exactly when it is untracked or private, and every remaining method is unchanged |
| DynamicMethods.RemoveTrackedIdempotent | lib/objectid_columns/dynamic_methods_module.rb:96-106 | removing the tracked methods a second time removes nothing more |
| DynamicMethods.ModuleName | lib/objectid_columns/dynamic_methods_module.rb:40-43 | a Symbol or String name is accepted as its symbol; anything else raises ArgumentError naming the argument |
| DynamicMethods.New | lib/objectid_columns/dynamic_methods_module.rb:38-91 | a non-Class target raises, and so does a name that is not a Symbol or String, a name that is no constant name, or a name already bound to a truthy constant. A failure leaves the class unchanged. On success the class binds `<name>ClassMethods` and `<name>`, is extended with the first and includes the second. The new module holds only the block's untracked methods |
| DynamicMethods.DynamicMethodsModule.DefineMethod | lib/objectid_columns/dynamic_methods_module.rb:110-114 | defines a public method under the name and tracks the name for removal |
| DynamicMethods.DynamicMethodsModule.DefineClassMethod | lib/objectid_columns/dynamic_methods_module.rb:117-119 | defines a public method on the class-methods module without tracking it |
| DynamicMethods.DynamicMethodsModule.MakePrivate | lib/objectid_columns/dynamic_methods_module.rb:125 | `private(name)` makes a defined method private, keeping its body, and raises NameError for an undefined one |
| DynamicMethods.DynamicMethodsModule.RemoveAllMethods | lib/objectid_columns/dynamic_methods_module.rb:96-106 | both method tables lose exactly their tracked public and protected methods, and the tracking tables are kept |
| Manager.Strip | lib/objectid_columns/objectid_columns_manager.rb:47 | the result is the slice of the name that starts after its leading whitespace and is followed only by whitespace. It is empty exactly when the name is all whitespace, and otherwise starts and ends with a non-whitespace character |
| Manager.StripIdempotent | lib/objectid_columns/objectid_columns_manager.rb:47 | stripping twice is stripping once |
| Manager.Uniq | lib/objectid_columns/objectid_columns_manager.rb:47 | `uniq` keeps the same members without repeats and is never longer |
| Manager.UniqKeepsFirstOccurrenceOrder | lib/objectid_columns/objectid_columns_manager.rb:47 | `uniq` keeps each name at its first occurrence: the names come in the order they first appear |
| Manager.UniqOfDistinct | lib/objectid_columns/objectid_columns_manager.rb:47 | `uniq` on a list without repeats changes nothing |
| Manager.MatchesOidSuffix | lib/objectid_columns/objectid_columns_manager.rb:43 | a name matching `/_oid$/i` has at least four characters, and every name whose last four characters are `_oid` in any case matches |
| Manager.SingleLineOidSuffix | lib/objectid_columns/objectid_columns_manager.rb:43 | on a name without line breaks, `/_oid$/i` tests exactly the last four characters |
| Manager.Autodetect | lib/objectid_columns/objectid_columns_manager.rb:42-44 | autodetection gives schema column names ending in `_oid` in any case, includes every such column, and never more names than columns |
| Manager.ResolveColumnObjects | lib/objectid_columns/objectid_columns_manager.rb:46-53 | resolution succeeds exactly when every stripped name is a column. It then gives the schema columns named, in schema order. Otherwise it raises ArgumentError listing exactly the names that are not columns, and at least one |
| Manager.SelectNamedAppend | lib/objectid_columns/objectid_columns_manager.rb:48 | selecting named columns from two joined tables is selecting from each in turn, so selection keeps schema order |
| Manager.ResolveOwnName | lib/objectid_columns/objectid_columns_manager.rb:46-53 | a declaration naming one column, whose name has nothing to strip, resolves to exactly that column |
| Manager.NewAll | lib/objectid_columns/objectid_columns_manager.rb:55 | wrapping succeeds exactly when every column is acceptable, and then wraps each in order. A failure raises the error of the first unacceptable column |
| Manager.ToObjectidColumnsAsWritten | lib/objectid_columns/objectid_columns_manager.rb:55 | as written, the conversion can only ever succeed with no columns |
| Manager.AsWrittenRejectsEveryResolvedColumn | lib/objectid_columns/objectid_columns_manager.rb:55 | as written, every declaration naming an existing column raises "wrong number of arguments (given 1, expected 2)" |
| Manager.AsWrittenRejectsValidBinaryColumn | lib/objectid_columns/objectid_columns_manager.rb:55 | a binary(12) column `some_oid` is refused as written and accepted by the corrected conversion |
| Manager.ToObjectidColumns | lib/objectid_columns/objectid_columns_manager.rb:46-56 | succeeds exactly when resolution succeeds and every resolved column is acceptable. It then wraps exactly the schema columns named. A missing name raises resolution's error before any column is validated; otherwise the first unacceptable column's error is raised |
| Manager.ToObjectidColumnsRaises | lib/objectid_columns/objectid_columns_manager.rb:46-56 | a failed conversion raises ArgumentError when a name is missing, and otherwise ArgumentError or the NoMethodError of a column with a nil limit |
| Manager.ResolutionIgnoresOrderAndRepeats | lib/objectid_columns/objectid_columns_manager.rb:47-48 | two argument lists with the same stripped names resolve alike |
| Manager.Put | lib/objectid_columns/objectid_columns_manager.rb:14 | `oid_columns[name] = column` maps the name to the column and leaves every other entry alone. A new name goes at the end of the order and an existing one keeps its place. A well-formed registry stays well formed |
| Manager.RecordAll | lib/objectid_columns/objectid_columns_manager.rb:14 | storing columns keeps the registry well formed and earlier keys in place, and registers every stored column's name |
| Manager.RecordAllEntries | lib/objectid_columns/objectid_columns_manager.rb:14 | each stored name ends up mapped to the last column of that name; other entries stay |
| Manager.RecordAllIdempotent | lib/objectid_columns/objectid_columns_manager.rb:14 | storing the same columns twice is storing them once |
| Manager.Declare | lib/objectid_columns/objectid_columns_manager.rb:12-17 | a declaration keeps the registry well formed |
| Manager.DeclareRegistersRequested | lib/objectid_columns/objectid_columns_manager.rb:12-17 | a declaration succeeds exactly when conversion does, and a failure raises the conversion's error. A success keeps every earlier key in place and registers every requested column |
| Manager.DeclareIdempotent | lib/objectid_columns/objectid_columns_manager.rb:12-17 | declaring the same columns again changes nothing |
| Manager.AccessorNames | lib/objectid_columns/objectid_column.rb:45-51 | the accessor names include every column's getter and setter name |
| Manager.AccessorNamesExactly | lib/objectid_columns/objectid_column.rb:45-51 | the accessor names are exactly the columns' getter names and setter names |
| Manager.InstallAll | lib/objectid_columns/objectid_columns_manager.rb:30 | installing gives exactly the old methods plus the accessor names, and every other method is unchanged |
| Manager.InstallAllDefinesAccessors | lib/objectid_columns/objectid_columns_manager.rb:30 | every installed column ends up with its own getter and setter, bound to its own name and type, even when several are installed |
| Manager.ReinstallCoversRegistry | lib/objectid_columns/objectid_columns_manager.rb:28-31 | after `install_methods!` every registered column has its getter and setter. Untracked methods that are not accessors survive unchanged, and tracked visible ones are gone |
| Manager.AncestorsAreStrict | lib/objectid_columns/objectid_columns_manager.rb:33-40 | a class is never among its own superclasses, so the `superclasses` walk ends |
| Manager.Superclasses | lib/objectid_columns/objectid_columns_manager.rb:33-40 | the loop collects the whole superclass chain, nearest first |
| Manager.ObjectidColumnsManager.New | lib/objectid_columns/objectid_columns_manager.rb:3-10 | a non-Class raises ArgumentError, and so does a class without ActiveRecord::Base among its superclasses. Otherwise creation succeeds exactly when the class holds no truthy `ObjectidColumnsDynamicMethods` constant, and such a constant raises NameError. A failure leaves the class unchanged. A new manager has an empty registry and an empty dynamic-methods module. The class binds `ObjectidColumnsDynamicMethods` and `ObjectidColumnsDynamicMethodsClassMethods`, includes the first and is extended with the second |
| Manager.ObjectidColumnsManager.InstallMethods | lib/objectid_columns/objectid_columns_manager.rb:28-31 | the new method table is the old one with tracked methods removed, then every registered column's accessors installed in key order |
| Manager.InstallEach | lib/objectid_columns/objectid_columns_manager.rb:30 | the loop leaves the method table as `InstallAll` of the old one, and tracks exactly the columns' accessor names in addition |
| Manager.ObjectidColumnsManager.Record | lib/objectid_columns/objectid_columns_manager.rb:14 | the loop leaves the registry as `RecordAll` of the old one |
| Manager.ObjectidColumnsManager.HasObjectidColumns | lib/objectid_columns/objectid_columns_manager.rb:12-17 | it succeeds exactly when the declaration does. A failure changes neither the registry nor the dynamic methods. A success installs the declared registry and regenerates the accessors from it. Class methods are never touched |
| Manager.ObjectidColumnsManager.ObjectidColumnObjectFor | lib/objectid_columns/objectid_columns_manager.rb:19-21 | gives a column exactly for a registered name, and it is the registered entry for that name |
| ActiveRecordBase.ModelClass.HasObjectidColumnsQuery | lib/objectid_columns/active_record/base.rb:10-12 | `has_objectid_columns?` is true exactly when the concern is included (has_objectid_columns.rb:39-41) |
| ActiveRecordBase.ModelClass.IncludeHasObjectidColumns | lib/objectid_columns/active_record/base.rb:15 | including the concern activates the class and extends it with the concern's `ClassMethods`. Including it again changes nothing |
| ActiveRecordBase.ModelClass.ObjectidColumnsManager | lib/objectid_columns/has_objectid_columns.rb:45-47 | undefined before activation, changing nothing. Otherwise it gives the memoized manager, or creates one exactly when the class descends from ActiveRecord::Base and has no colliding constant. A created manager is empty, and the class binds, includes and is extended with its modules. A failed creation raises its error, memoizes nothing and leaves the class unchanged |
| ActiveRecordBase.ModelClass.HasObjectidColumns | lib/objectid_columns/active_record/base.rb:14-17 | the first declaration includes the concern whatever follows. With a manager, it succeeds exactly when the manager's declaration does. On success the registry and the regenerated accessors are installed, and on failure registry and method tables are unchanged, as is the class. Without a manager, a failed creation raises its error and leaves only the concern included. A successful creation binds the manager's modules, then declares the same way on the empty registry and empty tables |
| ActiveRecordBase.ModelClass.DelegateHasObjectidColumns | lib/objectid_columns/has_objectid_columns.rb:43 | on an activated class, the same three cases: an existing manager declares, a failed creation raises its error, and a created manager declares on the empty registry. Each succeeds exactly when its declaration does. Success installs the registry and regenerates the accessors; failure leaves registry and method tables unchanged |
| ActiveRecordBase.ModelClass.HasObjectidColumn | lib/objectid_columns/has_objectid_columns.rb:43 | raises NoMethodError before activation and changes nothing. Afterwards it behaves as `has_objectid_columns` in each of the three cases, registry, accessors and class included, also for a class with the concern but no manager yet |
| ActiveRecordBase.ModelClass.HasObjectidColumnAsIntended | lib/objectid_columns/objectid_columns_manager.rb:23 | the singular, available from the start as the system spec calls it, includes the concern and declares in the same three cases as `has_objectid_columns`, with the same registry, accessors and class |
| ActiveRecordBase.ModelClass.ObjectidColumnObjectFor | lib/objectid_columns/has_objectid_columns.rb:43-47 | raises NoMethodError before activation and changes nothing. With a manager it gives exactly the registered column of that name, or nil, and changes nothing. Without one it creates the manager first: a failed creation raises its error and leaves the class unchanged, and a successful one binds the modules and gives nil |

## Left out

- Ruby 1.8.7 support is not modelled. That covers strings without `encoding` (extensions.rb:34, 37) and the one-argument `const_defined?` branch (dynamic_methods_module.rb:64-75). Every string has an encoding, and the class's own constant table is the one consulted.
- The BSON and Moped ObjectId classes are not modelled beyond what the core uses: an id is its class and its twelve bytes.
- `ObjectidColumns.construct_objectid` is not part of this model's source files. `ConstructObjectid` takes it as the preferred class's parser, which accepts exactly 24 hex digits in either case.
- `preferred_bson_class=` is not part of this model's source files. The class it selects is the `preferred` field of `Domain.Env`.
- Column.Render: the text that `to_s` returns is taken to be in US-ASCII encoding. The ObjectId libraries decide that encoding.
- ActiveRecord itself is not modelled: `self[]`/`self[]=` are a map of attributes, and saving, `find`, type casting and the database are left out. Reading back after a write is stated on the attribute map, so it says nothing about what the database does to the stored bytes.
- lib/objectid_columns/active_record/relation.rb and lib/objectid_columns/arel/visitors/to_sql.rb (query rewriting) are not part of this model.
- Subclasses of an activated model are not modelled, only the declaring class itself. In Ruby a subclass inherits the concern, its class methods and its superclass's accessors. The `@objectid_columns_manager` memo is per class, so a subclass's first use creates its own manager, with an empty registry and its own `ObjectidColumnsDynamicMethods` module; `const_defined?(name, false)` does not see the superclass's constant.
- The manager reference that `ObjectidColumn#initialize` stores is never read by the modelled operations and is not kept.
- Manager.Declare, Manager.DeclareRegistersRequested, Manager.DeclareIdempotent, Manager.ObjectidColumnsManager.HasObjectidColumns, ActiveRecordBase.ModelClass.HasObjectidColumns, ActiveRecordBase.ModelClass.DelegateHasObjectidColumns, ActiveRecordBase.ModelClass.HasObjectidColumn and ActiveRecordBase.ModelClass.HasObjectidColumnAsIntended: these are built on the corrected `Manager.ToObjectidColumns`, so they describe the declarations the library intends. As written, every declaration that names an existing column raises ArgumentError (see Findings, `Manager.AsWrittenRejectsEveryResolvedColumn`), and only a declaration that resolves no column succeeds.
- Strings whose bytes are invalid in their own encoding are not modelled: Ruby's regex match raises ArgumentError "invalid byte sequence" on them. A string here is its characters and its encoding; only ASCII-compatibility decides whether the match can run.
- Manager.Strip: the whitespace set is NUL, tab, line feed, vertical tab, form feed, carriage return and space. This follows current Ruby; older Ruby versions did not strip a leading NUL.
- Manager.MatchesOidSuffix: case-insensitive matching of `_oid` folds only ASCII letters, which are the only letters in the pattern.
- Column arguments to `has_objectid_columns` are taken as their `to_s` strings; Symbols and Strings are the arguments the library documents.
- A block given to `DynamicMethodsModule.new` is modelled as the map of methods it defines with `def`; other effects of the block are not modelled.
- The hex-id regex and the `_oid` regex are modelled with Ruby's line anchors, which also match around embedded line breaks; the single-line lemmas state the plain reading.
- `ObjectidColumns.AvailableObjectidColumnsBsonClasses` keeps nil entries for missing libraries, as the code does, so the "no library" error can never be raised.
- The RuntimeError that `write_objectid_column` raises when `to_bson_id` returns something other than an ObjectId (has_objectid_columns.rb:24-26) cannot occur in the model: `to_bson_id` only ever returns an id of a patched class, which is loaded and comes before any nil entry. A preferred class set to some other class with `preferred_bson_class=` is not modelled.
- Exception messages are modelled by the data they name (column, value, length, encoding), not as formatted text.

## Findings

| source | as written | input that shows it | evidently intended | confidence | as-written member | corrected member |
|---|---|---|---|---|---|---|
| lib/objectid_columns/objectid_columns_manager.rb:55 | `ObjectidColumn.new(column_object)` passes one argument to an `initialize` that takes two (objectid_column.rb:3), so Ruby raises ArgumentError before any check of the column | `has_objectid_columns :some_oid` on a model whose `some_oid` column is binary with limit 12 | `ObjectidColumn.new(self, column_object)`, so the column is validated and registered | not executed | Manager.AsWrittenRejectsValidBinaryColumn | Manager.ToObjectidColumns |
| lib/objectid_columns/active_record/base.rb:9-18 | only the plural `has_objectid_columns` exists before a class declares anything; the singular `has_objectid_column` is defined only by the concern (has_objectid_columns.rb:43), so on a fresh model class it raises NoMethodError | spec/objectid_columns/system/basic_system_spec.rb:54 calls `has_objectid_column :perfect_s_oid` on the freshly defined `Spectable` (system_helpers.rb:67 gives it an empty body) | the singular as an alias of the trampoline, activating the class like the plural | not executed | ActiveRecordBase.ModelClass.HasObjectidColumn | ActiveRecordBase.ModelClass.HasObjectidColumnAsIntended |
