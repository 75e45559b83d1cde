/**
 * The class-level entry points every ActiveRecord model gets (lib/objectid_columns/active_record/base.rb)
 * and the ones that replace them once a model declares ObjectId columns (the `ClassMethods` of
 * lib/objectid_columns/has_objectid_columns.rb). The first declaration includes
 * `ObjectidColumns::HasObjectidColumns` into the model class and dispatches again, which now
 * reaches the delegating version; that version creates the manager once and forwards to it.
 */
module ActiveRecordBase {
  import opened Wrappers
  import opened Domain
  import opened RubyClasses
  import opened DynamicMethods
  import opened Column
  import opened Manager

  /** The concern `include`d into a model class on its first declaration. */
  const HasObjectidColumnsModule := LibraryModule("ObjectidColumns::HasObjectidColumns")

  /** Its `ClassMethods`, which ActiveSupport::Concern `extend`s the class with at the same time. */
  const HasObjectidColumnsClassMethods := LibraryModule("ObjectidColumns::HasObjectidColumns::ClassMethods")

  /**
   * Manager `m` after `has_objectid_columns(*args)` against `table`, starting from registry `g`
   * (well formed) and a dynamic-methods module whose method table was `methods` (tracking `defined`) and whose
   * class-methods table was `classMethods`. The declaration succeeds exactly when `Declare` does;
   * it then holds the new registry and the regenerated accessors, while a failure raises
   * `Declare`'s error and leaves registry and tables as they were. Class methods never change.
   */
  ghost predicate Declared(m: ObjectidColumnsManager, g: Registry, methods: map<string, Method>, defined: set<string>,
                           classMethods: map<string, Method>, table: seq<ColumnObject>, args: seq<string>,
                           r: Outcome<Error>)
    reads m, m.dynamicMethodsModule, m.dynamicMethodsModule.classMethodsModule
  {
    var d := Declare(g, table, args);
    var dmm := m.dynamicMethodsModule;
    && WellFormed(g)
    && (r.Pass? <==> d.Ok?)
    && (d.Ok? ==> && m.Registered() == d.value
                  && dmm.methods == InstallAll(RemoveTracked(methods, defined), InOrder(d.value))
                  && dmm.methodsDefined == defined + AccessorNames(InOrder(d.value)))
    && (d.Err? ==> && r == Fail(d.error) && m.Registered() == g
                   && dmm.methods == methods && dmm.methodsDefined == defined)
    && dmm.classMethodsModule.methods == classMethods
  }

  /** A model class as the library's class methods see it. */
  class ModelClass {
    const klass: RubyClass
    const activeRecordBase: RubyClass                // ::ActiveRecord::Base
    var objectidColumnsManager: ObjectidColumnsManager?  // @objectid_columns_manager
    ghost var Repr: set<object>

    /** Whether `HasObjectidColumns` is included, which decides which class methods answer. */
    predicate IsActivated()
      reads this, klass
    {
      HasObjectidColumnsModule in klass.includedModules
    }

    ghost predicate Valid()
      reads this, Repr
    {
      && this in Repr && klass in Repr
      && klass.ChainOk()
      && (objectidColumnsManager != null ==>
            && objectidColumnsManager in Repr
            && objectidColumnsManager.dynamicMethodsModule in Repr
            && objectidColumnsManager.dynamicMethodsModule.classMethodsModule in Repr
            && objectidColumnsManager.Valid()
            && objectidColumnsManager.activeRecordClass == klass
            && IsActivated())
    }

    constructor (klass: RubyClass, activeRecordBase: RubyClass)
      requires klass.ChainOk()
      ensures Valid() && fresh(Repr - {klass})
      ensures this.klass == klass && this.activeRecordBase == activeRecordBase
      ensures objectidColumnsManager == null
    {
      this.klass := klass;
      this.activeRecordBase := activeRecordBase;
      objectidColumnsManager := null;
      Repr := {this, klass};
    }

    /**
     * Whether creating the manager succeeds against the constant table `constants`: the class
     * descends from ActiveRecord::Base and its dynamic-methods constant is not taken.
     */
    ghost predicate CanCreateManager(constants: map<string, Constant>)
      requires klass.ChainOk()
    {
      activeRecordBase in Ancestors(klass) && !DynamicMethods.Collides(constants, DynamicMethodsName)
    }

    /** The error a failed creation raises: the ActiveRecord::Base check comes first. */
    ghost function CreationError(): Error
      requires klass.ChainOk()
    {
      if activeRecordBase !in Ancestors(klass) then NotAnActiveRecordClass(klass.name)
      else ConstantAlreadyDefined(DynamicMethodsName)
    }

    /**
     * The class after a declaration that includes the concern into a class whose modules were
     * `included` and `extended`, then, when `dmm` is not null, creates the manager's
     * dynamic-methods module under the constant table `constants`.
     */
    ghost predicate ClassAfterDeclaring(included: seq<ModuleRef>, extended: seq<ModuleRef>,
                                        constants: map<string, Constant>, dmm: DynamicMethodsModule?)
      reads klass
    {
      var inc := if HasObjectidColumnsModule in included then included else included + [HasObjectidColumnsModule];
      var ext := if HasObjectidColumnsModule in included then extended else extended + [HasObjectidColumnsClassMethods];
      if dmm == null then klass.constants == constants && klass.includedModules == inc && klass.extendedModules == ext
      else BindsDynamicMethods(klass, constants, inc, ext, dmm)
    }

    /**
     * `has_objectid_columns?`: false from `ObjectidColumns::ActiveRecord::Base::ClassMethods`
     * until the concern is included, true from the concern's own `ClassMethods` afterwards.
     */
    function HasObjectidColumnsQuery(): (r: bool)
      reads this, klass
      ensures r <==> IsActivated()
    {
      IsActivated()
    }

    /**
     * `include ::ObjectidColumns::HasObjectidColumns`: appends the concern and extends the class
     * with its `ClassMethods`; including it again does nothing.
     */
    method IncludeHasObjectidColumns()
      modifies klass
      ensures IsActivated()
      ensures old(IsActivated()) ==> unchanged(klass)
      ensures !old(IsActivated()) ==>
        && klass.includedModules == old(klass.includedModules) + [HasObjectidColumnsModule]
        && klass.extendedModules == old(klass.extendedModules) + [HasObjectidColumnsClassMethods]
      ensures klass.constants == old(klass.constants) && klass.columns == old(klass.columns)
    {
      if HasObjectidColumnsModule !in klass.includedModules {
        klass.includedModules := klass.includedModules + [HasObjectidColumnsModule];
        klass.extendedModules := klass.extendedModules + [HasObjectidColumnsClassMethods];
      }
    }

    /**
     * `objectid_columns_manager`: the memoized manager, created on first use. A failed creation
     * raises and memoizes nothing. The method exists only once the concern is included.
     */
    method ObjectidColumnsManager() returns (r: Result<ObjectidColumnsManager, Error>)
      requires Valid()
      modifies this, klass
      ensures Valid() && fresh(Repr - old(Repr))
      ensures !old(IsActivated()) ==> r == Err(UndefinedMethod("objectid_columns_manager")) && unchanged(this, klass)
      ensures old(objectidColumnsManager) != null ==> r == Ok(old(objectidColumnsManager)) && unchanged(this, klass)
      ensures r.Ok? ==> objectidColumnsManager == r.value
      ensures r.Err? ==> objectidColumnsManager == old(objectidColumnsManager)
      ensures old(objectidColumnsManager) == null && r.Ok? ==>
        && fresh(r.value) && r.value.Registered() == EmptyRegistry
        && r.value.dynamicMethodsModule.methods == map[] && r.value.dynamicMethodsModule.methodsDefined == {}
        && r.value.dynamicMethodsModule.classMethodsModule.methods == map[]
        && BindsDynamicMethods(klass, old(klass.constants), old(klass.includedModules), old(klass.extendedModules),
                               r.value.dynamicMethodsModule)
      ensures old(objectidColumnsManager) == null && r.Err? ==> unchanged(klass)
      ensures old(objectidColumnsManager) == null && old(IsActivated()) ==>
        && (r.Ok? <==> CanCreateManager(old(klass.constants)))
        && (r.Err? ==> r.error == CreationError())
      ensures klass.columns == old(klass.columns) && IsActivated() == old(IsActivated())
    {
      if !IsActivated() {
        return Err(UndefinedMethod("objectid_columns_manager"));
      }
      if objectidColumnsManager != null {
        return Ok(objectidColumnsManager);
      }
      var made := Manager.ObjectidColumnsManager.New(ClassTarget(klass), activeRecordBase);
      if made.Err? {
        return Err(made.error);
      }
      var m := made.value;
      objectidColumnsManager := m;
      Repr := Repr + {m, m.dynamicMethodsModule, m.dynamicMethodsModule.classMethodsModule};
      r := Ok(m);
    }

    /**
     * `has_objectid_columns(*columns)`: the first call includes the concern, whatever happens
     * next, and dispatches again; every call then reaches the delegating version, which forwards
     * to the (possibly new) manager.
     */
    method HasObjectidColumns(args: seq<string>) returns (r: Outcome<Error>)
      requires Valid()
      modifies Repr
      ensures Valid() && fresh(Repr - old(Repr))
      ensures IsActivated() && klass.columns == old(klass.columns)
      ensures old(objectidColumnsManager) != null ==>
        && objectidColumnsManager == old(objectidColumnsManager) && unchanged(klass)
        && Declared(objectidColumnsManager, old(objectidColumnsManager.Registered()),
                    old(objectidColumnsManager.dynamicMethodsModule.methods),
                    old(objectidColumnsManager.dynamicMethodsModule.methodsDefined),
                    old(objectidColumnsManager.dynamicMethodsModule.classMethodsModule.methods),
                    old(klass.columns), args, r)
      ensures old(objectidColumnsManager) == null && !CanCreateManager(old(klass.constants)) ==>
        && objectidColumnsManager == null && r == Fail(CreationError())
        && ClassAfterDeclaring(old(klass.includedModules), old(klass.extendedModules), old(klass.constants), null)
      ensures old(objectidColumnsManager) == null && CanCreateManager(old(klass.constants)) ==>
        && objectidColumnsManager != null && fresh(objectidColumnsManager)
        && Declared(objectidColumnsManager, EmptyRegistry, map[], {}, map[], old(klass.columns), args, r)
        && ClassAfterDeclaring(old(klass.includedModules), old(klass.extendedModules), old(klass.constants),
                               objectidColumnsManager.dynamicMethodsModule)
    {
      IncludeHasObjectidColumns();
      r := DelegateHasObjectidColumns(args);
    }

    /** The concern's `has_objectid_columns`, delegated to the manager. */
    method DelegateHasObjectidColumns(args: seq<string>) returns (r: Outcome<Error>)
      requires Valid() && IsActivated()
      modifies Repr
      ensures Valid() && fresh(Repr - old(Repr))
      ensures IsActivated() && klass.columns == old(klass.columns)
      ensures old(objectidColumnsManager) != null ==>
        && objectidColumnsManager == old(objectidColumnsManager) && unchanged(klass)
        && Declared(objectidColumnsManager, old(objectidColumnsManager.Registered()),
                    old(objectidColumnsManager.dynamicMethodsModule.methods),
                    old(objectidColumnsManager.dynamicMethodsModule.methodsDefined),
                    old(objectidColumnsManager.dynamicMethodsModule.classMethodsModule.methods),
                    old(klass.columns), args, r)
      ensures old(objectidColumnsManager) == null && !CanCreateManager(old(klass.constants)) ==>
        && objectidColumnsManager == null && r == Fail(CreationError())
        && ClassAfterDeclaring(old(klass.includedModules), old(klass.extendedModules), old(klass.constants), null)
      ensures old(objectidColumnsManager) == null && CanCreateManager(old(klass.constants)) ==>
        && objectidColumnsManager != null && fresh(objectidColumnsManager)
        && Declared(objectidColumnsManager, EmptyRegistry, map[], {}, map[], old(klass.columns), args, r)
        && ClassAfterDeclaring(old(klass.includedModules), old(klass.extendedModules), old(klass.constants),
                               objectidColumnsManager.dynamicMethodsModule)
    {
      var made := ObjectidColumnsManager();
      if made.Err? {
        return Fail(made.error);
      }
      var m := made.value;
      ghost var before := m.Registered();
      assert m.activeRecordClass == klass;
      assert klass.columns == old(klass.columns);
      r := m.HasObjectidColumns(args);
      assert r.Pass? ==> m.Registered() == Declare(before, m.activeRecordClass.columns, args).value;
      assert klass.columns == old(klass.columns);
      assert old(objectidColumnsManager) == null ==> before == EmptyRegistry;
      assert old(objectidColumnsManager) != null ==> m == old(objectidColumnsManager) && before == old(objectidColumnsManager.Registered());
    }

    /**
     * `has_objectid_column`: only the concern defines it (as the manager's alias of
     * `has_objectid_columns`), so before the first plural declaration it raises NoMethodError.
     */
    method HasObjectidColumn(args: seq<string>) returns (r: Outcome<Error>)
      requires Valid()
      modifies Repr
      ensures Valid() && fresh(Repr - old(Repr))
      ensures !old(IsActivated()) ==> r == Fail(UndefinedMethod("has_objectid_column")) && unchanged(this, klass)
      ensures old(objectidColumnsManager) != null ==>
        && objectidColumnsManager == old(objectidColumnsManager) && unchanged(klass)
        && Declared(objectidColumnsManager, old(objectidColumnsManager.Registered()),
                    old(objectidColumnsManager.dynamicMethodsModule.methods),
                    old(objectidColumnsManager.dynamicMethodsModule.methodsDefined),
                    old(objectidColumnsManager.dynamicMethodsModule.classMethodsModule.methods),
                    old(klass.columns), args, r)
      ensures old(objectidColumnsManager) == null && old(IsActivated()) && !CanCreateManager(old(klass.constants)) ==>
        && objectidColumnsManager == null && r == Fail(CreationError())
        && ClassAfterDeclaring(old(klass.includedModules), old(klass.extendedModules), old(klass.constants), null)
      ensures old(objectidColumnsManager) == null && old(IsActivated()) && CanCreateManager(old(klass.constants)) ==>
        && objectidColumnsManager != null && fresh(objectidColumnsManager)
        && Declared(objectidColumnsManager, EmptyRegistry, map[], {}, map[], old(klass.columns), args, r)
        && ClassAfterDeclaring(old(klass.includedModules), old(klass.extendedModules), old(klass.constants),
                               objectidColumnsManager.dynamicMethodsModule)
    {
      if !IsActivated() {
        return Fail(UndefinedMethod("has_objectid_column"));
      }
      r := DelegateHasObjectidColumns(args);
    }

    /**
     * `has_objectid_column` as the system spec uses it on a class with no declaration yet: an
     * alias of the `ActiveRecord::Base` trampoline, which includes the concern and dispatches
     * again, so the singular behaves as the plural from the first call on.
     */
    method HasObjectidColumnAsIntended(args: seq<string>) returns (r: Outcome<Error>)
      requires Valid()
      modifies Repr
      ensures Valid() && fresh(Repr - old(Repr))
      ensures IsActivated() && klass.columns == old(klass.columns)
      ensures old(objectidColumnsManager) != null ==>
        && objectidColumnsManager == old(objectidColumnsManager) && unchanged(klass)
        && Declared(objectidColumnsManager, old(objectidColumnsManager.Registered()),
                    old(objectidColumnsManager.dynamicMethodsModule.methods),
                    old(objectidColumnsManager.dynamicMethodsModule.methodsDefined),
                    old(objectidColumnsManager.dynamicMethodsModule.classMethodsModule.methods),
                    old(klass.columns), args, r)
      ensures old(objectidColumnsManager) == null && !CanCreateManager(old(klass.constants)) ==>
        && objectidColumnsManager == null && r == Fail(CreationError())
        && ClassAfterDeclaring(old(klass.includedModules), old(klass.extendedModules), old(klass.constants), null)
      ensures old(objectidColumnsManager) == null && CanCreateManager(old(klass.constants)) ==>
        && objectidColumnsManager != null && fresh(objectidColumnsManager)
        && Declared(objectidColumnsManager, EmptyRegistry, map[], {}, map[], old(klass.columns), args, r)
        && ClassAfterDeclaring(old(klass.includedModules), old(klass.extendedModules), old(klass.constants),
                               objectidColumnsManager.dynamicMethodsModule)
    {
      r := HasObjectidColumns(args);
    }

    /**
     * `objectid_column_object_for(name)`: likewise only defined by the concern; it returns the
     * registered column of that name, or nil.
     */
    method ObjectidColumnObjectFor(columnName: string) returns (r: Result<Option<ObjectidColumn>, Error>)
      requires Valid()
      modifies this, klass
      ensures Valid() && fresh(Repr - old(Repr))
      ensures !old(IsActivated()) ==> r == Err(UndefinedMethod("objectid_column_object_for")) && unchanged(this, klass)
      ensures klass.columns == old(klass.columns) && IsActivated() == old(IsActivated())
      ensures old(objectidColumnsManager) != null ==>
        && objectidColumnsManager == old(objectidColumnsManager) && unchanged(klass)
        && r.Ok? && (r.value.Some? <==> columnName in objectidColumnsManager.oidColumns)
        && (r.value.Some? ==> r.value.value == objectidColumnsManager.oidColumns[columnName])
      ensures old(objectidColumnsManager) == null && old(IsActivated()) && !CanCreateManager(old(klass.constants)) ==>
        r == Err(CreationError()) && objectidColumnsManager == null && unchanged(klass)
      ensures old(objectidColumnsManager) == null && old(IsActivated()) && CanCreateManager(old(klass.constants)) ==>
        && r == Ok(None) && objectidColumnsManager != null && fresh(objectidColumnsManager)
        && objectidColumnsManager.Registered() == EmptyRegistry
        && BindsDynamicMethods(klass, old(klass.constants), old(klass.includedModules), old(klass.extendedModules),
                               objectidColumnsManager.dynamicMethodsModule)
    {
      if !IsActivated() {
        return Err(UndefinedMethod("objectid_column_object_for"));
      }
      var made := ObjectidColumnsManager();
      if made.Err? {
        return Err(made.error);
      }
      r := Ok(made.value.ObjectidColumnObjectFor(columnName));
    }
  }
}
