/**
 * `DynamicMethodsModule` (lib/objectid_columns/dynamic_methods_module.rb): a module bound as a
 * constant inside its target class and included into it, whose generated methods are tracked so
 * that `remove_all_methods!` can take exactly those away again. Ruby's method tables are modelled
 * as maps from method name to method.
 */
module DynamicMethods {
  import opened Wrappers
  import opened Domain
  import opened RubyClasses

  datatype Visibility = Public | Protected | Private

  /** What a method does: the two generated accessors, or any other block. */
  datatype MethodBody =
    | ReadColumn(columnName: string, sqlType: ColumnType)   // { read_objectid_column(cn, t) }
    | WriteColumn(columnName: string, sqlType: ColumnType)  // { |x| write_objectid_column(cn, x, t) }
    | BlockBody(source: string)

  datatype Method = Method(body: MethodBody, visibility: Visibility)

  /** `instance_methods`: the names of the public and protected methods. */
  function VisibleNames(methods: map<string, Method>): set<string> {
    set n | n in methods && methods[n].visibility != Private
  }

  /** The method table left after removing every visible method whose name is tracked. */
  function RemoveTracked(methods: map<string, Method>, tracked: set<string>): (r: map<string, Method>)
    ensures forall n :: n in r <==> n in methods && (n !in tracked || methods[n].visibility == Private)
    ensures forall n | n in r :: r[n] == methods[n]
  {
    methods - (VisibleNames(methods) * tracked)
  }

  /** `const_defined?(name, false)` finds a truthy constant; it can never be the module being built. */
  predicate Collides(constants: map<string, Constant>, name: string) {
    name in constants && constants[name].Truthy()
  }

  /** The module `extend`ed onto the target class to hold its class methods. */
  class ClassMethodsModule {
    var methods: map<string, Method>

    constructor ()
      ensures methods == map[]
    {
      methods := map[];
    }
  }

  class DynamicMethodsModule {
    const targetClass: RubyClass
    const name: string
    const classMethodsModule: ClassMethodsModule
    var methods: map<string, Method>       // the module's own instance methods
    var methodsDefined: set<string>        // keys of `@methods_defined`
    var classMethodsDefined: set<string>   // keys of `@class_methods_defined`

    /** `@class_methods_defined` is never written after the constructor empties it. */
    ghost predicate Valid()
      reads this
    {
      classMethodsDefined == {}
    }

    /**
     * The part of the constructor after its checks: binds `<name>ClassMethods` and extends the
     * class with it, binds `<name>` to this module and includes it, empties both tracking tables
     * and evaluates the block, whose `def`s become untracked public methods.
     */
    constructor Bind(klass: RubyClass, sym: string, block: map<string, MethodBody>)
      modifies klass
      ensures Valid()
      ensures targetClass == klass && name == sym && fresh(classMethodsModule)
      ensures classMethodsModule.methods == map[]
      ensures methods == map n | n in block :: Method(block[n], Public)
      ensures methodsDefined == {}
      ensures klass.constants
        == old(klass.constants)[sym + "ClassMethods" := ObjectConstant(classMethodsModule)][sym := ObjectConstant(this)]
      ensures klass.extendedModules == old(klass.extendedModules) + [ModuleObject(classMethodsModule)]
      ensures klass.includedModules == old(klass.includedModules) + [ModuleObject(this)]
      ensures klass.columns == old(klass.columns)
    {
      targetClass := klass;
      name := sym;
      var cm := new ClassMethodsModule();
      classMethodsModule := cm;
      methodsDefined := {};
      classMethodsDefined := {};
      methods := map n | n in block :: Method(block[n], Public);
      new;
      klass.constants := klass.constants[sym + "ClassMethods" := ObjectConstant(cm)];
      klass.extendedModules := klass.extendedModules + [ModuleObject(cm)];
      klass.constants := klass.constants[sym := ObjectConstant(this)];
      klass.includedModules := klass.includedModules + [ModuleObject(this)];
    }

    /** `define_method`: a public method under the symbolized name, tracked for removal. */
    method DefineMethod(methodName: string, body: MethodBody)
      modifies this
      ensures methods == old(methods)[methodName := Method(body, Public)]
      ensures methodsDefined == old(methodsDefined) + {methodName}
      ensures classMethodsDefined == old(classMethodsDefined)
    {
      methods := methods[methodName := Method(body, Public)];
      methodsDefined := methodsDefined + {methodName};
    }

    /** `define_class_method`: defines on the class-methods module and tracks nothing. */
    method DefineClassMethod(methodName: string, body: MethodBody)
      modifies classMethodsModule
      ensures classMethodsModule.methods == old(classMethodsModule.methods)[methodName := Method(body, Public)]
    {
      classMethodsModule.methods := classMethodsModule.methods[methodName := Method(body, Public)];
    }

    /** `private(name)`, which the module makes public: hides a method, or raises NameError. */
    method MakePrivate(methodName: string) returns (r: Outcome<Error>)
      modifies this
      ensures r.Fail? <==> methodName !in old(methods)
      ensures r.Fail? ==> r.error == UndefinedMethodForVisibility(methodName) && methods == old(methods)
      ensures r.Pass? ==> methods == old(methods)[methodName := Method(old(methods)[methodName].body, Private)]
      ensures methodsDefined == old(methodsDefined) && classMethodsDefined == old(classMethodsDefined)
    {
      if methodName !in methods {
        return Fail(UndefinedMethodForVisibility(methodName));
      }
      methods := methods[methodName := Method(methods[methodName].body, Private)];
      r := Pass;
    }

    /**
     * `remove_all_methods!`: walks the public and protected instance methods and removes each one
     * that is tracked; then does the same on the class-methods module against
     * `@class_methods_defined`.
     */
    method RemoveAllMethods()
      modifies this, classMethodsModule
      ensures methods == RemoveTracked(old(methods), methodsDefined)
      ensures classMethodsModule.methods == RemoveTracked(old(classMethodsModule.methods), classMethodsDefined)
      ensures methodsDefined == old(methodsDefined) && classMethodsDefined == old(classMethodsDefined)
    {
      var pending := VisibleNames(methods);
      while pending != {}
        invariant pending <= VisibleNames(old(methods))
        invariant methods == old(methods) - ((VisibleNames(old(methods)) - pending) * methodsDefined)
        invariant methodsDefined == old(methodsDefined) && classMethodsDefined == old(classMethodsDefined)
        invariant classMethodsModule.methods == old(classMethodsModule.methods)
        decreases pending
      {
        var n :| n in pending;
        if n in methodsDefined {
          methods := methods - {n};
        }
        pending := pending - {n};
      }
      var classPending := VisibleNames(classMethodsModule.methods);
      ghost var classBefore := classMethodsModule.methods;
      while classPending != {}
        invariant classPending <= VisibleNames(classBefore)
        invariant classMethodsModule.methods
          == classBefore - ((VisibleNames(classBefore) - classPending) * classMethodsDefined)
        invariant methods == RemoveTracked(old(methods), methodsDefined)
        invariant methodsDefined == old(methodsDefined) && classMethodsDefined == old(classMethodsDefined)
        decreases classPending
      {
        var n :| n in classPending;
        if n in classMethodsDefined {
          classMethodsModule.methods := classMethodsModule.methods - {n};
        }
        classPending := classPending - {n};
      }
    }
  }

  /** `name.to_sym` for a Symbol or String; anything else raises ArgumentError. */
  function ModuleName(arg: NameArg): (r: Result<string, Error>)
    ensures r.Ok? <==> !arg.OtherName?
    ensures arg.SymbolName? ==> r == Ok(arg.sym)
    ensures arg.StringName? ==> r == Ok(arg.str)
    ensures r.Err? ==> r.error == InvalidModuleName(arg.inspect) && r.error.Raises() == ArgumentError
  {
    match arg
    case SymbolName(s) => Ok(s)
    case StringName(s) => Ok(s)
    case OtherName(inspect) => Err(InvalidModuleName(inspect))
  }

  /**
   * `DynamicMethodsModule.new(target_class, name, &block)`: checks that the target is a Class and
   * the name a Symbol or String, that the name is a constant name, and that the class does not
   * already hold a truthy constant of that name; then binds and includes the new module.
   */
  method New(target: TargetArg, nameArg: NameArg, block: map<string, MethodBody>)
    returns (r: Result<DynamicMethodsModule, Error>)
    modifies if target.ClassTarget? then {target.klass} else {}
    ensures target.NonClassTarget? ==> r == Err(NotAClass(target.inspect))
    ensures target.ClassTarget? && nameArg.OtherName? ==> r == Err(InvalidModuleName(nameArg.inspect))
    ensures target.ClassTarget? && ModuleName(nameArg).Ok? ==>
      var sym := ModuleName(nameArg).value;
      && (!IsConstantName(sym) ==> r == Err(WrongConstantName(sym)))
      && (IsConstantName(sym) && Collides(old(target.klass.constants), sym) ==> r == Err(ConstantAlreadyDefined(sym)))
      && (r.Ok? <==> IsConstantName(sym) && !Collides(old(target.klass.constants), sym))
    ensures r.Err? && target.ClassTarget? ==> unchanged(target.klass)
    ensures r.Ok? ==>
      var m := r.value;
      && fresh(m) && fresh(m.classMethodsModule) && m.Valid()
      && m.targetClass == target.klass && m.name == ModuleName(nameArg).value
      && m.methods == (map n | n in block :: Method(block[n], Public))
      && m.methodsDefined == {} && m.classMethodsModule.methods == map[]
      && target.klass.constants == old(target.klass.constants)
           [m.name + "ClassMethods" := ObjectConstant(m.classMethodsModule)][m.name := ObjectConstant(m)]
      && target.klass.includedModules == old(target.klass.includedModules) + [ModuleObject(m)]
      && target.klass.extendedModules == old(target.klass.extendedModules) + [ModuleObject(m.classMethodsModule)]
      && target.klass.columns == old(target.klass.columns)
  {
    if target.NonClassTarget? {
      return Err(NotAClass(target.inspect));
    }
    var klass := target.klass;
    var named := ModuleName(nameArg);
    if named.Err? {
      return Err(named.error);
    }
    var sym := named.value;
    if !IsConstantName(sym) {
      return Err(WrongConstantName(sym));
    }
    if Collides(klass.constants, sym) {
      return Err(ConstantAlreadyDefined(sym));
    }
    var m := new DynamicMethodsModule.Bind(klass, sym, block);
    r := Ok(m);
  }

  /** Removing twice removes nothing more: what survives a removal is untracked or private. */
  lemma RemoveTrackedIdempotent(methods: map<string, Method>, tracked: set<string>)
    ensures RemoveTracked(RemoveTracked(methods, tracked), tracked) == RemoveTracked(methods, tracked)
  {
  }
}
