/**
 * The parts of a Ruby class object the library reads and changes: its constant table, the
 * modules it includes and extends, its superclass chain, and (for an ActiveRecord class) the
 * column list its schema reports.
 */
module RubyClasses {
  import opened Domain

  /** The value of a constant; only `nil` and `false` are falsy. */
  datatype Constant = NilConstant | FalseConstant | ObjectConstant(obj: object) {
    predicate Truthy() {
      ObjectConstant?
    }
  }

  /** A module included into or extended onto a class. */
  datatype ModuleRef = ModuleObject(obj: object) | LibraryModule(name: string)

  /** Something passed where a Class is expected. */
  datatype TargetArg = ClassTarget(klass: RubyClass) | NonClassTarget(inspect: string)

  /** Something passed where a Symbol or String is expected. */
  datatype NameArg = SymbolName(sym: string) | StringName(str: string) | OtherName(inspect: string)

  class RubyClass {
    const name: string
    const superclass: RubyClass?
    ghost const depth: nat  // length of the superclass chain; keeps the chain finite
    var constants: map<string, Constant>
    var includedModules: seq<ModuleRef>
    var extendedModules: seq<ModuleRef>
    var columns: seq<ColumnObject>  // `columns`, the schema as introspected

    /** Every class up the superclass chain is well formed. */
    ghost predicate ChainOk()
      decreases depth
    {
      superclass != null ==> superclass.depth < depth && superclass.ChainOk()
    }

    constructor (name: string, superclass: RubyClass?, columns: seq<ColumnObject>)
      requires superclass != null ==> superclass.ChainOk()
      ensures ChainOk()
      ensures this.name == name && this.superclass == superclass && this.columns == columns
      ensures constants == map[] && includedModules == [] && extendedModules == []
    {
      this.name := name;
      this.superclass := superclass;
      this.depth := if superclass == null then 0 else superclass.depth + 1;
      this.columns := columns;
      constants := map[];
      includedModules := [];
      extendedModules := [];
    }
  }

  /** The strict ancestors of `c`, nearest first. */
  ghost function Ancestors(c: RubyClass): seq<RubyClass>
    requires c.ChainOk()
    decreases c.depth
  {
    if c.superclass == null then [] else [c.superclass] + Ancestors(c.superclass)
  }

  /** Ruby's rule for a constant name: an upper-case letter, then letters, digits and underscores. */
  predicate IsConstantName(s: string) {
    && |s| > 0
    && 'A' <= s[0] <= 'Z'
    && forall i | 0 <= i < |s| ::
      'A' <= s[i] <= 'Z' || 'a' <= s[i] <= 'z' || '0' <= s[i] <= '9' || s[i] == '_'
  }
}
