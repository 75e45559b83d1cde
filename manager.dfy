/**
 * `ObjectidColumnsManager` (lib/objectid_columns/objectid_columns_manager.rb): the per-class
 * registry of ObjectId columns. Declaring columns resolves the names against the class's schema,
 * records one `ObjectidColumn` per column in a Hash keyed by name (insertion ordered), then
 * regenerates the accessor methods from scratch in the class's dynamic-methods module.
 */
module Manager {
  import opened Wrappers
  import opened Domain
  import opened RubyClasses
  import opened DynamicMethods
  import opened Column

  // ---------------------------------------------------------------------------------------------
  // Argument normalisation: `c.to_s.strip` and `uniq`

  /** The characters `String#strip` removes: NUL, tab, line feed, vertical tab, form feed, CR, space. */
  predicate IsStripSpace(c: char) {
    c as int == 0 || c as int == 9 || c as int == 10 || c as int == 11 || c as int == 12
    || c as int == 13 || c as int == 32
  }

  /** How many whitespace characters `s` starts with. */
  function LeadingSpaces(s: string): (n: nat)
    ensures n <= |s|
    ensures forall i | 0 <= i < n :: IsStripSpace(s[i])
    ensures n < |s| ==> !IsStripSpace(s[n])
  {
    if s != [] && IsStripSpace(s[0]) then 1 + LeadingSpaces(s[1..]) else 0
  }

  /** `lstrip`: the longest suffix that does not start with whitespace. */
  function LStrip(s: string): (r: string)
    ensures |r| <= |s| && r == s[|s| - |r|..]
    ensures |r| == |s| - LeadingSpaces(s)
    ensures r == [] || !IsStripSpace(r[0])
    ensures forall i | 0 <= i < |s| - |r| :: IsStripSpace(s[i])
  {
    if s != [] && IsStripSpace(s[0]) then LStrip(s[1..]) else s
  }

  /** `rstrip`: the longest prefix that does not end with whitespace. */
  function RStrip(s: string): (r: string)
    ensures |r| <= |s| && r == s[..|r|]
    ensures r == [] || !IsStripSpace(r[|r| - 1])
    ensures forall i | |r| <= i < |s| :: IsStripSpace(s[i])
  {
    if s != [] && IsStripSpace(s[|s| - 1]) then RStrip(s[..|s| - 1]) else s
  }

  /**
   * `strip`: the slice of `s` left once the whitespace at both ends is removed; it is empty when
   * `s` is all whitespace, and otherwise starts and ends with a non-whitespace character.
   */
  function Strip(s: string): (r: string)
    ensures |r| <= |s|
    ensures var lo := LeadingSpaces(s);
      && lo + |r| <= |s|
      && r == s[lo..lo + |r|]
      && (forall i | lo + |r| <= i < |s| :: IsStripSpace(s[i]))
    ensures r == [] || (!IsStripSpace(r[0]) && !IsStripSpace(r[|r| - 1]))
    ensures r == [] <==> forall i | 0 <= i < |s| :: IsStripSpace(s[i])
  {
    var l := LStrip(s);
    var r := RStrip(l);
    var lo := LeadingSpaces(s);
    assert l == s[lo..];
    assert r == l[..|r|];
    assert s[lo..lo + |r|] == r;
    r
  }

  /** A name with no whitespace at either end is left as it is. */
  lemma StripKeepsTrimmed(s: string)
    requires s == [] || (!IsStripSpace(s[0]) && !IsStripSpace(s[|s| - 1]))
    ensures Strip(s) == s
  {
  }

  /** Stripping twice is stripping once. */
  lemma StripIdempotent(s: string)
    ensures Strip(Strip(s)) == Strip(s)
  {
    StripKeepsTrimmed(Strip(s));
  }

  predicate Distinct<T(==)>(xs: seq<T>) {
    forall i, j | 0 <= i < j < |xs| :: xs[i] != xs[j]
  }

  /** `uniq`: the first occurrence of every element, in order. */
  function Uniq(xs: seq<string>): (r: seq<string>)
    ensures forall x :: x in r <==> x in xs
    ensures Distinct(r)
    ensures |r| <= |xs|
    decreases |xs|
  {
    if xs == [] then []
    else
      var kept := Uniq(xs[..|xs| - 1]);
      var x := xs[|xs| - 1];
      if x in kept then kept else kept + [x]
  }

  /** Where `x` first occurs in `xs`. */
  function FirstIndex<T(==)>(xs: seq<T>, x: T): (i: nat)
    requires x in xs
    ensures i < |xs| && xs[i] == x
    ensures forall j | 0 <= j < i :: xs[j] != x
  {
    if xs[0] == x then 0 else 1 + FirstIndex(xs[1..], x)
  }

  /** Appending an element does not move the first occurrence of anything already there. */
  lemma FirstIndexOfPrefix<T>(xs: seq<T>, y: T, x: T)
    requires x in xs
    ensures FirstIndex(xs + [y], x) == FirstIndex(xs, x)
  {
    var a, b := FirstIndex(xs + [y], x), FirstIndex(xs, x);
    assert (xs + [y])[b] == x;
  }

  /**
   * `uniq` keeps each element where it first occurs: its elements come in the order of their
   * first occurrences in `xs`.
   */
  lemma {:induction false} UniqKeepsFirstOccurrenceOrder(xs: seq<string>)
    ensures forall i, j | 0 <= i < j < |Uniq(xs)| :: FirstIndex(xs, Uniq(xs)[i]) < FirstIndex(xs, Uniq(xs)[j])
    decreases |xs|
  {
    if xs != [] {
      var init := xs[..|xs| - 1];
      var y := xs[|xs| - 1];
      var kept := Uniq(init);
      assert init + [y] == xs;
      UniqKeepsFirstOccurrenceOrder(init);
      forall x | x in init ensures FirstIndex(xs, x) == FirstIndex(init, x) {
        FirstIndexOfPrefix(init, y, x);
      }
      if y !in kept {
        assert y !in init;
        assert FirstIndex(xs, y) == |init|;
        forall i | 0 <= i < |kept| ensures FirstIndex(xs, kept[i]) < FirstIndex(xs, y) {
          assert kept[i] in init;
        }
      }
    }
  }

  /** A list without repeats comes back unchanged. */
  lemma {:induction false} UniqOfDistinct(xs: seq<string>)
    requires Distinct(xs)
    ensures Uniq(xs) == xs
    decreases |xs|
  {
    if xs != [] {
      var init := xs[..|xs| - 1];
      UniqOfDistinct(init);
      assert xs[|xs| - 1] !in init;
      assert init + [xs[|xs| - 1]] == xs;
    }
  }

  /** The stripped `to_s` of every argument. */
  function StripAll(args: seq<string>): (r: seq<string>)
    ensures |r| == |args| && forall i | 0 <= i < |args| :: r[i] == Strip(args[i])
  {
    seq(|args|, i requires 0 <= i < |args| => Strip(args[i]))
  }

  // ---------------------------------------------------------------------------------------------
  // Column resolution against the schema

  function NamesOf(table: seq<ColumnObject>): (r: seq<string>)
    ensures |r| == |table| && forall i | 0 <= i < |table| :: r[i] == table[i].name
  {
    seq(|table|, i requires 0 <= i < |table| => table[i].name)
  }

  /** `columns.select { |c| names.include?(c.name) }`, in schema order. */
  function SelectNamed(table: seq<ColumnObject>, names: seq<string>): (r: seq<ColumnObject>)
    ensures forall c :: c in r <==> c in table && c.name in names
    ensures |r| <= |table|
  {
    if table == [] then []
    else (if table[0].name in names then [table[0]] else []) + SelectNamed(table[1..], names)
  }

  /** Array difference `names - present`, in order. */
  function Missing(names: seq<string>, present: seq<string>): (r: seq<string>)
    ensures forall x :: x in r <==> x in names && x !in present
    ensures |r| <= |names|
  {
    if names == [] then []
    else (if names[0] in present then [] else [names[0]]) + Missing(names[1..], present)
  }

  /** The pattern `/_oid$/i` matches at `i`: `_oid` in any case, then the end of a line. */
  predicate OidSuffixAt(s: string, i: int)
    requires 0 <= i && i + 4 <= |s|
  {
    && s[i] == '_'
    && (s[i + 1] == 'o' || s[i + 1] == 'O')
    && (s[i + 2] == 'i' || s[i + 2] == 'I')
    && (s[i + 3] == 'd' || s[i + 3] == 'D')
    && (i + 4 == |s| || s[i + 4] == '\n')
  }

  /** `name =~ /_oid$/i`, with `$` matching at the end of any line. */
  predicate MatchesOidSuffix(s: string)
    ensures MatchesOidSuffix(s) ==> |s| >= 4
    ensures |s| >= 4 && OidSuffixAt(s, |s| - 4) ==> MatchesOidSuffix(s)
  {
    exists i | 0 <= i && i + 4 <= |s| :: OidSuffixAt(s, i)
  }

  /** On a name without line breaks the pattern tests the last four characters. */
  lemma SingleLineOidSuffix(s: string)
    requires '\n' !in s
    ensures MatchesOidSuffix(s) <==> |s| >= 4 && OidSuffixAt(s, |s| - 4)
  {
    if MatchesOidSuffix(s) {
      var i :| 0 <= i && i + 4 <= |s| && OidSuffixAt(s, i);
      assert i + 4 == |s|;
    }
  }

  /** `autodetect_columns`: the names of the schema columns that end in `_oid`, in schema order. */
  function Autodetect(table: seq<ColumnObject>): (r: seq<string>)
    ensures |r| <= |table|
    ensures forall i | 0 <= i < |r| :: MatchesOidSuffix(r[i]) && r[i] in NamesOf(table)
    ensures forall c | c in table && MatchesOidSuffix(c.name) :: c.name in r
  {
    if table == [] then []
    else
      var rest := Autodetect(table[1..]);
      assert forall n | n in NamesOf(table[1..]) :: n in NamesOf(table) by {
        forall n | n in NamesOf(table[1..]) ensures n in NamesOf(table) {
          var k :| 0 <= k < |table| - 1 && NamesOf(table[1..])[k] == n;
          assert NamesOf(table)[k + 1] == n;
        }
      }
      if MatchesOidSuffix(table[0].name) then [table[0].name] + rest else rest
  }

  /** The names a declaration asks for: the arguments, or the autodetected ones when there are none. */
  function Requested(table: seq<ColumnObject>, args: seq<string>): seq<string> {
    if |args| == 0 then Autodetect(table) else args
  }

  lemma NamesOfAppend(a: seq<ColumnObject>, b: seq<ColumnObject>)
    ensures NamesOf(a + b) == NamesOf(a) + NamesOf(b)
  {
  }

  /** The selected columns' names are the requested names that are columns. */
  lemma {:induction false} NamesOfSelected(table: seq<ColumnObject>, names: seq<string>)
    ensures forall n :: n in NamesOf(SelectNamed(table, names)) <==> n in names && n in NamesOf(table)
  {
    if table != [] {
      NamesOfSelected(table[1..], names);
      var head := if table[0].name in names then [table[0]] else [];
      NamesOfAppend(head, SelectNamed(table[1..], names));
      NamesOfAppend([table[0]], table[1..]);
      assert [table[0]] + table[1..] == table;
    }
  }

  /**
   * The first half of `to_objectid_columns`: normalise the names, pick the schema columns they
   * name, and raise ArgumentError listing every name that is not a column.
   */
  function ResolveColumnObjects(table: seq<ColumnObject>, args: seq<string>): (r: Result<seq<ColumnObject>, Error>)
    ensures r.Ok? <==> forall n | n in StripAll(args) :: n in NamesOf(table)
    ensures r.Ok? ==> forall c :: c in r.value <==> c in table && c.name in StripAll(args)
    ensures r.Ok? ==> |r.value| <= |table|
    ensures r.Ok? ==> r.value == SelectNamed(table, StripAll(args))
    ensures r.Err? ==> (&& r.error.MissingColumns? && r.error.names != []
                        && forall n | n in r.error.names :: n in StripAll(args) && n !in NamesOf(table))
    ensures r.Err? ==> forall n | n in StripAll(args) && n !in NamesOf(table) :: n in r.error.names
  {
    var names := Uniq(StripAll(args));
    var objects := SelectNamed(table, names);
    var missing := Missing(names, NamesOf(objects));
    NamesOfSelected(table, names);
    assert missing == [] <==> forall n | n in names :: n in NamesOf(table) by {
      if missing != [] {
        assert missing[0] in missing;
      }
    }
    SelectNamedDependsOnMembers(table, names, StripAll(args));
    if |missing| > 0 then Err(MissingColumns(missing)) else Ok(objects)
  }

  /** Building an `ObjectidColumn` for each column object in order; the first failure raises. */
  function NewAll(objects: seq<ColumnObject>): (r: Result<seq<ObjectidColumn>, Error>)
    ensures r.Ok? <==> forall c | c in objects :: Acceptable(c)
    ensures r.Ok? ==> |r.value| == |objects| && forall i | 0 <= i < |objects| :: r.value[i].columnObject == objects[i]
    ensures r.Err? ==> exists i | 0 <= i < |objects| ::
      && (forall j | 0 <= j < i :: Acceptable(objects[j]))
      && NewObjectidColumn(objects[i]) == Err(r.error)
  {
    if objects == [] then Ok([])
    else
      match NewObjectidColumn(objects[0])
      case Err(e) => Err(e)
      case Ok(first) =>
        match NewAll(objects[1..])
        case Err(e) =>
          var i :| 0 <= i < |objects| - 1 && (forall j | 0 <= j < i :: Acceptable(objects[1..][j]))
            && NewObjectidColumn(objects[1..][i]) == Err(e);
          assert (forall j | 0 <= j < i + 1 :: Acceptable(objects[j])) && NewObjectidColumn(objects[i + 1]) == Err(e);
          Err(e)
        case Ok(rest) => Ok([first] + rest)
  }

  /**
   * `to_objectid_columns` as written: it builds each column with `ObjectidColumn.new(column_object)`,
   * one argument, against a two-parameter constructor, so Ruby raises ArgumentError on the first
   * column before any check of the column itself.
   */
  function ToObjectidColumnsAsWritten(table: seq<ColumnObject>, args: seq<string>): (r: Result<seq<ObjectidColumn>, Error>)
    ensures r.Ok? ==> r.value == []
  {
    match ResolveColumnObjects(table, args)
    case Err(e) => Err(e)
    case Ok(objects) => if objects == [] then Ok([]) else Err(WrongNumberOfArguments(1, 2))
  }

  /**
   * As written, every declaration that names at least one existing column raises
   * "wrong number of arguments (given 1, expected 2)", whatever the column's type and limit.
   */
  lemma AsWrittenRejectsEveryResolvedColumn(table: seq<ColumnObject>, args: seq<string>)
    requires args != [] && ResolveColumnObjects(table, args).Ok?
    ensures ToObjectidColumnsAsWritten(table, args) == Err(WrongNumberOfArguments(1, 2))
  {
    var objects := ResolveColumnObjects(table, args).value;
    var n := StripAll(args)[0];
    assert n in StripAll(args);
    var j :| 0 <= j < |table| && NamesOf(table)[j] == n;
    assert table[j].name == n;
    assert table[j] in objects;
  }

  /** A binary column of exactly twelve bytes is the textbook ObjectId column, and it is refused. */
  lemma AsWrittenRejectsValidBinaryColumn()
    ensures var table := [ColumnObject("some_oid", BinaryType, Some(12))];
      && ToObjectidColumnsAsWritten(table, ["some_oid"]).Err?
      && ToObjectidColumns(table, ["some_oid"]) == Ok([ObjectidColumn(table[0])])
  {
    var table := [ColumnObject("some_oid", BinaryType, Some(12))];
    var args := ["some_oid"];
    SomeOidResolves();
    NewAllOfOne(table[0]);
    AsWrittenRejectsEveryResolvedColumn(table, args);
  }

  /** The name `some_oid` resolves to its own column. */
  lemma SomeOidResolves()
    ensures var table := [ColumnObject("some_oid", BinaryType, Some(12))];
      ResolveColumnObjects(table, ["some_oid"]) == Ok(table)
  {
    StripKeepsTrimmed("some_oid");
    ResolveOwnName(ColumnObject("some_oid", BinaryType, Some(12)));
  }

  /** A column whose name needs no stripping resolves to itself when named alone. */
  lemma ResolveOwnName(c: ColumnObject)
    requires Strip(c.name) == c.name
    ensures ResolveColumnObjects([c], [c.name]) == Ok([c])
  {
    StripAllOfTrimmed(c.name);
    ResolveOwnStrippedName(c);
  }

  lemma StripAllOfTrimmed(x: string)
    requires Strip(x) == x
    ensures StripAll([x]) == [x]
  {
    var r := StripAll([x]);
    assert |r| == 1 && r[0] == x;
  }

  lemma ResolveOwnStrippedName(c: ColumnObject)
    requires StripAll([c.name]) == [c.name]
    ensures ResolveColumnObjects([c], [c.name]) == Ok([c])
  {
    var args := [c.name];
    assert forall n | n in StripAll(args) :: n in NamesOf([c]) by {
      assert NamesOf([c])[0] == c.name;
    }
    SelectNamedOfOne(c, args);
  }

  lemma NewAllOfOne(c: ColumnObject)
    requires Acceptable(c)
    ensures NewAll([c]) == Ok([ObjectidColumn(c)])
  {
    assert [c][1..] == [];
    assert NewObjectidColumn(c) == Ok(ObjectidColumn(c));
    assert [ObjectidColumn(c)] + [] == [ObjectidColumn(c)];
  }

  /** A successful wrap holds exactly one `ObjectidColumn` per column object. */
  lemma NewAllWraps(objects: seq<ColumnObject>)
    requires NewAll(objects).Ok?
    ensures forall c | c in objects :: ObjectidColumn(c) in NewAll(objects).value
    ensures forall oc | oc in NewAll(objects).value :: oc.columnObject in objects
  {
    var made := NewAll(objects).value;
    forall c | c in objects ensures ObjectidColumn(c) in made {
      var i :| 0 <= i < |objects| && objects[i] == c;
      assert made[i] == ObjectidColumn(c);
    }
    forall oc | oc in made ensures oc.columnObject in objects {
      var i :| 0 <= i < |made| && made[i] == oc;
      assert oc.columnObject == objects[i];
    }
  }

  /**
   * `to_objectid_columns` with the manager passed as the constructor's first argument: resolve
   * the names, then validate and wrap every column object in schema order.
   */
  function ToObjectidColumns(table: seq<ColumnObject>, args: seq<string>): (r: Result<seq<ObjectidColumn>, Error>)
    ensures r.Ok? <==> (&& ResolveColumnObjects(table, args).Ok?
                        && forall c | c in ResolveColumnObjects(table, args).value :: Acceptable(c))
    ensures r.Ok? ==> forall oc | oc in r.value :: oc.columnObject in table && oc.ColumnName() in StripAll(args)
    ensures r.Ok? ==> forall c | c in table && c.name in StripAll(args) :: ObjectidColumn(c) in r.value
    ensures ResolveColumnObjects(table, args).Err? ==> r == Err(ResolveColumnObjects(table, args).error)
    ensures ResolveColumnObjects(table, args).Ok? ==> r == NewAll(ResolveColumnObjects(table, args).value)
  {
    match ResolveColumnObjects(table, args)
    case Err(e) => Err(e)
    case Ok(objects) =>
      var made := NewAll(objects);
      if made.Ok? then NewAllWraps(objects); made else made
  }

  lemma {:induction false} NewAllRaises(objects: seq<ColumnObject>)
    requires NewAll(objects).Err?
    ensures NewAll(objects).error.Raises() in {ArgumentError, NoMethodError}
  {
    if NewObjectidColumn(objects[0]).Ok? {
      NewAllRaises(objects[1..]);
    }
  }

  /**
   * A failed conversion raises ArgumentError, except that a column with a nil limit raises the
   * NoMethodError of `nil >= min_limit`; missing names always give ArgumentError.
   */
  lemma ToObjectidColumnsRaises(table: seq<ColumnObject>, args: seq<string>)
    requires ToObjectidColumns(table, args).Err?
    ensures ToObjectidColumns(table, args).error.Raises() in {ArgumentError, NoMethodError}
    ensures ResolveColumnObjects(table, args).Err? ==> ToObjectidColumns(table, args).error.Raises() == ArgumentError
  {
    var resolved := ResolveColumnObjects(table, args);
    if resolved.Ok? {
      NewAllRaises(resolved.value);
    } else {
      var e := resolved.error;
      assert e.MissingColumns?;
      MissingColumnsRaise(e);
    }
  }

  lemma MissingColumnsRaise(e: Error)
    requires e.MissingColumns?
    ensures e.Raises() == ArgumentError
  {
  }

  /** Only the set of stripped names matters: argument order and repetition change nothing. */
  lemma ResolutionIgnoresOrderAndRepeats(table: seq<ColumnObject>, args: seq<string>, args': seq<string>)
    requires forall n :: n in StripAll(args) <==> n in StripAll(args')
    ensures ResolveColumnObjects(table, args).Ok? == ResolveColumnObjects(table, args').Ok?
    ensures ResolveColumnObjects(table, args).Ok? ==> ResolveColumnObjects(table, args) == ResolveColumnObjects(table, args')
    ensures ToObjectidColumns(table, args) == ToObjectidColumns(table, args') || ToObjectidColumns(table, args).Err?
  {
    SelectNamedDependsOnMembers(table, Uniq(StripAll(args)), Uniq(StripAll(args')));
    NamesOfSelected(table, Uniq(StripAll(args)));
    NamesOfSelected(table, Uniq(StripAll(args')));
  }

  /**
   * `select` keeps the table's order: selecting from two tables one after the other is selecting
   * from their concatenation.
   */
  lemma {:induction false} SelectNamedAppend(a: seq<ColumnObject>, b: seq<ColumnObject>, names: seq<string>)
    ensures SelectNamed(a + b, names) == SelectNamed(a, names) + SelectNamed(b, names)
  {
    if a == [] {
      assert a + b == b;
    } else {
      var head := if a[0].name in names then [a[0]] else [];
      SelectNamedAppend(a[1..], b, names);
      assert (a + b)[0] == a[0];
      assert (a + b)[1..] == a[1..] + b;
      calc {
        SelectNamed(a + b, names);
        head + SelectNamed(a[1..] + b, names);
        head + (SelectNamed(a[1..], names) + SelectNamed(b, names));
        (head + SelectNamed(a[1..], names)) + SelectNamed(b, names);
      }
    }
  }

  /** A single column is kept exactly when it is named. */
  lemma SelectNamedOfOne(c: ColumnObject, names: seq<string>)
    ensures SelectNamed([c], names) == if c.name in names then [c] else []
  {
    assert [c][1..] == [];
  }

  lemma {:induction false} SelectNamedDependsOnMembers(table: seq<ColumnObject>, names: seq<string>, names': seq<string>)
    requires forall n :: n in names <==> n in names'
    ensures SelectNamed(table, names) == SelectNamed(table, names')
  {
    if table != [] {
      SelectNamedDependsOnMembers(table[1..], names, names');
    }
  }

  // ---------------------------------------------------------------------------------------------
  // The registry `@oid_columns`: a Hash from column name to ObjectidColumn, insertion ordered

  /** The registry's entries, and its keys in insertion order. */
  datatype Registry = Registry(columns: map<string, ObjectidColumn>, order: seq<string>)

  /** Every key appears once in the order, and each entry is filed under its column's name. */
  predicate WellFormed(g: Registry) {
    && Distinct(g.order)
    && g.columns.Keys == (set n | n in g.order)
    && (forall n | n in g.columns :: g.columns[n].ColumnName() == n)
  }

  const EmptyRegistry := Registry(map[], [])

  /**
   * `oid_columns[name] = column`: the entry under the column's name becomes the column and every
   * other entry stays; a new key goes last, an existing key keeps its place.
   */
  function Put(g: Registry, c: ObjectidColumn): (r: Registry)
    ensures c.ColumnName() in r.columns && r.columns[c.ColumnName()] == c
    ensures forall n | n != c.ColumnName() ::
      (n in r.columns <==> n in g.columns) && (n in g.columns ==> r.columns[n] == g.columns[n])
    ensures c.ColumnName() in g.columns ==> r.order == g.order
    ensures c.ColumnName() !in g.columns ==> r.order == g.order + [c.ColumnName()]
    ensures WellFormed(g) ==> WellFormed(r)
  {
    var n := c.ColumnName();
    Registry(g.columns[n := c], if n in g.columns then g.order else g.order + [n])
  }

  /** The `each` loop of `has_objectid_columns`: the columns stored one after another. */
  function RecordAll(g: Registry, cs: seq<ObjectidColumn>): (r: Registry)
    ensures WellFormed(g) ==> WellFormed(r)
    ensures g.order <= r.order
    ensures forall n | n in g.columns :: n in r.columns
    ensures forall c | c in cs :: c.ColumnName() in r.columns
    decreases |cs|
  {
    if cs == [] then g else Put(RecordAll(g, cs[..|cs| - 1]), cs[|cs| - 1])
  }

  /** For each name among `cs`, the last column of that name. */
  function LastByName(cs: seq<ObjectidColumn>): map<string, ObjectidColumn>
    decreases |cs|
  {
    if cs == [] then map[] else LastByName(cs[..|cs| - 1])[cs[|cs| - 1].ColumnName() := cs[|cs| - 1]]
  }

  /** Storing columns overwrites each name with the last column of that name. */
  lemma {:induction false} RecordAllEntries(g: Registry, cs: seq<ObjectidColumn>)
    ensures RecordAll(g, cs).columns == g.columns + LastByName(cs)
    decreases |cs|
  {
    if cs != [] {
      var init := cs[..|cs| - 1];
      var last := cs[|cs| - 1];
      RecordAllEntries(g, init);
      var before := RecordAll(g, init);
      assert RecordAll(g, cs).columns == before.columns[last.ColumnName() := last];
      assert LastByName(cs) == LastByName(init)[last.ColumnName() := last];
      assert (g.columns + LastByName(init))[last.ColumnName() := last]
          == g.columns + LastByName(init)[last.ColumnName() := last];
    }
  }

  /** Storing only names already present leaves the key order as it was. */
  lemma {:induction false} RecordAllKnownNames(g: Registry, cs: seq<ObjectidColumn>)
    requires forall c | c in cs :: c.ColumnName() in g.columns
    ensures RecordAll(g, cs).order == g.order
    decreases |cs|
  {
    if cs != [] {
      var init := cs[..|cs| - 1];
      assert forall c | c in init :: c in cs;
      RecordAllKnownNames(g, init);
      assert cs[|cs| - 1] in cs;
    }
  }

  /** Storing the same columns twice is storing them once. */
  lemma RecordAllIdempotent(g: Registry, cs: seq<ObjectidColumn>)
    ensures RecordAll(RecordAll(g, cs), cs) == RecordAll(g, cs)
  {
    var once := RecordAll(g, cs);
    RecordAllEntries(g, cs);
    RecordAllEntries(once, cs);
    RecordAllKnownNames(once, cs);
    assert once.columns + LastByName(cs) == once.columns;
  }

  /**
   * `has_objectid_columns(*columns)` on the registry: the requested (or autodetected) names are
   * resolved and validated as a whole, and only then stored; any failure stores nothing. It is
   * built on the corrected `ToObjectidColumns`. As written, `ObjectidColumn.new` gets one argument
   * too few, so every declaration naming an existing column raises ArgumentError
   * (`ToObjectidColumnsAsWritten`).
   */
  function Declare(g: Registry, table: seq<ColumnObject>, args: seq<string>): (r: Result<Registry, Error>)
    ensures r.Ok? && WellFormed(g) ==> WellFormed(r.value)
  {
    match ToObjectidColumns(table, Requested(table, args))
    case Err(e) => Err(e)
    case Ok(cs) => Ok(RecordAll(g, cs))
  }

  /**
   * A declaration succeeds exactly when every requested name is a valid ObjectId column; it then
   * keeps every earlier entry and its place, and registers every requested column. A failure
   * raises the resolution's or the validation's error.
   */
  lemma DeclareRegistersRequested(g: Registry, table: seq<ColumnObject>, args: seq<string>)
    ensures var r := Declare(g, table, args);
      && (r.Ok? <==> ToObjectidColumns(table, Requested(table, args)).Ok?)
      && (r.Ok? ==> g.order <= r.value.order && forall n | n in g.columns :: n in r.value.columns)
      && (r.Ok? ==> forall c | c in table && c.name in StripAll(Requested(table, args)) :: c.name in r.value.columns)
      && (r.Err? ==> r.error == ToObjectidColumns(table, Requested(table, args)).error)
  {
  }

  /** Declaring the same columns again changes nothing. */
  lemma DeclareIdempotent(g: Registry, table: seq<ColumnObject>, args: seq<string>)
    requires Declare(g, table, args).Ok?
    ensures Declare(Declare(g, table, args).value, table, args) == Declare(g, table, args)
  {
    RecordAllIdempotent(g, ToObjectidColumns(table, Requested(table, args)).value);
  }

  /** The registered columns in key order, as `oid_columns.each` visits them. */
  function InOrder(g: Registry): (r: seq<ObjectidColumn>)
    requires WellFormed(g)
    ensures |r| == |g.order| && forall i | 0 <= i < |r| :: r[i] == g.columns[g.order[i]]
  {
    seq(|g.order|, i requires 0 <= i < |g.order| => g.columns[g.order[i]])
  }

  // ---------------------------------------------------------------------------------------------
  // Regenerating the accessors: `install_methods!`

  /** The getter and setter names of the columns. */
  function AccessorNames(cols: seq<ObjectidColumn>): (r: set<string>)
    ensures forall c | c in cols :: c.ColumnName() in r && SetterName(c.ColumnName()) in r
    decreases |cols|
  {
    if cols == [] then {}
    else
      var c := cols[|cols| - 1];
      AccessorNames(cols[..|cols| - 1]) + {c.ColumnName(), SetterName(c.ColumnName())}
  }

  /** The accessor names are the columns' getter names and setter names, and nothing else. */
  lemma {:induction false} AccessorNamesExactly(cols: seq<ObjectidColumn>)
    ensures AccessorNames(cols) == (set c | c in cols :: c.ColumnName()) + (set c | c in cols :: SetterName(c.ColumnName()))
    decreases |cols|
  {
    if cols != [] {
      AccessorNamesExactly(cols[..|cols| - 1]);
    }
  }

  /** The method table after `install_methods!(dynamic_methods_module)` of one column. */
  function AddAccessors(methods: map<string, Method>, c: ObjectidColumn): map<string, Method> {
    methods[c.ColumnName() := Method(ReadColumn(c.ColumnName(), c.Type()), Public)]
           [SetterName(c.ColumnName()) := Method(WriteColumn(c.ColumnName(), c.Type()), Public)]
  }

  /** The method table after installing the accessors of each column in turn. */
  function InstallAll(methods: map<string, Method>, cols: seq<ObjectidColumn>): (r: map<string, Method>)
    ensures forall n :: n in r <==> n in methods || n in AccessorNames(cols)
    ensures forall n | n in methods && n !in AccessorNames(cols) :: r[n] == methods[n]
    decreases |cols|
  {
    if cols == [] then methods else AddAccessors(InstallAll(methods, cols[..|cols| - 1]), cols[|cols| - 1])
  }

  /** Installing one more column adds its accessors to what the shorter prefix installed. */
  lemma InstallStep(methods: map<string, Method>, cols: seq<ObjectidColumn>, j: nat)
    requires j < |cols|
    ensures InstallAll(methods, cols[..j + 1]) == AddAccessors(InstallAll(methods, cols[..j]), cols[j])
    ensures AccessorNames(cols[..j + 1])
      == AccessorNames(cols[..j]) + {cols[j].ColumnName(), SetterName(cols[j].ColumnName())}
  {
    assert cols[..j + 1][..j] == cols[..j];
  }

  /** A name that does not end in `=`, so it cannot be taken for another column's setter. */
  predicate NotSetterLike(n: string) {
    n == [] || n[|n| - 1] != '='
  }

  predicate DistinctNames(cols: seq<ObjectidColumn>) {
    forall i, j | 0 <= i < j < |cols| :: cols[i].ColumnName() != cols[j].ColumnName()
  }

  lemma SetterNameInjective(n: string, m: string)
    ensures SetterName(n) == SetterName(m) ==> n == m
  {
    assert SetterName(n)[..|n|] == n && SetterName(m)[..|m|] == m;
  }

  /** Column `i` ends up with its own getter and setter, bound to its name and type. */
  lemma {:induction false} InstallAllDefinesAccessorsOf(methods: map<string, Method>, cols: seq<ObjectidColumn>, i: nat)
    requires i < |cols| && DistinctNames(cols)
    requires forall c | c in cols :: NotSetterLike(c.ColumnName())
    ensures var n := cols[i].ColumnName();
      && InstallAll(methods, cols)[n] == Method(ReadColumn(n, cols[i].Type()), Public)
      && InstallAll(methods, cols)[SetterName(n)] == Method(WriteColumn(n, cols[i].Type()), Public)
    decreases |cols|
  {
    var init := cols[..|cols| - 1];
    var last := cols[|cols| - 1];
    if i < |cols| - 1 {
      InstallAllDefinesAccessorsOf(methods, init, i);
      var n := cols[i].ColumnName();
      var m := last.ColumnName();
      assert n != m;
      assert NotSetterLike(n) && NotSetterLike(m);
      assert SetterName(n)[|SetterName(n)| - 1] == '=';
      assert SetterName(m)[|SetterName(m)| - 1] == '=';
      SetterNameInjective(n, m);
    }
  }

  /** Every installed column ends up with its own getter and setter. */
  lemma InstallAllDefinesAccessors(methods: map<string, Method>, cols: seq<ObjectidColumn>)
    requires DistinctNames(cols)
    requires forall c | c in cols :: NotSetterLike(c.ColumnName())
    ensures forall c | c in cols ::
      && c.ColumnName() in InstallAll(methods, cols) && SetterName(c.ColumnName()) in InstallAll(methods, cols)
      && InstallAll(methods, cols)[c.ColumnName()] == Method(ReadColumn(c.ColumnName(), c.Type()), Public)
      && InstallAll(methods, cols)[SetterName(c.ColumnName())] == Method(WriteColumn(c.ColumnName(), c.Type()), Public)
  {
    forall c | c in cols
      ensures c.ColumnName() in InstallAll(methods, cols) && SetterName(c.ColumnName()) in InstallAll(methods, cols)
      ensures InstallAll(methods, cols)[c.ColumnName()] == Method(ReadColumn(c.ColumnName(), c.Type()), Public)
      ensures InstallAll(methods, cols)[SetterName(c.ColumnName())] == Method(WriteColumn(c.ColumnName(), c.Type()), Public)
    {
      var i :| 0 <= i < |cols| && cols[i] == c;
      InstallAllDefinesAccessorsOf(methods, cols, i);
    }
  }

  /**
   * The method table after `install_methods!`: tracked public and protected methods are gone,
   * every registered column has its getter and setter, and everything else is untouched.
   */
  lemma ReinstallCoversRegistry(g: Registry, methods: map<string, Method>, tracked: set<string>)
    requires WellFormed(g) && forall n | n in g.columns :: NotSetterLike(n)
    ensures var m := InstallAll(RemoveTracked(methods, tracked), InOrder(g));
      && (forall n | n in g.columns ::
            && m[n] == Method(ReadColumn(n, g.columns[n].Type()), Public)
            && m[SetterName(n)] == Method(WriteColumn(n, g.columns[n].Type()), Public))
      && (forall n | n in methods && n !in tracked && n !in AccessorNames(InOrder(g)) :: n in m && m[n] == methods[n])
      && (forall n | n in methods && n in tracked && methods[n].visibility != Private && n !in AccessorNames(InOrder(g))
            :: n !in m)
  {
    var cols := InOrder(g);
    InstallAllDefinesAccessors(RemoveTracked(methods, tracked), cols);
    forall n | n in g.columns ensures g.columns[n] in cols {
      var i :| 0 <= i < |g.order| && g.order[i] == n;
      assert cols[i] == g.columns[n];
    }
  }

  // ---------------------------------------------------------------------------------------------
  // The ancestry check

  /** Every strict ancestor sits lower in the chain, so a class is never its own ancestor. */
  lemma {:induction false} AncestorsAreStrict(c: RubyClass)
    requires c.ChainOk()
    ensures forall a | a in Ancestors(c) :: a.depth < c.depth
    ensures c !in Ancestors(c)
    decreases c.depth
  {
    if c.superclass != null {
      AncestorsAreStrict(c.superclass);
    }
  }

  /** `superclasses(klass)`: follows `superclass` until it is nil, nearest first. */
  method Superclasses(klass: RubyClass) returns (out: seq<RubyClass>)
    requires klass.ChainOk()
    ensures out == Ancestors(klass)
  {
    out := [];
    var k: RubyClass := klass;
    while k.superclass != null
      invariant k.ChainOk()
      invariant out + Ancestors(k) == Ancestors(klass)
      decreases k.depth
    {
      var next: RubyClass := k.superclass;
      assert Ancestors(k) == [next] + Ancestors(next);
      assert out + [next] + Ancestors(next) == out + ([next] + Ancestors(next));
      out := out + [next];
      k := next;
    }
  }

  /** The `each` loop of `install_methods!`: each column's accessors installed in turn. */
  method InstallEach(dmm: DynamicMethodsModule, cols: seq<ObjectidColumn>)
    modifies dmm
    ensures dmm.methods == InstallAll(old(dmm.methods), cols)
    ensures dmm.methodsDefined == old(dmm.methodsDefined) + AccessorNames(cols)
    ensures dmm.classMethodsDefined == old(dmm.classMethodsDefined)
  {
    var j := 0;
    while j < |cols|
      invariant 0 <= j <= |cols|
      invariant dmm.methods == InstallAll(old(dmm.methods), cols[..j])
      invariant dmm.methodsDefined == old(dmm.methodsDefined) + AccessorNames(cols[..j])
      invariant dmm.classMethodsDefined == old(dmm.classMethodsDefined)
    {
      Column.InstallMethods(cols[j], dmm);
      InstallStep(old(dmm.methods), cols, j);
      j := j + 1;
    }
    assert cols[..|cols|] == cols;
  }

  /** The constant the manager binds its dynamic-methods module to. */
  const DynamicMethodsName := "ObjectidColumnsDynamicMethods"

  /**
   * The class `k` once the manager's dynamic-methods module `dmm` is created in it, starting from
   * the given constant table and module lists: `ObjectidColumnsDynamicMethodsClassMethods` and
   * `ObjectidColumnsDynamicMethods` are bound, the class is extended with the first and includes
   * the second.
   */
  ghost predicate BindsDynamicMethods(k: RubyClass, constants: map<string, Constant>, included: seq<ModuleRef>,
                                      extended: seq<ModuleRef>, dmm: DynamicMethodsModule)
    reads k
  {
    && k.constants == constants[DynamicMethodsName + "ClassMethods" := ObjectConstant(dmm.classMethodsModule)]
                                [DynamicMethodsName := ObjectConstant(dmm)]
    && k.includedModules == included + [ModuleObject(dmm)]
    && k.extendedModules == extended + [ModuleObject(dmm.classMethodsModule)]
  }

  class ObjectidColumnsManager {
    const activeRecordClass: RubyClass
    const dynamicMethodsModule: DynamicMethodsModule
    var oidColumns: map<string, ObjectidColumn>
    var order: seq<string>  // the Hash's keys in insertion order

    ghost function Registered(): Registry
      reads this
    {
      Registry(oidColumns, order)
    }

    ghost predicate Valid()
      reads this, dynamicMethodsModule
    {
      && WellFormed(Registered())
      && dynamicMethodsModule.Valid()
      && dynamicMethodsModule.targetClass == activeRecordClass
    }

    /** The assignments of `initialize` after its checks. */
    constructor Init(klass: RubyClass, dmm: DynamicMethodsModule)
      requires dmm.Valid() && dmm.targetClass == klass
      ensures Valid() && Registered() == EmptyRegistry
      ensures activeRecordClass == klass && dynamicMethodsModule == dmm
    {
      activeRecordClass := klass;
      dynamicMethodsModule := dmm;
      oidColumns := map[];
      order := [];
    }

    /**
     * `ObjectidColumnsManager.new(active_record_class)`: the argument must be a Class with
     * ActiveRecord::Base among its superclasses; then the dynamic-methods module is created and
     * bound inside it.
     */
    static method New(target: TargetArg, activeRecordBase: RubyClass) returns (r: Result<ObjectidColumnsManager, Error>)
      requires target.ClassTarget? ==> target.klass.ChainOk()
      modifies if target.ClassTarget? then {target.klass} else {}
      ensures target.NonClassTarget? ==> r == Err(NotAClass(target.inspect))
      ensures target.ClassTarget? && activeRecordBase !in Ancestors(target.klass)
        ==> r == Err(NotAnActiveRecordClass(target.klass.name))
      ensures target.ClassTarget? && activeRecordBase in Ancestors(target.klass)
        ==> (r.Ok? <==> !Collides(old(target.klass.constants), DynamicMethodsName))
      ensures target.ClassTarget? && activeRecordBase in Ancestors(target.klass)
        && Collides(old(target.klass.constants), DynamicMethodsName)
        ==> r == Err(ConstantAlreadyDefined(DynamicMethodsName))
      ensures target.ClassTarget? && r.Err? ==> unchanged(target.klass)
      ensures r.Ok? ==>
        var m := r.value;
        && fresh(m) && fresh(m.dynamicMethodsModule) && fresh(m.dynamicMethodsModule.classMethodsModule)
        && m.Valid() && m.activeRecordClass == target.klass && m.Registered() == EmptyRegistry
        && m.dynamicMethodsModule.methods == map[] && m.dynamicMethodsModule.methodsDefined == {}
        && m.dynamicMethodsModule.classMethodsModule.methods == map[]
        && BindsDynamicMethods(target.klass, old(target.klass.constants), old(target.klass.includedModules),
                               old(target.klass.extendedModules), m.dynamicMethodsModule)
        && target.klass.columns == old(target.klass.columns)
    {
      if target.NonClassTarget? {
        return Err(NotAClass(target.inspect));
      }
      var klass := target.klass;
      var ancestors := Superclasses(klass);
      if activeRecordBase !in ancestors {
        return Err(NotAnActiveRecordClass(klass.name));
      }
      assert IsConstantName(DynamicMethodsName);
      var made := DynamicMethods.New(target, SymbolName(DynamicMethodsName), map[]);
      if made.Err? {
        return Err(made.error);
      }
      var m := new ObjectidColumnsManager.Init(klass, made.value);
      r := Ok(m);
    }

    /**
     * `install_methods!`: removes every tracked method, then installs the accessors of each
     * registered column in key order.
     */
    method InstallMethods()
      requires Valid()
      modifies dynamicMethodsModule, dynamicMethodsModule.classMethodsModule
      ensures Valid()
      ensures dynamicMethodsModule.methods
        == InstallAll(RemoveTracked(old(dynamicMethodsModule.methods), old(dynamicMethodsModule.methodsDefined)), InOrder(Registered()))
      ensures dynamicMethodsModule.methodsDefined
        == old(dynamicMethodsModule.methodsDefined) + AccessorNames(InOrder(Registered()))
      ensures dynamicMethodsModule.classMethodsModule.methods == old(dynamicMethodsModule.classMethodsModule.methods)
    {
      var dmm := dynamicMethodsModule;
      dmm.RemoveAllMethods();
      assert RemoveTracked(old(dmm.classMethodsModule.methods), {}) == old(dmm.classMethodsModule.methods);
      InstallEach(dmm, InOrder(Registry(oidColumns, order)));
    }

    /** The `each` loop storing the new columns under their names. */
    method Record(cs: seq<ObjectidColumn>)
      modifies this
      ensures Registered() == RecordAll(old(Registered()), cs)
    {
      var i := 0;
      while i < |cs|
        invariant 0 <= i <= |cs|
        invariant Registered() == RecordAll(old(Registered()), cs[..i])
      {
        var c := cs[i];
        if c.ColumnName() !in oidColumns {
          order := order + [c.ColumnName()];
        }
        oidColumns := oidColumns[c.ColumnName() := c];
        assert cs[..i + 1][..i] == cs[..i];
        i := i + 1;
      }
      assert cs[..|cs|] == cs;
    }

    /**
     * `has_objectid_columns(*columns)` (also `has_objectid_column`): declares the named columns,
     * or the autodetected ones when no name is given, then regenerates the accessors. The
     * declaration is all or nothing.
     */
    method HasObjectidColumns(args: seq<string>) returns (r: Outcome<Error>)
      requires Valid()
      modifies this, dynamicMethodsModule, dynamicMethodsModule.classMethodsModule
      ensures Valid()
      ensures var d := Declare(old(Registered()), activeRecordClass.columns, args);
        && (r.Pass? <==> d.Ok?)
        && (d.Err? ==> && r == Fail(d.error) && Registered() == old(Registered())
                       && unchanged(dynamicMethodsModule) && unchanged(dynamicMethodsModule.classMethodsModule))
        && (d.Ok? ==> && Registered() == d.value
                      && dynamicMethodsModule.methods
                           == InstallAll(RemoveTracked(old(dynamicMethodsModule.methods), old(dynamicMethodsModule.methodsDefined)),
                                         InOrder(d.value))
                      && dynamicMethodsModule.methodsDefined
                           == old(dynamicMethodsModule.methodsDefined) + AccessorNames(InOrder(d.value)))
      ensures dynamicMethodsModule.classMethodsModule.methods == old(dynamicMethodsModule.classMethodsModule.methods)
    {
      var requested := Requested(activeRecordClass.columns, args);
      var made := ToObjectidColumns(activeRecordClass.columns, requested);
      if made.Err? {
        return Fail(made.error);
      }
      assert Declare(old(Registered()), activeRecordClass.columns, args) == Ok(RecordAll(old(Registered()), made.value));
      Record(made.value);
      InstallMethods();
      r := Pass;
    }

    /** `objectid_column_object_for(name)`: the registered column of that name, or nil. */
    function ObjectidColumnObjectFor(columnName: string): (r: Option<ObjectidColumn>)
      requires WellFormed(Registry(oidColumns, order))
      reads this
      ensures r.Some? <==> columnName in order
      ensures r.Some? ==> r.value.ColumnName() == columnName
      ensures r.Some? ==> columnName in oidColumns && r.value == oidColumns[columnName]
    {
      if columnName in oidColumns then Some(oidColumns[columnName]) else None
    }
  }
}
