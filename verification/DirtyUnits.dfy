/**
 * Which units must be emitted again (packages/live/src/dirty-units.ts: selectDirtyUnits), and
 * the forecast made from names alone (packages/live/src/proposal.ts: predictUnits).
 */
module DirtyUnits {
  import opened Prelude
  import opened Containment
  import opened HashCache

  datatype Module = Module(
    unitName: string, deps: Option<seq<string>>, ownedTypeNames: seq<string>, functionNames: seq<string>, globalAddresses: seq<nat>)

  /**
   * What the selection takes from elsewhere: hashes, the base name of a field's type, which
   * function clears a run of globals by which member's name, which functions may be `__finally`
   * funclets, and which call a function of a given name.
   */
  datatype Rules = Rules(
    hashing: Hashing, bare: BaseName, runReaders: (seq<Global>, seq<Fn>) -> seq<(string, string)>,
    isFunclet: Fn -> bool, calls: (Fn, string) -> bool)

  predicate Meets(names: seq<string>, s: set<string>) { exists n :: n in names && n in s }

  // ---------------------------------------------------------------------------
  // The four ways to be dirty
  // ---------------------------------------------------------------------------

  /** `reach`: the changed names and the types they reach through containment. */
  predicate Owns(m: Module, reach: set<string>, ch: Changes) {
    || Meets(m.functionNames, reach)
    || Meets(m.ownedTypeNames, reach + ch.orderMoved)
    || exists a :: a in m.globalAddresses && a in ch.addrs
  }

  predicate DependsOn(m: Module, reach: set<string>, ch: Changes) {
    m.deps.Some? && Meets(m.deps.value, reach + ch.valueTypes)
  }

  predicate Covers(g: Global, v: nat) { g.address <= v < g.address + if g.size > 0 then g.size else 1 }

  /** Inside a changed global as it is now, or the very address of one that is gone. */
  predicate InChanged(ch: Changes, globals: seq<Global>, v: nat) {
    || (exists g :: g in globals && g.address in ch.addrs && Covers(g, v))
    || (v in ch.addrs && forall g :: g in globals ==> g.address != v)
  }

  predicate ReadsInto(f: Fn, ch: Changes, globals: seq<Global>) { exists r :: r in f.refs && InChanged(ch, globals, r) }

  function ReaderNames(ch: Changes, p: Program): set<string> {
    if ch.addrs == {} then {} else set f | f in p.functions && ReadsInto(f, ch, p.globals) :: f.name
  }

  /** A funclet and every function that calls it, by name (`frameFuncletGroups`). */
  function FuncletGroup(rules: Rules, functions: seq<Fn>, funclet: Fn): set<string> {
    {funclet.name} + set f | f in functions && f != funclet && rules.calls(f, funclet.name) :: f.name
  }

  function GroupNames(rules: Rules, reach: set<string>, ch: Changes, p: Program): set<string> {
    if reach == {} then {} else
      (if ch.addrs == {} then {} else set pair | pair in rules.runReaders(p.globals, p.functions) && pair.1 in reach :: pair.0)
      + (set c, n | c in p.functions && rules.isFunclet(c) && n in FuncletGroup(rules, p.functions, c)
           && FuncletGroup(rules, p.functions, c) * reach != {} :: n)
  }

  predicate Dirty(m: Module, rules: Rules, reach: set<string>, ch: Changes, p: Program) {
    || Owns(m, reach, ch) || DependsOn(m, reach, ch)
    || Meets(m.functionNames, ReaderNames(ch, p)) || Meets(m.functionNames, GroupNames(rules, reach, ch, p))
  }

  function UnitsWhere(modules: seq<Module>, hit: Module -> bool): set<string> {
    set m | m in modules && hit(m) :: m.unitName
  }

  function Owning(reach: set<string>, ch: Changes): Module -> bool { (m: Module) => Owns(m, reach, ch) }

  function Depending(reach: set<string>, ch: Changes): Module -> bool { (m: Module) => DependsOn(m, reach, ch) }

  function Holding(names: set<string>): Module -> bool { (m: Module) => Meets(m.functionNames, names) }

  function DirtyUnitsOf(modules: seq<Module>, rules: Rules, reach: set<string>, ch: Changes, p: Program): set<string> {
    UnitsWhere(modules, Owning(reach, ch)) + UnitsWhere(modules, Depending(reach, ch))
    + UnitsWhere(modules, Holding(ReaderNames(ch, p))) + UnitsWhere(modules, Holding(GroupNames(rules, reach, ch, p)))
  }

  // ---------------------------------------------------------------------------
  // When nothing can be said
  // ---------------------------------------------------------------------------

  /** A module without dependency data whose unit nothing before it marked. */
  predicate Unexplained(modules: seq<Module>, i: nat, reach: set<string>, ch: Changes)
    requires i < |modules|
  {
    && modules[i].deps.None?
    && modules[i].unitName !in UnitsWhere(modules, Owning(reach, ch)) + UnitsWhere(modules[..i], Depending(reach, ch))
  }

  predicate HasUnknown(modules: seq<Module>, reach: set<string>, ch: Changes) {
    exists i :: 0 <= i < |modules| && Unexplained(modules, i, reach, ch)
  }

  /** A changed function that is there, is not a new name, and that no module claims. */
  predicate IsOrphan(n: string, ch: Changes, p: Program, modules: seq<Module>) {
    && n !in ch.gone && n !in ch.renamedTo
    && (exists f :: f in p.functions && f.name == n)
    && forall m :: m in modules ==> n !in m.functionNames
  }

  predicate HasOrphan(ch: Changes, p: Program, modules: seq<Module>) {
    exists n :: n in ch.changed && IsOrphan(n, ch, p, modules)
  }

  /** `units` None: everything is emitted again. */
  datatype Selection = Selection(units: Option<set<string>>, changedSymbols: set<string>, expandedTypes: set<string>)

  function Reach(rules: Rules, ch: Changes, p: Program): set<string> {
    ch.changed + Expanded(p.dataTypes, rules.bare, ch.typeNames)
  }

  function SelectionOf(rules: Rules, buildInfo: Option<seq<Module>>, previous: Option<Cache>, identCacheEmpty: bool, p: Program): Selection {
    if buildInfo.None? || previous.None? || identCacheEmpty then Selection(None, {}, {}) else
      var modules, ch := buildInfo.value, ChangesOf(rules.hashing, previous.value, p);
      if ch.changed == {} && ch.orderMoved == {} then Selection(Some({}), {}, {}) else
        var reach := Reach(rules, ch, p);
        var units := if HasUnknown(modules, reach, ch) || HasOrphan(ch, p, modules) then None
                     else Some(DirtyUnitsOf(modules, rules, reach, ch, p));
        Selection(units, ch.changed, Expanded(p.dataTypes, rules.bare, ch.typeNames))
  }

  // ---------------------------------------------------------------------------
  // The selection as it is made
  // ---------------------------------------------------------------------------

  lemma UnitsOneMore(modules: seq<Module>, i: nat, hit: Module -> bool)
    requires i < |modules|
    ensures UnitsWhere(modules[..i + 1], hit) == UnitsWhere(modules[..i], hit) + if hit(modules[i]) then {modules[i].unitName} else {}
  {
    assert modules[..i + 1] == modules[..i] + [modules[i]];
  }

  method MarkWhere(modules: seq<Module>, marked: set<string>, hit: Module -> bool) returns (dirty: set<string>)
    ensures dirty == marked + UnitsWhere(modules, hit)
  {
    dirty := marked;
    for i := 0 to |modules|
      invariant dirty == marked + UnitsWhere(modules[..i], hit)
    {
      UnitsOneMore(modules, i, hit);
      if modules[i].unitName !in dirty && hit(modules[i]) { dirty := dirty + {modules[i].unitName}; }
    }
    assert modules[..|modules|] == modules;
  }

  lemma DependingIs(m: Module, reach: set<string>, ch: Changes)
    ensures Depending(reach, ch)(m) <==> m.deps.Some? && Meets(m.deps.value, reach + ch.valueTypes)
  {
  }

  lemma UnexplainedIs(modules: seq<Module>, i: nat, owners: set<string>, dirty: set<string>, reach: set<string>, ch: Changes)
    requires i < |modules| && owners == UnitsWhere(modules, Owning(reach, ch))
    requires dirty == owners + UnitsWhere(modules[..i], Depending(reach, ch))
    ensures Unexplained(modules, i, reach, ch) <==> modules[i].unitName !in dirty && modules[i].deps.None?
  {
    hide UnitsWhere;
  }

  method MarkDependents(modules: seq<Module>, owners: set<string>, reach: set<string>, ch: Changes)
    returns (dirty: set<string>, unknown: seq<string>)
    requires owners == UnitsWhere(modules, Owning(reach, ch))
    ensures dirty == owners + UnitsWhere(modules, Depending(reach, ch))
    ensures unknown != [] <==> HasUnknown(modules, reach, ch)
  {
    NoUnits(modules, Depending(reach, ch));
    hide UnitsWhere, Meets, Owning, Unexplained, Owns, Depending, DependsOn;
    dirty, unknown := owners, [];
    for i := 0 to |modules|
      invariant dirty == owners + UnitsWhere(modules[..i], Depending(reach, ch))
      invariant unknown != [] <==> exists k :: 0 <= k < i && Unexplained(modules, k, reach, ch)
    {
      var m := modules[i];
      UnitsOneMore(modules, i, Depending(reach, ch));
      UnexplainedIs(modules, i, owners, dirty, reach, ch);
      DependingIs(m, reach, ch);
      if m.unitName !in dirty {
        if m.deps.None? {
          unknown := unknown + [m.unitName];
        } else if Meets(m.deps.value, reach + ch.valueTypes) {
          dirty := dirty + {m.unitName};
        }
      }
    }
    assert modules[..|modules|] == modules;
    assert HasUnknown(modules, reach, ch) <==> exists k :: 0 <= k < |modules| && Unexplained(modules, k, reach, ch);
  }

  lemma NoUnits(modules: seq<Module>, hit: Module -> bool)
    ensures UnitsWhere(modules[..0], hit) == {}
  {
  }

  method FindReaders(ch: Changes, p: Program) returns (readers: set<string>)
    ensures readers == ReaderNames(ch, p)
  {
    readers := {};
    if ch.addrs == {} { return; }
    for i := 0 to |p.functions|
      invariant readers == set f | f in p.functions[..i] && ReadsInto(f, ch, p.globals) :: f.name
    {
      var f := p.functions[i];
      assert p.functions[..i + 1] == p.functions[..i] + [f];
      if ReadsInto(f, ch, p.globals) { readers := readers + {f.name}; }
    }
    assert p.functions[..|p.functions|] == p.functions;
  }

  method AsList(s: set<string>) returns (r: seq<string>)
    ensures (set x | x in r) == s
  {
    r := [];
    var rest := s;
    while rest != {}
      invariant rest <= s && forall x :: x in s <==> x in r || x in rest
      decreases rest
    {
      var x :| x in rest;
      r, rest := r + [x], rest - {x};
    }
  }

  /** `selectDirtyUnits`. */
  method SelectDirtyUnits(rules: Rules, buildInfo: Option<seq<Module>>, previous: Option<Cache>, identCacheEmpty: bool, p: Program)
    returns (selection: Selection)
    ensures selection == SelectionOf(rules, buildInfo, previous, identCacheEmpty, p)
  {
    hide Expanded, ChangesOf, UnitsWhere, HasUnknown, HasOrphan, ReaderNames, GroupNames;
    if buildInfo.None? || previous.None? || identCacheEmpty { return Selection(None, {}, {}); }
    var modules := buildInfo.value;
    var ch := Compare(rules.hashing, previous.value, p);
    if ch.changed == {} && ch.orderMoved == {} { return Selection(Some({}), {}, {}); }
    var seeds := AsList(ch.typeNames);
    var expanded := ExpandChangedTypes(seeds, p.dataTypes, rules.bare);
    var reach := ch.changed + expanded;
    var owners := MarkWhere(modules, {}, Owning(reach, ch));
    var dirty, unknown := MarkDependents(modules, owners, reach, ch);
    var readers := FindReaders(ch, p);
    dirty := MarkWhere(modules, dirty, Holding(readers));
    dirty := MarkWhere(modules, dirty, Holding(GroupNames(rules, reach, ch, p)));
    if unknown != [] || HasOrphan(ch, p, modules) {
      return Selection(None, ch.changed, expanded);
    }
    return Selection(Some(dirty), ch.changed, expanded);
  }

  /** A unit left out has no module that is dirty in any of the four ways. */
  lemma LeftOutIsClean(rules: Rules, modules: seq<Module>, prev: Cache, p: Program, m: Module)
    requires var s := SelectionOf(rules, Some(modules), Some(prev), false, p); s.units.Some? && m.unitName !in s.units.value
    requires m in modules
    ensures var ch := ChangesOf(rules.hashing, prev, p);
      (ch.changed == {} && ch.orderMoved == {}) || (!Dirty(m, rules, Reach(rules, ch, p), ch, p) && m.deps.Some?)
  {
    hide Expanded, ChangesOf, ReaderNames, GroupNames, Owns, DependsOn, Meets;
    var ch := ChangesOf(rules.hashing, prev, p);
    if ch.changed != {} || ch.orderMoved != {} {
      var reach := Reach(rules, ch, p);
      assert !Owning(reach, ch)(m) && !Depending(reach, ch)(m);
      assert !Holding(ReaderNames(ch, p))(m) && !Holding(GroupNames(rules, reach, ch, p))(m);
      var i :| 0 <= i < |modules| && modules[i] == m;
      assert !Unexplained(modules, i, reach, ch);
      assert UnitsWhere(modules[..i], Depending(reach, ch)) <= UnitsWhere(modules, Depending(reach, ch));
    }
  }

  // ---------------------------------------------------------------------------
  // The forecast
  // ---------------------------------------------------------------------------

  predicate Forecast(m: Module, changed: set<string>) {
    Meets(m.functionNames, changed) || Meets(m.ownedTypeNames, changed) || (m.deps.Some? && Meets(m.deps.value, changed))
  }

  function Forecasting(changed: set<string>): Module -> bool { (m: Module) => Forecast(m, changed) }

  /** `predictUnits`: None without a build record, a forecast of everything. */
  method PredictUnits(buildInfo: Option<seq<Module>>, names: seq<string>, typeNames: seq<string>, types: seq<ExtractedType>, bare: BaseName)
    returns (units: Option<set<string>>)
    ensures units == Predicted(buildInfo, names, typeNames, types, bare)
  {
    if buildInfo.None? { return None; }
    var symbols := set n | n in names && n != "";
    var expanded := ExpandChangedTypes(typeNames, types, bare);
    var hit := MarkWhere(buildInfo.value, {}, Forecasting(symbols + expanded));
    assert hit == UnitsWhere(buildInfo.value, Forecasting(symbols + expanded));
    return Some(hit);
  }

  function Predicted(buildInfo: Option<seq<Module>>, names: seq<string>, typeNames: seq<string>, types: seq<ExtractedType>, bare: BaseName)
    : Option<set<string>>
  {
    if buildInfo.None? then None else
      var changed := (set n | n in names && n != "") + Expanded(types, bare, set n | n in typeNames);
      Some(UnitsWhere(buildInfo.value, Forecasting(changed)))
  }

  /** The forecast from some of the names never names a unit the real selection leaves out. */
  lemma ForecastIsInside(rules: Rules, modules: seq<Module>, prev: Cache, p: Program, names: seq<string>, typeNames: seq<string>)
    requires var ch := ChangesOf(rules.hashing, prev, p);
      (forall n :: n in names ==> n == "" || n in ch.changed) && (forall n :: n in typeNames ==> n in ch.typeNames)
    ensures var s := SelectionOf(rules, Some(modules), Some(prev), false, p);
      s.units.Some? ==> Predicted(Some(modules), names, typeNames, p.dataTypes, rules.bare).value <= s.units.value
  {
    hide ReaderNames, GroupNames, ChangesOf;
    var ch := ChangesOf(rules.hashing, prev, p);
    var some := set n | n in typeNames;
    var changed := (set n | n in names && n != "") + Expanded(p.dataTypes, rules.bare, some);
    TypeNamesChanged(rules.hashing, prev, p);
    ExpandedIsMonotone(p.dataTypes, rules.bare, some, ch.typeNames);
    assert changed <= Reach(rules, ch, p);
    if ch.changed == {} && ch.orderMoved == {} {
      NothingExpands(p.dataTypes, rules.bare, some);
      assert changed == {};
    }
  }

  lemma ExpandedIsMonotone(types: seq<ExtractedType>, bare: BaseName, few: set<string>, more: set<string>)
    requires few <= more
    ensures Expanded(types, bare, few) <= Expanded(types, bare, more)
  {
    assert Monotone(ByName(bare));
    ClosureIsMonotone(types, ByName(bare), ByName(bare), few, more);
  }

  lemma NothingExpands(types: seq<ExtractedType>, bare: BaseName, seeds: set<string>)
    requires seeds == {}
    ensures Expanded(types, bare, seeds) == {}
  {
    assert Closed(types, ByName(bare), {});
  }

  lemma TypeNamesChanged(h: Hashing, prev: Cache, p: Program)
    ensures ChangesOf(h, prev, p).typeNames <= ChangesOf(h, prev, p).changed
  {
  }
}
