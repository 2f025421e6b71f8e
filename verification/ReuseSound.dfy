/**
 * A unit the selection leaves out need not be emitted again: what its text may depend on is
 * as it was (packages/live/src/dirty-units.ts). Not all of it is covered, and the theorem says
 * exactly when which part is.
 */
module ReuseSound {
  import opened Prelude
  import opened Containment
  import opened HashCache
  import opened ChangesExact
  import opened DirtyUnits
  import TypeOrder

  // ---------------------------------------------------------------------------
  // What a unit's text may depend on
  // ---------------------------------------------------------------------------

  function Deps(m: Module): seq<string> { if m.deps.Some? then m.deps.value else [] }

  function FunctionsNamed(p: Program, names: seq<string>): set<Fn> { set f | f in p.functions && f.name in names }

  function TypesNamed(p: Program, names: seq<string>): set<ExtractedType> { set dt | dt in p.dataTypes && dt.name in names }

  function GlobalsNamed(p: Program, names: seq<string>): set<Global> { set g | g in p.globals && g.name in names }

  function GlobalsAt(p: Program, addresses: seq<nat>): set<Global> { set g | g in p.globals && g.address in addresses }

  function Instances(p: Program, names: seq<string>): set<Global> {
    set g | g in p.globals && g.aggregate.Some? && g.aggregate.value in names
  }

  ghost predicate ForwardClosed(types: seq<ExtractedType>, bare: BaseName, s: set<string>) {
    forall dt, t :: dt in types && dt.name in s && Names(dt, t, bare) ==> t in s
  }

  /** Reached from the seeds by going from a type to the types its fields name. */
  ghost predicate Reached(types: seq<ExtractedType>, bare: BaseName, seeds: set<string>, n: string) {
    forall s: set<string> :: seeds <= s && ForwardClosed(types, bare, s) ==> n in s
  }

  function Seeds(m: Module): set<string> { (set n | n in m.ownedTypeNames) + (set n | n in Deps(m)) }

  ghost function Contained(p: Program, m: Module, bare: BaseName): set<ExtractedType> {
    set dt | dt in p.dataTypes && Reached(p.dataTypes, bare, Seeds(m), dt.name)
  }

  /** Globals an operand reference of the module's own functions lands in. */
  function Landing(p: Program, m: Module): set<Global> { set g | g in p.globals && LandsIn(p, m, g) }

  predicate LandsIn(p: Program, m: Module, g: Global) {
    exists f :: f in p.functions && f.name in m.functionNames && exists r :: r in f.refs && Covers(g, r)
  }

  datatype Inputs = Inputs(
    functions: set<Fn>, types: set<ExtractedType>, globals: set<Global>,
    depFunctions: set<Fn>, depTypes: set<ExtractedType>, depGlobals: set<Global>,
    contained: set<ExtractedType>, instances: set<Global>)

  ghost function InputsOf(p: Program, m: Module, bare: BaseName): Inputs {
    Inputs(FunctionsNamed(p, m.functionNames), TypesNamed(p, m.ownedTypeNames), GlobalsAt(p, m.globalAddresses),
           FunctionsNamed(p, Deps(m)), TypesNamed(p, Deps(m)), GlobalsNamed(p, Deps(m)),
           Contained(p, m, bare), Instances(p, Deps(m)))
  }

  // ---------------------------------------------------------------------------
  // Clean modules
  // ---------------------------------------------------------------------------

  /** No symbol the module names, owns or depends on is among what changed. */
  ghost predicate SymbolsUntouched(m: Module, reach: set<string>, ch: Changes) {
    && (forall n :: n in m.functionNames ==> n !in reach)
    && (forall n :: n in m.ownedTypeNames ==> n !in reach && n !in ch.orderMoved)
    && (forall n :: n in Deps(m) ==> n !in reach)
  }

  /** ... and none of its addresses, nor an instance of a type it depends on. */
  ghost predicate AddressesUntouched(m: Module, ch: Changes, p: Program) {
    && (forall n :: n in m.functionNames ==> n !in ReaderNames(ch, p))
    && (forall n :: n in Deps(m) ==> n !in ch.valueTypes)
    && (forall a :: a in m.globalAddresses ==> a !in ch.addrs)
  }

  /** ... and none of its functions shares a group with one that changed. */
  ghost predicate GroupsUntouched(rules: Rules, m: Module, ch: Changes, p: Program) {
    forall n :: n in m.functionNames ==> n !in GroupNames(rules, Reach(rules, ch, p), ch, p)
  }

  /** The selection returns before it looks at addresses. */
  predicate ReturnsEarly(ch: Changes) { ch.changed == {} && ch.orderMoved == {} }

  lemma LeftOutIsUntouched(rules: Rules, modules: seq<Module>, prev: Cache, p: Program, m: Module)
    requires var s := SelectionOf(rules, Some(modules), Some(prev), false, p); s.units.Some? && m.unitName !in s.units.value
    requires m in modules
    ensures var ch := ChangesOf(rules.hashing, prev, p);
      SymbolsUntouched(m, Reach(rules, ch, p), ch)
      && (!ReturnsEarly(ch) ==> AddressesUntouched(m, ch, p) && GroupsUntouched(rules, m, ch, p))
  {
    hide ChangesOf, ReaderNames, GroupNames, Expanded;
    var ch := ChangesOf(rules.hashing, prev, p);
    LeftOutIsClean(rules, modules, prev, p, m);
    if ReturnsEarly(ch) {
      TypeNamesChanged(rules.hashing, prev, p);
      NothingExpands(p.dataTypes, rules.bare, ch.typeNames);
      assert Reach(rules, ch, p) == {};
    }
  }

  /** What the theorem is about: a module whose unit a selection leaves out. */
  ghost predicate Reused(rules: Rules, modules: seq<Module>, before: Program, now: Program, m: Module) {
    && Comparable(rules.hashing, before, now) && m in modules
    && var s := SelectionOf(rules, Some(modules), Some(CacheOf(rules.hashing, before)), false, now);
    s.units.Some? && m.unitName !in s.units.value
  }

  /** What changed between the two. */
  ghost function Between(rules: Rules, before: Program, now: Program): Changes {
    ChangesOf(rules.hashing, CacheOf(rules.hashing, before), now)
  }

  ghost predicate CleanBetween(rules: Rules, before: Program, now: Program, m: Module) {
    var ch := ChangesOf(rules.hashing, CacheOf(rules.hashing, before), now);
    Comparable(rules.hashing, before, now) && SymbolsUntouched(m, Reach(rules, ch, now), ch)
  }

  lemma SameNamed(rules: Rules, before: Program, now: Program, m: Module)
    requires CleanBetween(rules, before, now, m)
    ensures FunctionsNamed(before, m.functionNames) == FunctionsNamed(now, m.functionNames)
    ensures FunctionsNamed(before, Deps(m)) == FunctionsNamed(now, Deps(m))
    ensures TypesNamed(before, m.ownedTypeNames) == TypesNamed(now, m.ownedTypeNames)
    ensures TypesNamed(before, Deps(m)) == TypesNamed(now, Deps(m))
  {
    hide ChangesOf, CacheOf, Comparable, ReaderNames, Expanded;
    var h := rules.hashing;
    TypeNamesChanged(h, CacheOf(h, before), now);
    forall f | (f in before.functions) != (f in now.functions) ensures f.name !in m.functionNames && f.name !in Deps(m) {
      FunctionDiffers(h, before, now, f);
    }
    forall dt | (dt in before.dataTypes) != (dt in now.dataTypes) ensures dt.name !in m.ownedTypeNames && dt.name !in Deps(m) {
      TypeDiffers(h, before, now, dt);
    }
  }

  /** A global without a name differs, and the module's dependencies hold the empty name. */
  ghost predicate DependsOnNameless(before: Program, now: Program, m: Module) {
    "" in Deps(m) && exists g: Global :: g.name == "" && Differs(before, now, g)
  }

  lemma GlobalsExactly(rules: Rules, before: Program, now: Program, m: Module)
    requires CleanBetween(rules, before, now, m)
    ensures var ch := Between(rules, before, now);
      && (GlobalsAt(before, m.globalAddresses) == GlobalsAt(now, m.globalAddresses) <==> forall a :: a in m.globalAddresses ==> a !in ch.addrs)
      && (Instances(before, Deps(m)) == Instances(now, Deps(m)) <==> forall t :: t in Deps(m) ==> t !in ch.valueTypes)
      && (GlobalsNamed(before, Deps(m)) == GlobalsNamed(now, Deps(m)) <==> !DependsOnNameless(before, now, m))
  {
    hide ChangesOf, CacheOf, Comparable, Expanded, Differs;
    var h, ch := rules.hashing, Between(rules, before, now);
    ComparableIsCompared(h, before, now);
    forall g | Differs(before, now, g)
      ensures (g.name in Deps(m) ==> g.name == "") && g.address in ch.addrs && (g.aggregate.Some? ==> g.aggregate.value in ch.valueTypes)
    {
      DiffersIs(before, now, g);
      GlobalDiffers(h, before, now, g);
    }
    forall a | a in ch.addrs ensures exists g: Global :: g.address == a && Differs(before, now, g) { AddressDiffers(h, before, now, a); }
    forall t | t in ch.valueTypes ensures exists g: Global :: g.aggregate == Some(t) && Differs(before, now, g) { InstanceDiffers(h, before, now, t); }
    AtExactly(before, now, m.globalAddresses);
    InstancesExactly(before, now, Deps(m));
    NamedExactly(before, now, Deps(m));
  }

  lemma DiffersIs(before: Program, now: Program, g: Global)
    ensures Differs(before, now, g) <==> (g in before.globals) != (g in now.globals)
  {
  }

  lemma AtExactly(before: Program, now: Program, addresses: seq<nat>)
    ensures GlobalsAt(before, addresses) == GlobalsAt(now, addresses) <==> !exists g :: Differs(before, now, g) && g.address in addresses
  {
    if g :| Differs(before, now, g) && g.address in addresses {
      assert g in GlobalsAt(before, addresses) <==> g !in GlobalsAt(now, addresses);
    }
  }

  lemma InstancesExactly(before: Program, now: Program, names: seq<string>)
    ensures Instances(before, names) == Instances(now, names) <==>
      !exists g :: Differs(before, now, g) && g.aggregate.Some? && g.aggregate.value in names
  {
    if g :| Differs(before, now, g) && g.aggregate.Some? && g.aggregate.value in names {
      assert g in Instances(before, names) <==> g !in Instances(now, names);
    }
  }

  lemma NamedExactly(before: Program, now: Program, names: seq<string>)
    ensures GlobalsNamed(before, names) == GlobalsNamed(now, names) <==> !exists g :: Differs(before, now, g) && g.name in names
  {
    if g :| Differs(before, now, g) && g.name in names {
      assert g in GlobalsNamed(before, names) <==> g !in GlobalsNamed(now, names);
    }
  }

  // ---------------------------------------------------------------------------
  // Types reached by containment
  // ---------------------------------------------------------------------------

  /** Types that differ, and what reaches them, are all in `moved`. */
  ghost predicate Fenced(before: seq<ExtractedType>, now: seq<ExtractedType>, bare: BaseName, moved: set<string>) {
    && (forall dt :: (dt in before) != (dt in now) ==> dt.name in moved)
    && (forall dt, t :: dt in now && Names(dt, t, bare) && t in moved ==> dt.name in moved)
  }

  lemma FenceHolds(rules: Rules, before: Program, now: Program)
    requires Comparable(rules.hashing, before, now)
    ensures var ch := ChangesOf(rules.hashing, CacheOf(rules.hashing, before), now);
      Fenced(before.dataTypes, now.dataTypes, rules.bare, Expanded(now.dataTypes, rules.bare, ch.typeNames))
  {
    hide ChangesOf, CacheOf, Comparable;
    var ch := ChangesOf(rules.hashing, CacheOf(rules.hashing, before), now);
    var moved := Expanded(now.dataTypes, rules.bare, ch.typeNames);
    assert Monotone(ByName(rules.bare));
    forall dt | (dt in before.dataTypes) != (dt in now.dataTypes) ensures dt.name in moved {
      TypeDiffers(rules.hashing, before, now, dt);
    }
    forall dt, t | dt in now.dataTypes && Names(dt, t, rules.bare) && t in moved ensures dt.name in moved {
      assert ByName(rules.bare)(dt, moved);
    }
  }

  /** Outside the fence the two lists have the same edges. */
  lemma OutsideTheFence(before: seq<ExtractedType>, now: seq<ExtractedType>, bare: BaseName, moved: set<string>, s: set<string>)
    requires Fenced(before, now, bare, moved)
    ensures ForwardClosed(now, bare, s) ==> ForwardClosed(before, bare, s - moved)
    ensures ForwardClosed(before, bare, s) ==> ForwardClosed(now, bare, s - moved)
  {
    forall dt: ExtractedType | dt.name !in moved ensures dt in before <==> dt in now { }
  }

  function Targets(types: seq<ExtractedType>, bare: BaseName): set<string> {
    set dt, f | dt in types && f in dt.fields :: bare(Spelling(f))
  }

  lemma SameReached(before: seq<ExtractedType>, now: seq<ExtractedType>, bare: BaseName, moved: set<string>, seeds: set<string>, n: string)
    requires Fenced(before, now, bare, moved) && seeds !! moved
    ensures Reached(before, bare, seeds, n) <==> Reached(now, bare, seeds, n)
    ensures Reached(now, bare, seeds, n) ==> n !in moved
  {
    forall s: set<string> | seeds <= s
      ensures seeds <= s - moved
      ensures ForwardClosed(now, bare, s) ==> ForwardClosed(before, bare, s - moved)
      ensures ForwardClosed(before, bare, s) ==> ForwardClosed(now, bare, s - moved)
    {
      OutsideTheFence(before, now, bare, moved, s);
    }
    var all := seeds + Targets(now, bare);
    assert ForwardClosed(now, bare, all);
    assert ForwardClosed(before, bare, all - moved);
    if Reached(before, bare, seeds, n) {
      forall s: set<string> | seeds <= s && ForwardClosed(now, bare, s) ensures n in s {
        assert seeds <= s - moved && ForwardClosed(before, bare, s - moved);
        assert n in s - moved;
      }
    }
    if Reached(now, bare, seeds, n) {
      forall s: set<string> | seeds <= s && ForwardClosed(before, bare, s) ensures n in s {
        assert seeds <= s - moved && ForwardClosed(now, bare, s - moved);
        assert n in s - moved;
      }
      assert n in all - moved;
    }
  }

  lemma SameContained(rules: Rules, before: Program, now: Program, m: Module)
    requires CleanBetween(rules, before, now, m)
    ensures Contained(before, m, rules.bare) == Contained(now, m, rules.bare)
  {
    hide ChangesOf, CacheOf, Comparable, ReaderNames, Expanded, Reached, Fenced;
    var ch := ChangesOf(rules.hashing, CacheOf(rules.hashing, before), now);
    var moved := Expanded(now.dataTypes, rules.bare, ch.typeNames);
    FenceHolds(rules, before, now);
    assert Seeds(m) !! moved by { assert moved <= Reach(rules, ch, now); }
    forall dt ensures dt in Contained(before, m, rules.bare) <==> dt in Contained(now, m, rules.bare) {
      SameReached(before.dataTypes, now.dataTypes, rules.bare, moved, Seeds(m), dt.name);
      InsideOrSame(before.dataTypes, now.dataTypes, rules.bare, moved, dt);
    }
  }

  lemma InsideOrSame(before: seq<ExtractedType>, now: seq<ExtractedType>, bare: BaseName, moved: set<string>, dt: ExtractedType)
    requires Fenced(before, now, bare, moved)
    ensures dt.name in moved || (dt in before <==> dt in now)
  {
  }

  // ---------------------------------------------------------------------------
  // Operand references
  // ---------------------------------------------------------------------------

  /** A global that was removed or has shrunk, and a reference of the module's into the part it lost. */
  ghost predicate LandsInLost(before: Program, now: Program, m: Module) {
    exists g, f, r ::
      && g in before.globals && f in before.functions && f.name in m.functionNames && r in f.refs
      && Covers(g, r) && forall g' :: g' in now.globals && Key(g') == Key(g) ==> !Covers(g', r)
  }

  /** A reference of the module's into a global that changed, as it is now. */
  ghost predicate LandsInChanged(rules: Rules, before: Program, now: Program, m: Module) {
    exists g :: g in now.globals && GlobalMoved(rules.hashing, CacheOf(rules.hashing, before), g) && LandsIn(now, m, g)
  }

  /** ... which the selection finds once it looks at addresses. */
  lemma ChangedIsFound(rules: Rules, before: Program, now: Program, m: Module)
    requires AddressesUntouched(m, Between(rules, before, now), now)
    ensures !LandsInChanged(rules, before, now, m)
  {
    hide CacheOf, FnChanges, TypeChanges, OrderMoves, GoneNames, GoneGlobals;
    var h, prev, ch := rules.hashing, CacheOf(rules.hashing, before), Between(rules, before, now);
    forall g | g in now.globals && GlobalMoved(h, prev, g) ensures !LandsIn(now, m, g) {
      assert Within(GlobalChange(h, prev, g), GlobalChanges(h, prev, now.globals));
      assert g.address in ch.addrs;
      forall f, r | f in now.functions && f.name in m.functionNames && r in f.refs ensures !Covers(g, r) {
        assert Covers(g, r) ==> InChanged(ch, now.globals, r) && ReadsInto(f, ch, now.globals);
        assert f.name !in ReaderNames(ch, now);
      }
    }
  }

  /** The references see the same globals exactly when none lands in a changed global as it is, or in what one lost. */
  lemma LandingExactly(rules: Rules, before: Program, now: Program, m: Module)
    requires CleanBetween(rules, before, now, m)
    ensures Landing(before, m) == Landing(now, m) <==> !LandsInLost(before, now, m) && !LandsInChanged(rules, before, now, m)
  {
    hide SymbolsUntouched, LandsIn, CacheOf, GlobalMoved, LandsInLost;
    SameNamed(rules, before, now, m);
    forall g ensures LandsIn(before, m, g) <==> LandsIn(now, m, g) { SameOwn(before, now, m, g); }
    forall g | g in now.globals ensures GlobalMoved(rules.hashing, CacheOf(rules.hashing, before), g) <==> g !in before.globals {
      MovedIsNew(rules.hashing, before, now, g);
    }
    if LandsInLost(before, now, m) {
      var g := LostDiffers(before, now, m);
      assert g in Landing(before, m) && g !in Landing(now, m);
    } else if LandsInChanged(rules, before, now, m) {
      var g :| g in now.globals && g !in before.globals && LandsIn(now, m, g);
      assert g in Landing(now, m) && g !in Landing(before, m);
    } else {
      forall g | g in before.globals && LandsIn(before, m, g) ensures g in now.globals {
        if g !in now.globals { NotLostIsChanged(rules, before, now, m, g); }
      }
    }
  }

  lemma LostDiffers(before: Program, now: Program, m: Module) returns (g: Global)
    requires LandsInLost(before, now, m)
    ensures g in before.globals && g !in now.globals && LandsIn(before, m, g)
  {
    var f, r;
    g, f, r :| g in before.globals && f in before.functions && f.name in m.functionNames && r in f.refs
      && Covers(g, r) && forall g' :: g' in now.globals && Key(g') == Key(g) ==> !Covers(g', r);
  }

  /** A landing in a global that is no longer as it was: what is there now covers it, and changed. */
  lemma NotLostIsChanged(rules: Rules, before: Program, now: Program, m: Module, g: Global)
    requires Comparable(rules.hashing, before, now) && FunctionsNamed(before, m.functionNames) == FunctionsNamed(now, m.functionNames)
    requires !LandsInLost(before, now, m) && g in before.globals && g !in now.globals && LandsIn(before, m, g)
    ensures LandsInChanged(rules, before, now, m)
  {
    hide CacheOf, BareName, Path, GlobalMoved;
    var f :| f in before.functions && f.name in m.functionNames && exists r :: r in f.refs && Covers(g, r);
    var r :| r in f.refs && Covers(g, r);
    var g' :| g' in now.globals && Key(g') == Key(g) && Covers(g', r);
    assert f in FunctionsNamed(before, m.functionNames);
    assert LandsIn(now, m, g');
    MovedIsNew(rules.hashing, before, now, g');
    assert g' !in before.globals by { OnePerKey(before.globals, g, g'); }
  }

  lemma OnePerKey(globals: seq<Global>, g: Global, g': Global)
    requires forall i, j :: 0 <= i < j < |globals| ==> Key(globals[i]) != Key(globals[j])
    requires g in globals && Key(g) == Key(g') && g != g'
    ensures g' !in globals
  {
  }

  lemma SameOwn(before: Program, now: Program, m: Module, g: Global)
    requires FunctionsNamed(before, m.functionNames) == FunctionsNamed(now, m.functionNames)
    ensures LandsIn(before, m, g) <==> LandsIn(now, m, g)
  {
    if f :| f in before.functions && f.name in m.functionNames && exists r :: r in f.refs && Covers(g, r) {
      assert f in FunctionsNamed(before, m.functionNames);
    }
    if f :| f in now.functions && f.name in m.functionNames && exists r :: r in f.refs && Covers(g, r) {
      assert f in FunctionsNamed(now, m.functionNames);
    }
  }

  // ---------------------------------------------------------------------------
  // Groups and runs
  // ---------------------------------------------------------------------------

  /** `g` is a funclet `c` or calls it. */
  predicate InGroup(rules: Rules, c: Fn, g: Fn) { g == c || rules.calls(g, c.name) }

  /** A function of the module is in the group of `c`. */
  predicate MeetsGroup(rules: Rules, p: Program, m: Module, c: Fn) {
    exists h :: h in p.functions && h.name in m.functionNames && InGroup(rules, c, h)
  }

  /** The groups that a function of the module is in, each funclet with each of its callers and itself. */
  function GroupsOf(rules: Rules, p: Program, m: Module): set<(Fn, Fn)> {
    set c, g | c in p.functions && g in p.functions && rules.isFunclet(c) && InGroup(rules, c, g) && MeetsGroup(rules, p, m, c) :: (c, g)
  }

  /** A group the module was in has lost a member, or changed one. */
  ghost predicate LosesMember(rules: Rules, before: Program, now: Program, m: Module) {
    exists c, g :: (c, g) in GroupsOf(rules, before, m) && (c !in now.functions || g !in now.functions)
  }

  lemma UnreachedIsSame(rules: Rules, before: Program, now: Program, f: Fn)
    requires Comparable(rules.hashing, before, now) && f.name !in Reach(rules, Between(rules, before, now), now)
    ensures f in before.functions <==> f in now.functions
  {
    hide ChangesOf, CacheOf, Comparable, Expanded;
    if (f in before.functions) != (f in now.functions) { FunctionDiffers(rules.hashing, before, now, f); }
  }

  /** Every member of a present group of the module is as it was. */
  lemma PresentGroupIsSame(rules: Rules, before: Program, now: Program, m: Module, c: Fn, g: Fn)
    requires Comparable(rules.hashing, before, now)
    requires var ch := Between(rules, before, now); !ReturnsEarly(ch) ==> GroupsUntouched(rules, m, ch, now)
    requires c in now.functions && rules.isFunclet(c) && MeetsGroup(rules, now, m, c)
    requires g in now.functions && InGroup(rules, c, g)
    ensures g in before.functions
  {
    hide ChangesOf, CacheOf, Comparable, Expanded;
    var ch := Between(rules, before, now);
    var reach := Reach(rules, ch, now);
    var group := FuncletGroup(rules, now.functions, c);
    var h :| h in now.functions && h.name in m.functionNames && InGroup(rules, c, h);
    assert h.name in group && g.name in group;
    TypeNamesChanged(rules.hashing, CacheOf(rules.hashing, before), now);
    if ReturnsEarly(ch) {
      NothingExpands(now.dataTypes, rules.bare, ch.typeNames);
      assert reach == {};
    } else {
      ReachedWithTheGroup(rules, now, ch, reach, c, g.name, h.name);
    }
    UnreachedIsSame(rules, before, now, g);
  }

  /** Whoever shares a group with a name that is reached is found with it. */
  lemma ReachedWithTheGroup(rules: Rules, p: Program, ch: Changes, reach: set<string>, c: Fn, n: string, o: string)
    requires c in p.functions && rules.isFunclet(c)
    requires n in FuncletGroup(rules, p.functions, c) && o in FuncletGroup(rules, p.functions, c)
    ensures n in reach ==> o in GroupNames(rules, reach, ch, p)
  {
    assert n in reach ==> n in FuncletGroup(rules, p.functions, c) * reach;
  }

  lemma ReachedByARun(rules: Rules, p: Program, ch: Changes, reach: set<string>, pair: (string, string))
    requires pair in rules.runReaders(p.globals, p.functions)
    ensures pair.1 in reach && ch.addrs != {} ==> pair.0 in GroupNames(rules, reach, ch, p)
  {
  }

  /** The module's groups are as they were exactly when none has lost or changed a member. */
  lemma GroupsExactly(rules: Rules, before: Program, now: Program, m: Module)
    requires Comparable(rules.hashing, before, now)
    requires var ch := Between(rules, before, now); !ReturnsEarly(ch) ==> GroupsUntouched(rules, m, ch, now)
    ensures GroupsOf(rules, before, m) == GroupsOf(rules, now, m) <==> !LosesMember(rules, before, now, m)
  {
    hide Between, Comparable, GroupsUntouched;
    forall c, g | (c, g) in GroupsOf(rules, now, m) ensures (c, g) in GroupsOf(rules, before, m) {
      var h :| h in now.functions && h.name in m.functionNames && InGroup(rules, c, h);
      PresentGroupIsSame(rules, before, now, m, c, c);
      PresentGroupIsSame(rules, before, now, m, c, g);
      PresentGroupIsSame(rules, before, now, m, c, h);
    }
    if LosesMember(rules, before, now, m) {
      var c, g :| (c, g) in GroupsOf(rules, before, m) && (c !in now.functions || g !in now.functions);
      assert (c, g) !in GroupsOf(rules, now, m);
    } else {
      forall c, g | (c, g) in GroupsOf(rules, before, m) ensures (c, g) in GroupsOf(rules, now, m) {
        var h :| h in before.functions && h.name in m.functionNames && InGroup(rules, c, h);
        assert (c, h) in GroupsOf(rules, before, m);
      }
    }
  }

  /** The named globals of a present run that a function of the module clears are as they were. */
  lemma PresentRunsAreSame(rules: Rules, before: Program, now: Program, m: Module, f: string, member: string)
    requires Comparable(rules.hashing, before, now)
    requires var ch := Between(rules, before, now); !ReturnsEarly(ch) ==> GroupsUntouched(rules, m, ch, now)
    requires (f, member) in rules.runReaders(now.globals, now.functions) && f in m.functionNames && member != ""
    ensures GlobalsNamed(before, [member]) == GlobalsNamed(now, [member])
  {
    hide Between, Comparable, GroupsUntouched, ReturnsEarly;
    forall g: Global | g.name == member ensures g in before.globals <==> g in now.globals { MemberIsSame(rules, before, now, m, f, g); }
  }

  lemma MemberIsSame(rules: Rules, before: Program, now: Program, m: Module, f: string, g: Global)
    requires Comparable(rules.hashing, before, now)
    requires var ch := Between(rules, before, now); !ReturnsEarly(ch) ==> GroupsUntouched(rules, m, ch, now)
    requires (f, g.name) in rules.runReaders(now.globals, now.functions) && f in m.functionNames && g.name != ""
    ensures g in before.globals <==> g in now.globals
  {
    hide CacheOf, Comparable, Expanded, ChangesOf;
    var ch := Between(rules, before, now);
    var reach := Reach(rules, ch, now);
    ReachedByARun(rules, now, ch, reach, (f, g.name));
    assert ch.changed <= reach;
    ComparableIsCompared(rules.hashing, before, now);
    if (g in before.globals) != (g in now.globals) { GlobalDiffers(rules.hashing, before, now, g); }
  }

  // ---------------------------------------------------------------------------
  // The theorem
  // ---------------------------------------------------------------------------

  /** All of a unit's inputs that are known by a symbol's name are as they were. */
  ghost predicate SameSymbols(before: Program, now: Program, m: Module, bare: BaseName) {
    var a, b := InputsOf(before, m, bare), InputsOf(now, m, bare);
    && a.functions == b.functions && a.types == b.types && a.depFunctions == b.depFunctions && a.depTypes == b.depTypes
    && a.contained == b.contained
  }

  /**
   * Reuse, exactly. A unit left out has its own functions and types, the functions and types it
   * depends on and the types reached from them as they were, each type it owns in its place.
   * Its own globals are the same if and only if no changed address is one of them; the
   * instances whose values it reads, if and only if no changed instance is of a type it depends
   * on; the globals it depends on, unless a nameless one changed and it depends on the empty
   * name; what its operand references land in, if and only if none lands in a changed
   * global, or in the part that a removed or shrunk one lost; the groups of funclets and their
   * callers it is in, if and only if none of them lost or changed a member. The named globals
   * of the runs its functions clear now are as they were.
   */
  lemma ReuseExactly(rules: Rules, modules: seq<Module>, before: Program, now: Program, m: Module)
    requires Reused(rules, modules, before, now, m)
    ensures SameSymbols(before, now, m, rules.bare)
    ensures forall dt :: dt in TypesNamed(now, m.ownedTypeNames) ==> SamePlace(before, now, dt)
    ensures forall f, member :: (f, member) in rules.runReaders(now.globals, now.functions) && f in m.functionNames && member != "" ==>
      GlobalsNamed(before, [member]) == GlobalsNamed(now, [member])
    ensures var ch := Between(rules, before, now);
      && (GlobalsAt(before, m.globalAddresses) == GlobalsAt(now, m.globalAddresses) <==> forall a :: a in m.globalAddresses ==> a !in ch.addrs)
      && (Instances(before, Deps(m)) == Instances(now, Deps(m)) <==> forall t :: t in Deps(m) ==> t !in ch.valueTypes)
      && (GlobalsNamed(before, Deps(m)) == GlobalsNamed(now, Deps(m)) <==> !DependsOnNameless(before, now, m))
      && (Landing(before, m) == Landing(now, m) <==> !LandsInLost(before, now, m) && !LandsInChanged(rules, before, now, m))
      && (GroupsOf(rules, before, m) == GroupsOf(rules, now, m) <==> !LosesMember(rules, before, now, m))
  {
    hide GroupsOf, LosesMember, AddressesUntouched, GroupsUntouched, ReturnsEarly, Contained, SelectionOf, Comparable, FunctionsNamed, TypesNamed, GlobalsNamed, GlobalsAt, Instances, Landing,
      LandsInLost, LandsInChanged, DependsOnNameless, Between, SymbolsUntouched;
    LeftOutIsBetween(rules, modules, before, now, m);
    SameNamed(rules, before, now, m);
    GlobalsExactly(rules, before, now, m);
    SameContained(rules, before, now, m);
    LandingExactly(rules, before, now, m);
    PlacesAreSame(rules, before, now, m);
    LeftOutGroups(rules, modules, before, now, m);
    GroupsExactly(rules, before, now, m);
    forall f, member | (f, member) in rules.runReaders(now.globals, now.functions) && f in m.functionNames && member != ""
      ensures GlobalsNamed(before, [member]) == GlobalsNamed(now, [member])
    {
      PresentRunsAreSame(rules, before, now, m, f, member);
    }
  }

  lemma LeftOutGroups(rules: Rules, modules: seq<Module>, before: Program, now: Program, m: Module)
    requires Reused(rules, modules, before, now, m)
    ensures Comparable(rules.hashing, before, now)
    ensures var ch := Between(rules, before, now); !ReturnsEarly(ch) ==> GroupsUntouched(rules, m, ch, now)
  {
    hide SelectionOf, SymbolsUntouched, AddressesUntouched, GroupsUntouched, ChangesOf, CacheOf, Comparable;
    LeftOutIsUntouched(rules, modules, CacheOf(rules.hashing, before), now, m);
  }

  /**
   * Reuse is sound: unless the selection returned early, a unit left out has every input as it
   * was, but for a dependency on the empty name, and its references see the same globals
   * exactly when none goes into what a removed or shrunk global lost.
   */
  lemma ReuseIsSound(rules: Rules, modules: seq<Module>, before: Program, now: Program, m: Module)
    requires Reused(rules, modules, before, now, m) && !ReturnsEarly(Between(rules, before, now))
    ensures InputsOf(before, m, rules.bare) == InputsOf(now, m, rules.bare) <==> !DependsOnNameless(before, now, m)
    ensures Landing(before, m) == Landing(now, m) <==> !LandsInLost(before, now, m)
  {
    hide Contained, SelectionOf, Comparable, FunctionsNamed, TypesNamed, GlobalsNamed, GlobalsAt, Instances, Landing,
      LandsInLost, LandsInChanged, DependsOnNameless, SymbolsUntouched, ChangesOf, CacheOf, ReaderNames;
    LeftOutIsUntouched(rules, modules, CacheOf(rules.hashing, before), now, m);
    ReuseExactly(rules, modules, before, now, m);
    ChangedIsFound(rules, before, now, m);
  }

  lemma LeftOutIsBetween(rules: Rules, modules: seq<Module>, before: Program, now: Program, m: Module)
    requires Reused(rules, modules, before, now, m)
    ensures CleanBetween(rules, before, now, m)
  {
    hide SelectionOf, SymbolsUntouched, AddressesUntouched, ChangesOf, CacheOf;
    LeftOutIsUntouched(rules, modules, CacheOf(rules.hashing, before), now, m);
  }

  function PlaceIn(p: Program, dt: ExtractedType): Option<string> {
    var order := TypeOrder.Order(Paths(p.dataTypes));
    if Path(dt) in order then Some(order[Path(dt)]) else None
  }

  predicate SamePlace(before: Program, now: Program, dt: ExtractedType) { PlaceIn(before, dt) == PlaceIn(now, dt) }

  lemma PlacesAreSame(rules: Rules, before: Program, now: Program, m: Module)
    requires CleanBetween(rules, before, now, m)
    ensures forall dt :: dt in TypesNamed(now, m.ownedTypeNames) ==> SamePlace(before, now, dt)
  {
    hide FnEntries, TypeEntries, GlobalEntries, FnChanges, TypeChanges, GlobalChanges, ReaderNames, Expanded, Comparable;
    var prev := CacheOf(rules.hashing, before);
    SameNamed(rules, before, now, m);
    forall dt | dt in TypesNamed(now, m.ownedTypeNames) ensures SamePlace(before, now, dt) {
      assert dt in TypesNamed(before, m.ownedTypeNames);
      InOrder(before, dt);
      InOrder(now, dt);
      assert !OrderMoved(prev, TypeOrder.Order(Paths(now.dataTypes)), dt);
    }
  }

  lemma InOrder(p: Program, dt: ExtractedType)
    requires dt in p.dataTypes
    ensures Path(dt) in TypeOrder.Order(Paths(p.dataTypes))
  {
    TypeOrder.OrderKeys(Paths(p.dataTypes));
    var i :| 0 <= i < |p.dataTypes| && p.dataTypes[i] == dt;
    assert Paths(p.dataTypes)[i] == Path(dt);
  }

  /** Any emission whose text of a module depends on no more than these inputs. */
  type Emission = (Module, Program) -> string

  /** All of them: what is known by name, what references land in, and the groups. */
  ghost predicate SameInputs(rules: Rules, p: Program, q: Program, m: Module) {
    && InputsOf(p, m, rules.bare) == InputsOf(q, m, rules.bare) && Landing(p, m) == Landing(q, m)
    && GroupsOf(rules, p, m) == GroupsOf(rules, q, m)
  }

  ghost predicate DependsOnInputs(emit: Emission, rules: Rules) {
    forall m, p, q :: SameInputs(rules, p, q, m) ==> emit(m, p) == emit(m, q)
  }

  /** None of the ways in which a change may be missed is there. */
  ghost predicate NothingMissed(rules: Rules, before: Program, now: Program, m: Module) {
    var ch := Between(rules, before, now);
    && !LandsInLost(before, now, m) && !DependsOnNameless(before, now, m) && !LosesMember(rules, before, now, m)
    && (ReturnsEarly(ch) ==>
          && (forall a :: a in m.globalAddresses ==> a !in ch.addrs) && (forall t :: t in Deps(m) ==> t !in ch.valueTypes)
          && !LandsInChanged(rules, before, now, m))
  }

  /** A reused unit's inputs are all as they were exactly when nothing was missed; then it equals a freshly emitted one. */
  lemma ReusedTextIsFresh(rules: Rules, modules: seq<Module>, before: Program, now: Program, m: Module, emit: Emission)
    requires Reused(rules, modules, before, now, m) && DependsOnInputs(emit, rules)
    ensures SameInputs(rules, before, now, m) <==> NothingMissed(rules, before, now, m)
    ensures NothingMissed(rules, before, now, m) ==> emit(m, before) == emit(m, now)
  {
    hide Contained, Reused, FunctionsNamed, TypesNamed, GlobalsNamed, GlobalsAt, Instances, Landing, LandsInLost, LandsInChanged, DependsOnNameless,
      Between, GroupsOf, LosesMember;
    ReuseExactly(rules, modules, before, now, m);
    if !ReturnsEarly(Between(rules, before, now)) { ReuseIsSound(rules, modules, before, now, m); }
  }
}
