/**
 * What the last generation recorded, and what has moved since (packages/live/src/dirty-units.ts:
 * computeHashCache and the comparison at the head of selectDirtyUnits).
 *
 * Addresses are numbers here: their spelling and its normalisation are not modelled. A list
 * in which only membership matters is a set.
 */
module HashCache {
  import opened Prelude
  import opened Containment
  import TypeOrder

  /** `refs`: every address an operand, a derived value or a scalar of the function gives. */
  datatype Fn = Fn(address: nat, name: string, refs: seq<nat>, content: string)

  /** `name` is the suggested one if there is one; `size` 0 stands for none known. */
  datatype Global = Global(address: nat, name: string, size: nat, aggregate: Option<string>, content: string)

  datatype Program = Program(functions: seq<Fn>, dataTypes: seq<ExtractedType>, globals: seq<Global>)

  datatype Hashing = Hashing(fn: Fn -> string, dt: ExtractedType -> string, global: Global -> string)

  datatype FnEntry = FnEntry(hash: string, name: string)

  datatype GlobalEntry = GlobalEntry(hash: string, name: string, aggregate: Option<string>)

  type GlobalKey = (nat, string)

  datatype Cache = Cache(
    functions: map<nat, FnEntry>, types: map<string, string>, typeOrder: Option<map<string, string>>,
    globals: map<GlobalKey, GlobalEntry>)

  function Key(g: Global): GlobalKey { (g.address, g.name) }

  function Path(dt: ExtractedType): string {
    if dt.category.Some? && dt.category.value != "" then dt.category.value + "::" + dt.name else dt.name
  }

  function Paths(types: seq<ExtractedType>): (r: seq<string>)
    ensures |r| == |types| && forall i :: 0 <= i < |r| ==> r[i] == Path(types[i])
  {
    seq(|types|, i requires 0 <= i < |types| => Path(types[i]))
  }

  /** The start of the last "::", or the length when there is none. */
  function LastSeparator(s: string): (n: nat)
    ensures n <= |s|
    ensures n < |s| ==> n + 2 <= |s| && s[n] == ':' && s[n + 1] == ':'
    ensures forall k :: 0 <= k < |s| - 1 && s[k] == ':' && s[k + 1] == ':' ==> k <= n < |s|
    decreases |s|
  {
    if |s| < 2 then |s|
    else if s[|s| - 2] == ':' && s[|s| - 1] == ':' then |s| - 2
    else
      var n := LastSeparator(s[..|s| - 1]);
      if n == |s| - 1 then |s| else n
  }

  /** A path's last part: what a type that is gone is known by. */
  function BareName(path: string): string {
    var n := LastSeparator(path);
    if n < |path| then path[n + 2..] else path
  }

  predicate SeparatorAt(s: string, k: nat) { k + 2 <= |s| && s[k] == ':' && s[k + 1] == ':' }

  lemma LastSeparatorIs(s: string, c: nat)
    requires SeparatorAt(s, c)
    ensures c <= LastSeparator(s) && SeparatorAt(s, LastSeparator(s))
    ensures LastSeparator(s) == c <==> forall k: nat :: SeparatorAt(s, k) ==> k <= c
  {
    var n := LastSeparator(s);
    assert c < |s| - 1 && s[c] == ':' && SeparatorAt(s, n);
    forall k: nat | SeparatorAt(s, k) ensures k <= n { assert k < |s| - 1 && s[k] == ':'; }
  }

  /** Where a path of a category has separators: between its parts, and where the name makes one. */
  lemma PathSeparators(category: string, name: string)
    ensures var path, c := category + "::" + name, |category|;
      && SeparatorAt(path, c) && path[c + 2..] == name
      && (SeparatorAt(path, c + 1) <==> name != "" && name[0] == ':')
      && forall j: nat :: SeparatorAt(path, c + 2 + j) <==> SeparatorAt(name, j)
  {
    var path, c := category + "::" + name, |category|;
    assert forall k: nat :: k < |name| ==> path[c + 2 + k] == name[k];
  }

  /** The bare name of a type's path is its name: no "::" inside it, and no ":" it could begin with. */
  lemma BareOfPath(dt: ExtractedType)
    ensures BareName(Path(dt)) == dt.name <==>
      (forall k :: !SeparatorAt(dt.name, k))
      && (OrNone(dt.category) != "" && dt.name != "" ==> dt.name[0] != ':')
  {
    hide LastSeparator;
    var path, n := Path(dt), LastSeparator(Path(dt));
    if OrNone(dt.category) != "" {
      var c := |dt.category.value|;
      PathSeparators(dt.category.value, dt.name);
      LastSeparatorIs(path, c);
      assert BareName(path) == dt.name <==> n == c;
      if n != c {
        assert SeparatorAt(path, n) && c < n;
        if n > c + 1 { assert SeparatorAt(path, c + 2 + (n - c - 2)) && SeparatorAt(dt.name, n - c - 2); }
      } else {
        assert !SeparatorAt(path, c + 1);
        forall k: nat ensures !SeparatorAt(dt.name, k) { assert !SeparatorAt(path, c + 2 + k); }
      }
    } else {
      NoSeparator(path);
    }
  }

  /** Two names that do not come back: one with a separator in it, one that begins with half of one. */
  lemma NamesAreLost(dt: ExtractedType)
    ensures BareName(Path(dt.(name := "A::B", category := None))) != "A::B"
    ensures BareName(Path(dt.(name := ":A", category := Some("C")))) != ":A"
  {
    hide BareName, Path;
    assert SeparatorAt("A::B", 1);
    BareOfPath(dt.(name := "A::B", category := None));
    BareOfPath(dt.(name := ":A", category := Some("C")));
  }

  function OrNone(s: Option<string>): string { if s.Some? then s.value else "" }

  lemma NoSeparator(s: string)
    ensures BareName(s) == s <==> forall k: nat :: !SeparatorAt(s, k)
  {
    assert LastSeparator(s) < |s| ==> |BareName(s)| < |s| && SeparatorAt(s, LastSeparator(s));
  }

  // ---------------------------------------------------------------------------
  // The snapshot
  // ---------------------------------------------------------------------------

  function FnEntries(h: Hashing, fns: seq<Fn>): map<nat, FnEntry> {
    if fns == [] then map[] else
      var f := fns[|fns| - 1];
      FnEntries(h, fns[..|fns| - 1])[f.address := FnEntry(h.fn(f), f.name)]
  }

  function TypeEntries(h: Hashing, types: seq<ExtractedType>): map<string, string> {
    if types == [] then map[] else
      var dt := types[|types| - 1];
      TypeEntries(h, types[..|types| - 1])[Path(dt) := h.dt(dt)]
  }

  function GlobalEntries(h: Hashing, globals: seq<Global>): map<GlobalKey, GlobalEntry> {
    if globals == [] then map[] else
      var g := globals[|globals| - 1];
      GlobalEntries(h, globals[..|globals| - 1])[Key(g) := GlobalEntry(h.global(g), g.name, g.aggregate)]
  }

  function CacheOf(h: Hashing, p: Program): Cache {
    Cache(FnEntries(h, p.functions), TypeEntries(h, p.dataTypes), Some(TypeOrder.Order(Paths(p.dataTypes))), GlobalEntries(h, p.globals))
  }

  /** `computeHashCache`. */
  method ComputeHashCache(h: Hashing, p: Program) returns (cache: Cache)
    ensures cache == CacheOf(h, p)
  {
    var functions: map<nat, FnEntry>, types: map<string, string>, globals: map<GlobalKey, GlobalEntry> := map[], map[], map[];
    for i := 0 to |p.functions|
      invariant functions == FnEntries(h, p.functions[..i])
    {
      var f := p.functions[i];
      assert p.functions[..i + 1][..i] == p.functions[..i];
      functions := functions[f.address := FnEntry(h.fn(f), f.name)];
    }
    for i := 0 to |p.dataTypes|
      invariant types == TypeEntries(h, p.dataTypes[..i])
    {
      var dt := p.dataTypes[i];
      assert p.dataTypes[..i + 1][..i] == p.dataTypes[..i];
      types := types[Path(dt) := h.dt(dt)];
    }
    var typeOrder := TypeOrder.PredecessorMap(Paths(p.dataTypes));
    for i := 0 to |p.globals|
      invariant globals == GlobalEntries(h, p.globals[..i])
    {
      var g := p.globals[i];
      assert p.globals[..i + 1][..i] == p.globals[..i];
      globals := globals[Key(g) := GlobalEntry(h.global(g), g.name, g.aggregate)];
    }
    assert p.functions[..|p.functions|] == p.functions && p.dataTypes[..|p.dataTypes|] == p.dataTypes;
    assert p.globals[..|p.globals|] == p.globals;
    cache := Cache(functions, types, Some(typeOrder), globals);
  }

  /** One function at an address, one type at a path, one global under an address and a name. */
  ghost predicate Distinct(p: Program) {
    && (forall i, j :: 0 <= i < j < |p.functions| ==> p.functions[i].address != p.functions[j].address)
    && (forall i, j :: 0 <= i < j < |p.dataTypes| ==> Path(p.dataTypes[i]) != Path(p.dataTypes[j]))
    && (forall i, j :: 0 <= i < j < |p.globals| ==> Key(p.globals[i]) != Key(p.globals[j]))
  }

  /** Then the snapshot holds each record and nothing else. */
  ghost predicate Records(cache: Cache, h: Hashing, p: Program) {
    && (forall f :: f in p.functions ==> f.address in cache.functions && cache.functions[f.address] == FnEntry(h.fn(f), f.name))
    && (forall a :: a in cache.functions ==> exists f :: f in p.functions && f.address == a)
    && (forall dt :: dt in p.dataTypes ==> Path(dt) in cache.types && cache.types[Path(dt)] == h.dt(dt))
    && (forall k :: k in cache.types ==> exists dt :: dt in p.dataTypes && Path(dt) == k)
    && (forall g :: g in p.globals ==> Key(g) in cache.globals && cache.globals[Key(g)] == GlobalEntry(h.global(g), g.name, g.aggregate))
    && (forall k :: k in cache.globals ==> exists g :: g in p.globals && Key(g) == k)
  }

  lemma {:induction false} FnEntriesRecord(h: Hashing, fns: seq<Fn>)
    requires forall i, j :: 0 <= i < j < |fns| ==> fns[i].address != fns[j].address
    ensures forall f :: f in fns ==> f.address in FnEntries(h, fns) && FnEntries(h, fns)[f.address] == FnEntry(h.fn(f), f.name)
    ensures forall a :: a in FnEntries(h, fns) ==> exists f :: f in fns && f.address == a
    decreases |fns|
  {
    if fns != [] {
      var n := |fns| - 1;
      FnEntriesRecord(h, fns[..n]);
      assert fns == fns[..n] + [fns[n]];
    }
  }

  lemma {:induction false} TypeEntriesRecord(h: Hashing, types: seq<ExtractedType>)
    requires forall i, j :: 0 <= i < j < |types| ==> Path(types[i]) != Path(types[j])
    ensures forall dt :: dt in types ==> Path(dt) in TypeEntries(h, types) && TypeEntries(h, types)[Path(dt)] == h.dt(dt)
    ensures forall k :: k in TypeEntries(h, types) ==> exists dt :: dt in types && Path(dt) == k
    decreases |types|
  {
    hide Path;
    if types != [] {
      var n := |types| - 1;
      TypeEntriesRecord(h, types[..n]);
      assert types == types[..n] + [types[n]];
    }
  }

  lemma {:induction false} GlobalEntriesRecord(h: Hashing, globals: seq<Global>)
    requires forall i, j :: 0 <= i < j < |globals| ==> Key(globals[i]) != Key(globals[j])
    ensures forall g :: g in globals ==>
      Key(g) in GlobalEntries(h, globals) && GlobalEntries(h, globals)[Key(g)] == GlobalEntry(h.global(g), g.name, g.aggregate)
    ensures forall k :: k in GlobalEntries(h, globals) ==> exists g :: g in globals && Key(g) == k
    decreases |globals|
  {
    if globals != [] {
      var n := |globals| - 1;
      GlobalEntriesRecord(h, globals[..n]);
      assert globals == globals[..n] + [globals[n]];
    }
  }

  lemma SnapshotRecords(h: Hashing, p: Program)
    requires Distinct(p)
    ensures Records(CacheOf(h, p), h, p)
  {
    FnEntriesRecord(h, p.functions);
    TypeEntriesRecord(h, p.dataTypes);
    GlobalEntriesRecord(h, p.globals);
  }

  // ---------------------------------------------------------------------------
  // What moved
  // ---------------------------------------------------------------------------

  /**
   * `changed`: names, old and new; `gone`: those of symbols no longer there; `addrs`: addresses of
   * globals that changed or are gone; `valueTypes`: struct types an initialised instance of
   * which changed; `orderMoved`: types whose predecessor in the list differs.
   */
  datatype Changes = Changes(
    changed: set<string>, gone: set<string>, renamedTo: set<string>, typeNames: set<string>, addrs: set<nat>,
    valueTypes: set<string>, orderMoved: set<string>)

  predicate FnMoved(h: Hashing, prev: Cache, f: Fn) {
    f.address !in prev.functions || prev.functions[f.address].hash != h.fn(f)
  }

  predicate TypeMoved(h: Hashing, prev: Cache, dt: ExtractedType) {
    Path(dt) !in prev.types || prev.types[Path(dt)] != h.dt(dt)
  }

  predicate GlobalMoved(h: Hashing, prev: Cache, g: Global) {
    Key(g) !in prev.globals || prev.globals[Key(g)].hash != h.global(g)
  }

  predicate OrderMoved(prev: Cache, now: map<string, string>, dt: ExtractedType) {
    && prev.typeOrder.Some? && Path(dt) in prev.typeOrder.value
    && (Path(dt) in now ==> prev.typeOrder.value[Path(dt)] != now[Path(dt)])
  }

  function OldName(prev: Cache, f: Fn): set<string> {
    if f.address in prev.functions then {prev.functions[f.address].name} else {}
  }

  function OldAggregate(prev: Cache, g: Global): set<string> {
    if Key(g) in prev.globals && prev.globals[Key(g)].aggregate.Some? then {prev.globals[Key(g)].aggregate.value} else {}
  }

  function OneOrNone(o: Option<string>): set<string> { if o.Some? then {o.value} else {} }

  /** What one record adds, if it moved. */
  function FnChange(h: Hashing, prev: Cache, f: Fn): set<string> {
    if FnMoved(h, prev, f) then {f.name} + OldName(prev, f) else {}
  }

  function FnChanges(h: Hashing, prev: Cache, fns: seq<Fn>): (r: set<string>)
    ensures forall f :: f in fns ==> FnChange(h, prev, f) <= r
  {
    if fns == [] then {} else
      assert fns == fns[..|fns| - 1] + [fns[|fns| - 1]];
      FnChanges(h, prev, fns[..|fns| - 1]) + FnChange(h, prev, fns[|fns| - 1])
  }

  function TypeChange(h: Hashing, prev: Cache, dt: ExtractedType): set<string> {
    if TypeMoved(h, prev, dt) then {dt.name} else {}
  }

  function TypeChanges(h: Hashing, prev: Cache, types: seq<ExtractedType>): (r: set<string>)
    ensures forall dt :: dt in types ==> TypeChange(h, prev, dt) <= r
  {
    if types == [] then {} else
      assert types == types[..|types| - 1] + [types[|types| - 1]];
      TypeChanges(h, prev, types[..|types| - 1]) + TypeChange(h, prev, types[|types| - 1])
  }

  function OrderMoves(prev: Cache, now: map<string, string>, types: seq<ExtractedType>): (r: set<string>)
    ensures forall dt :: dt in types && OrderMoved(prev, now, dt) ==> dt.name in r
  {
    if types == [] then {} else
      assert types == types[..|types| - 1] + [types[|types| - 1]];
      OrderMoves(prev, now, types[..|types| - 1])
      + if OrderMoved(prev, now, types[|types| - 1]) then {types[|types| - 1].name} else {}
  }

  datatype GlobalDiff = GlobalDiff(names: set<string>, addrs: set<nat>, valueTypes: set<string>)

  function GlobalChange(h: Hashing, prev: Cache, g: Global): GlobalDiff {
    if GlobalMoved(h, prev, g) then
      GlobalDiff(if g.name != "" then {g.name} else {}, {g.address}, OneOrNone(g.aggregate) + OldAggregate(prev, g))
    else GlobalDiff({}, {}, {})
  }

  predicate Within(a: GlobalDiff, b: GlobalDiff) { a.names <= b.names && a.addrs <= b.addrs && a.valueTypes <= b.valueTypes }

  function Both(a: GlobalDiff, b: GlobalDiff): GlobalDiff {
    GlobalDiff(a.names + b.names, a.addrs + b.addrs, a.valueTypes + b.valueTypes)
  }

  function GlobalChanges(h: Hashing, prev: Cache, globals: seq<Global>): (r: GlobalDiff)
    ensures forall g :: g in globals ==> Within(GlobalChange(h, prev, g), r)
  {
    if globals == [] then GlobalDiff({}, {}, {}) else
      assert globals == globals[..|globals| - 1] + [globals[|globals| - 1]];
      Both(GlobalChanges(h, prev, globals[..|globals| - 1]), GlobalChange(h, prev, globals[|globals| - 1]))
  }

  function GoneFunctions(prev: Cache, p: Program): (r: set<nat>)
    ensures r <= prev.functions.Keys
  {
    prev.functions.Keys - set f | f in p.functions :: f.address
  }

  function GoneTypes(prev: Cache, p: Program): (r: set<string>)
    ensures r <= prev.types.Keys
  {
    prev.types.Keys - set dt | dt in p.dataTypes :: Path(dt)
  }

  function GoneGlobals(prev: Cache, p: Program): (r: set<GlobalKey>)
    ensures r <= prev.globals.Keys
  {
    prev.globals.Keys - set g | g in p.globals :: Key(g)
  }

  function RenamedTo(prev: Cache, p: Program): set<string> {
    set f | f in p.functions && f.address in prev.functions && prev.functions[f.address].name != f.name :: f.name
  }

  function GoneNames(prev: Cache, p: Program): set<string> {
    (set a | a in GoneFunctions(prev, p) :: prev.functions[a].name)
    + (set k | k in GoneGlobals(prev, p) :: prev.globals[k].name)
    + (set k | k in GoneTypes(prev, p) :: BareName(k))
  }

  function ChangesOf(h: Hashing, prev: Cache, p: Program): Changes {
    var globals := GlobalChanges(h, prev, p.globals);
    var bares := set k | k in GoneTypes(prev, p) :: BareName(k);
    var types := TypeChanges(h, prev, p.dataTypes);
    Changes(
      FnChanges(h, prev, p.functions) + types + globals.names + GoneNames(prev, p),
      GoneNames(prev, p),
      RenamedTo(prev, p),
      types + bares,
      globals.addrs + (set k | k in GoneGlobals(prev, p) :: k.0),
      globals.valueTypes + (set k | k in GoneGlobals(prev, p) && prev.globals[k].aggregate.Some? :: prev.globals[k].aggregate.value),
      OrderMoves(prev, TypeOrder.Order(Paths(p.dataTypes)), p.dataTypes))
  }

  method CompareFunctions(h: Hashing, prev: Cache, functions: seq<Fn>) returns (changed: set<string>)
    ensures changed == FnChanges(h, prev, functions)
  {
    changed := {};
    for i := 0 to |functions|
      invariant changed == FnChanges(h, prev, functions[..i])
    {
      var f := functions[i];
      assert functions[..i + 1][..i] == functions[..i];
      if FnMoved(h, prev, f) {
        changed := changed + {f.name};
        if f.address in prev.functions && prev.functions[f.address].name != f.name {
          changed := changed + {prev.functions[f.address].name};
        }
      }
    }
    assert functions[..|functions|] == functions;
  }

  method CompareTypes(h: Hashing, prev: Cache, types: seq<ExtractedType>) returns (typeNames: set<string>, orderMoved: set<string>)
    ensures typeNames == TypeChanges(h, prev, types)
    ensures orderMoved == OrderMoves(prev, TypeOrder.Order(Paths(types)), types)
  {
    hide OrderMoved, TypeMoved, TypeOrder.Order, Path;
    typeNames, orderMoved := {}, {};
    var orderNow := TypeOrder.PredecessorMap(Paths(types));
    for i := 0 to |types|
      invariant typeNames == TypeChanges(h, prev, types[..i])
      invariant orderMoved == OrderMoves(prev, orderNow, types[..i])
    {
      var dt := types[i];
      assert types[..i + 1][..i] == types[..i];
      if OrderMoved(prev, orderNow, dt) { orderMoved := orderMoved + {dt.name}; }
      if TypeMoved(h, prev, dt) { typeNames := typeNames + {dt.name}; }
    }
    assert types[..|types|] == types;
  }

  method CompareGlobals(h: Hashing, prev: Cache, globals: seq<Global>) returns (diff: GlobalDiff)
    ensures diff == GlobalChanges(h, prev, globals)
  {
    diff := GlobalDiff({}, {}, {});
    for i := 0 to |globals|
      invariant diff == GlobalChanges(h, prev, globals[..i])
    {
      var g := globals[i];
      assert globals[..i + 1][..i] == globals[..i];
      if GlobalMoved(h, prev, g) {
        diff := diff.(addrs := diff.addrs + {g.address}, valueTypes := diff.valueTypes + OneOrNone(g.aggregate) + OldAggregate(prev, g));
        if g.name != "" { diff := diff.(names := diff.names + {g.name}); }
      }
    }
    assert globals[..|globals|] == globals;
  }

  /** The comparison, list by list; then what was recorded and is there no more. */
  method Compare(h: Hashing, prev: Cache, p: Program) returns (ch: Changes)
    ensures ch == ChangesOf(h, prev, p)
  {
    hide FnChanges, TypeChanges, OrderMoves, GlobalChanges, GoneNames, GoneGlobals, GoneTypes, RenamedTo, TypeOrder.Order;
    var changed := CompareFunctions(h, prev, p.functions);
    var typeNames, orderMoved := CompareTypes(h, prev, p.dataTypes);
    var globals := CompareGlobals(h, prev, p.globals);
    var bares := set k | k in GoneTypes(prev, p) :: BareName(k);
    var gone := GoneGlobals(prev, p);
    ch := Changes(
      changed + typeNames + globals.names + GoneNames(prev, p), GoneNames(prev, p), RenamedTo(prev, p), typeNames + bares,
      globals.addrs + (set k | k in gone :: k.0),
      globals.valueTypes + (set k | k in gone && prev.globals[k].aggregate.Some? :: prev.globals[k].aggregate.value),
      orderMoved);
  }
}
