/**
 * What a comparison reports is what differs (packages/live/src/dirty-units.ts, the head of
 * selectDirtyUnits): each part of the answer told from the two programs alone, in both
 * directions, when the snapshot was taken of the one and is compared with the other.
 */
module ChangesExact {
  import opened Prelude
  import opened Containment
  import opened HashCache
  import opened DirtyUnits
  import TypeOrder

  ghost predicate Injective(h: Hashing) {
    && (forall f, g :: h.fn(f) == h.fn(g) ==> f == g)
    && (forall a, b :: h.dt(a) == h.dt(b) ==> a == b)
    && (forall a, b :: h.global(a) == h.global(b) ==> a == b)
  }

  /** Two generations of a program: the one the cache recorded and the present one. */
  ghost predicate Compared(h: Hashing, before: Program, now: Program) {
    Injective(h) && Distinct(before) && Distinct(now)
  }

  /** ... in which the names of types come back from their paths. */
  ghost predicate Comparable(h: Hashing, before: Program, now: Program) {
    && Compared(h, before, now)
    && (forall dt :: dt in before.dataTypes || dt in now.dataTypes ==> BareName(Path(dt)) == dt.name)
  }

  lemma ComparableIsCompared(h: Hashing, before: Program, now: Program)
    requires Comparable(h, before, now)
    ensures Compared(h, before, now)
  {
  }

  /** A record in one list and not in the other. */
  ghost predicate OnOneSide<T>(before: seq<T>, now: seq<T>, x: T) { (x in before) != (x in now) }

  ghost predicate Differs(before: Program, now: Program, g: Global) { OnOneSide(before.globals, now.globals, g) }

  // ---------------------------------------------------------------------------
  // Functions
  // ---------------------------------------------------------------------------

  lemma {:induction false} FnChangesFrom(h: Hashing, prev: Cache, fns: seq<Fn>, n: string) returns (f: Fn)
    requires n in FnChanges(h, prev, fns)
    ensures f in fns && n in FnChange(h, prev, f)
    decreases |fns|
  {
    hide FnChange;
    var last := |fns| - 1;
    if n in FnChanges(h, prev, fns[..last]) { f := FnChangesFrom(h, prev, fns[..last], n); } else { f := fns[last]; }
  }

  lemma RecordedFn(h: Hashing, p: Program, was: Fn)
    requires Distinct(p) && was in p.functions
    ensures var entries := CacheOf(h, p).functions; was.address in entries && entries[was.address] == FnEntry(h.fn(was), was.name)
  {
    hide Path, TypeEntries, GlobalEntries;
    FnEntriesRecord(h, p.functions);
  }

  lemma FnAtAddress(h: Hashing, p: Program, a: nat) returns (was: Fn)
    requires Distinct(p) && a in CacheOf(h, p).functions
    ensures was in p.functions && was.address == a && CacheOf(h, p).functions[a] == FnEntry(h.fn(was), was.name)
  {
    hide Path, TypeEntries, GlobalEntries;
    FnEntriesRecord(h, p.functions);
    was :| was in p.functions && was.address == a;
  }

  lemma FnMovedIsNew(h: Hashing, before: Program, f: Fn)
    requires Injective(h) && Distinct(before)
    ensures FnMoved(h, CacheOf(h, before), f) <==> f !in before.functions
  {
    hide CacheOf, Distinct;
    if f in before.functions {
      RecordedFn(h, before, f);
    } else if f.address in CacheOf(h, before).functions {
      var was := FnAtAddress(h, before, f.address);
      assert h.fn(was) == h.fn(f) ==> was == f;
    }
  }

  /** A name is among the functions' changes exactly when a function of that name differs. */
  lemma FunctionNamesExactly(h: Hashing, before: Program, now: Program, n: string)
    requires Compared(h, before, now)
    ensures var prev := CacheOf(h, before);
      n in FnChanges(h, prev, now.functions) || (exists a :: a in GoneFunctions(prev, now) && prev.functions[a].name == n)
      <==> exists f: Fn :: OnOneSide(before.functions, now.functions, f) && f.name == n
  {
    hide CacheOf, FnChanges, FnMoved;
    var prev := CacheOf(h, before);
    if n in FnChanges(h, prev, now.functions) {
      var f := FnChangesFrom(h, prev, now.functions, n);
      FnMovedIsNew(h, before, f);
      if f.name != n {
        var was := FnAtAddress(h, before, f.address);
        StillThere(before.functions, now, f, was);
      }
      assert f.name == n ==> OnOneSide(before.functions, now.functions, f);
    }
    if a :| a in GoneFunctions(prev, now) && prev.functions[a].name == n {
      var was := FnAtAddress(h, before, a);
      assert OnOneSide(before.functions, now.functions, was) && was.name == n;
    }
    if f: Fn :| OnOneSide(before.functions, now.functions, f) && f.name == n {
      FunctionIsNamed(h, before, now, f);
    }
  }

  /** What stood at the address of a new function is not there any more. */
  lemma StillThere(before: seq<Fn>, now: Program, f: Fn, was: Fn)
    requires Distinct(now) && was in before && f in now.functions && f !in before && f.address == was.address
    ensures OnOneSide(before, now.functions, was)
  {
  }

  lemma FunctionIsNamed(h: Hashing, before: Program, now: Program, f: Fn)
    requires Compared(h, before, now) && OnOneSide(before.functions, now.functions, f)
    ensures var prev := CacheOf(h, before);
      f.name in FnChanges(h, prev, now.functions) || (exists a :: a in GoneFunctions(prev, now) && prev.functions[a].name == f.name)
  {
    hide CacheOf, FnChanges, FnMoved;
    var prev := CacheOf(h, before);
    if f in now.functions {
      FnMovedIsNew(h, before, f);
      assert f.name in FnChange(h, prev, f);
    } else {
      RecordedFn(h, before, f);
      if present :| present in now.functions && present.address == f.address {
        FnMovedIsNew(h, before, present);
        assert present !in before.functions by { assert Distinct(before); }
        assert f.name in FnChange(h, prev, present);
      } else {
        assert f.address in GoneFunctions(prev, now);
      }
    }
  }

  // ---------------------------------------------------------------------------
  // Types
  // ---------------------------------------------------------------------------

  lemma {:induction false} TypeChangesFrom(h: Hashing, prev: Cache, types: seq<ExtractedType>, n: string) returns (dt: ExtractedType)
    requires n in TypeChanges(h, prev, types)
    ensures dt in types && TypeMoved(h, prev, dt) && dt.name == n
    decreases |types|
  {
    hide TypeMoved;
    var last := |types| - 1;
    if n in TypeChanges(h, prev, types[..last]) { dt := TypeChangesFrom(h, prev, types[..last], n); } else { dt := types[last]; }
  }

  lemma RecordedType(h: Hashing, p: Program, was: ExtractedType)
    requires Distinct(p) && was in p.dataTypes
    ensures var entries := CacheOf(h, p).types; Path(was) in entries && entries[Path(was)] == h.dt(was)
  {
    hide Path, FnEntries, GlobalEntries;
    TypeEntriesRecord(h, p.dataTypes);
  }

  lemma TypeAtPath(h: Hashing, p: Program, k: string) returns (was: ExtractedType)
    requires Distinct(p) && k in CacheOf(h, p).types
    ensures was in p.dataTypes && Path(was) == k && CacheOf(h, p).types[k] == h.dt(was)
  {
    hide Path, FnEntries, GlobalEntries;
    TypeEntriesRecord(h, p.dataTypes);
    was :| was in p.dataTypes && Path(was) == k;
  }

  lemma TypeMovedIsNew(h: Hashing, before: Program, dt: ExtractedType)
    requires Injective(h) && Distinct(before)
    ensures TypeMoved(h, CacheOf(h, before), dt) <==> dt !in before.dataTypes
  {
    hide CacheOf, Distinct, Path;
    if dt in before.dataTypes {
      RecordedType(h, before, dt);
    } else if Path(dt) in CacheOf(h, before).types {
      var was := TypeAtPath(h, before, Path(dt));
      assert h.dt(was) == h.dt(dt) ==> was == dt;
    }
  }

  /** A type of the old program at whose path nothing stands now. */
  ghost predicate PathIsGone(before: Program, now: Program, dt: ExtractedType) {
    dt in before.dataTypes && forall t: ExtractedType :: t in now.dataTypes ==> Path(t) != Path(dt)
  }

  lemma GoneTypeWas(h: Hashing, before: Program, now: Program, n: string)
    requires Distinct(before)
    ensures (exists k :: k in GoneTypes(CacheOf(h, before), now) && BareName(k) == n)
      <==> exists dt: ExtractedType :: PathIsGone(before, now, dt) && BareName(Path(dt)) == n
  {
    hide CacheOf, Distinct, Path, BareName;
    var prev := CacheOf(h, before);
    if k :| k in GoneTypes(prev, now) && BareName(k) == n {
      var was := TypeAtPath(h, before, k);
      assert PathIsGone(before, now, was);
    }
    if dt: ExtractedType :| PathIsGone(before, now, dt) && BareName(Path(dt)) == n {
      RecordedType(h, before, dt);
      assert Path(dt) in GoneTypes(prev, now);
    }
  }

  /** A name is a changed type name exactly when a type that is new, or as it was not, has it, or the path of one that is gone ends with it. */
  lemma TypeNamesExactly(h: Hashing, before: Program, now: Program, n: string)
    requires Compared(h, before, now)
    ensures n in ChangesOf(h, CacheOf(h, before), now).typeNames <==>
      || (exists dt: ExtractedType :: dt in now.dataTypes && dt !in before.dataTypes && dt.name == n)
      || (exists dt: ExtractedType :: PathIsGone(before, now, dt) && BareName(Path(dt)) == n)
  {
    hide CacheOf, TypeMoved, BareName, Path, PathIsGone, FnChanges, TypeChanges, GlobalChanges, OrderMoves, Distinct;
    var prev := CacheOf(h, before);
    GoneTypeWas(h, before, now, n);
    if n in TypeChanges(h, prev, now.dataTypes) {
      var dt := TypeChangesFrom(h, prev, now.dataTypes, n);
      TypeMovedIsNew(h, before, dt);
    }
    if dt: ExtractedType :| dt in now.dataTypes && dt !in before.dataTypes && dt.name == n {
      TypeMovedIsNew(h, before, dt);
      assert n in TypeChange(h, prev, dt);
    }
  }

  /** Where names come back from paths: exactly when a type of that name differs. */
  lemma TypeNamesDiffer(h: Hashing, before: Program, now: Program, n: string)
    requires Comparable(h, before, now)
    ensures n in ChangesOf(h, CacheOf(h, before), now).typeNames <==>
      exists dt: ExtractedType :: OnOneSide(before.dataTypes, now.dataTypes, dt) && dt.name == n
  {
    hide ChangesOf, CacheOf, Path, BareName, Distinct, Injective;
    TypeNamesExactly(h, before, now, n);
    if dt: ExtractedType :| PathIsGone(before, now, dt) && BareName(Path(dt)) == n {
      assert OnOneSide(before.dataTypes, now.dataTypes, dt);
    }
    if dt: ExtractedType :| OnOneSide(before.dataTypes, now.dataTypes, dt) && dt.name == n {
      if dt in before.dataTypes && !PathIsGone(before, now, dt) {
        var present :| present in now.dataTypes && Path(present) == Path(dt);
        TookItsPath(before, now, dt, present);
        assert present.name == BareName(Path(present)) == n;
      }
    }
  }

  lemma TookItsPath(before: Program, now: Program, dt: ExtractedType, present: ExtractedType)
    requires Distinct(before) && dt in before.dataTypes && dt !in now.dataTypes
    requires present in now.dataTypes && Path(present) == Path(dt)
    ensures present !in before.dataTypes
  {
    hide Path;
  }

  // ---------------------------------------------------------------------------
  // Globals
  // ---------------------------------------------------------------------------

  lemma {:induction false} MarkedByName(h: Hashing, prev: Cache, globals: seq<Global>, n: string) returns (g: Global)
    requires n in GlobalChanges(h, prev, globals).names
    ensures g in globals && GlobalMoved(h, prev, g) && g.name == n && n != ""
    decreases |globals|
  {
    hide GlobalMoved;
    var last := |globals| - 1;
    if n in GlobalChanges(h, prev, globals[..last]).names { g := MarkedByName(h, prev, globals[..last], n); } else { g := globals[last]; }
  }

  lemma {:induction false} MarkedByAddress(h: Hashing, prev: Cache, globals: seq<Global>, a: nat) returns (g: Global)
    requires a in GlobalChanges(h, prev, globals).addrs
    ensures g in globals && GlobalMoved(h, prev, g) && g.address == a
    decreases |globals|
  {
    hide GlobalMoved;
    var n := |globals| - 1;
    if a in GlobalChanges(h, prev, globals[..n]).addrs { g := MarkedByAddress(h, prev, globals[..n], a); } else { g := globals[n]; }
  }

  lemma {:induction false} MarkedByInstance(h: Hashing, prev: Cache, globals: seq<Global>, t: string) returns (g: Global)
    requires t in GlobalChanges(h, prev, globals).valueTypes
    ensures g in globals && GlobalMoved(h, prev, g) && (g.aggregate == Some(t) || t in OldAggregate(prev, g))
    decreases |globals|
  {
    hide GlobalMoved, OldAggregate;
    var n := |globals| - 1;
    if t in GlobalChanges(h, prev, globals[..n]).valueTypes { g := MarkedByInstance(h, prev, globals[..n], t); } else { g := globals[n]; }
  }

  lemma RecordedGlobal(h: Hashing, p: Program, was: Global)
    requires Distinct(p) && was in p.globals
    ensures var entries := CacheOf(h, p).globals;
      Key(was) in entries && entries[Key(was)] == GlobalEntry(h.global(was), was.name, was.aggregate)
  {
    hide Path, FnEntries, TypeEntries;
    GlobalEntriesRecord(h, p.globals);
  }

  lemma GlobalAtKey(h: Hashing, p: Program, k: GlobalKey) returns (was: Global)
    requires Distinct(p) && k in CacheOf(h, p).globals
    ensures was in p.globals && Key(was) == k && CacheOf(h, p).globals[k] == GlobalEntry(h.global(was), was.name, was.aggregate)
  {
    hide Path, FnEntries, TypeEntries;
    GlobalEntriesRecord(h, p.globals);
    was :| was in p.globals && Key(was) == k;
  }

  lemma MovedIsNew(h: Hashing, before: Program, now: Program, g: Global)
    requires Compared(h, before, now) && g in now.globals
    ensures GlobalMoved(h, CacheOf(h, before), g) <==> g !in before.globals
  {
    hide CacheOf, Distinct;
    if g in before.globals {
      RecordedGlobal(h, before, g);
    } else if Key(g) in CacheOf(h, before).globals {
      var was := GlobalAtKey(h, before, Key(g));
      assert h.global(was) == h.global(g) ==> was == g;
    }
  }

  lemma OldInstance(h: Hashing, before: Program, now: Program, g: Global, t: string) returns (was: Global)
    requires Compared(h, before, now) && g in now.globals && GlobalMoved(h, CacheOf(h, before), g) && t in OldAggregate(CacheOf(h, before), g)
    ensures was.aggregate == Some(t) && Differs(before, now, was)
  {
    hide CacheOf;
    was := GlobalAtKey(h, before, Key(g));
    MovedIsNew(h, before, now, g);
  }

  /** A global of the old program under whose address and name nothing stands now. */
  ghost predicate KeyIsGone(before: Program, now: Program, g: Global) {
    g in before.globals && forall other: Global :: other in now.globals ==> other.address != g.address || other.name != g.name
  }

  lemma GoneGlobalWas(h: Hashing, before: Program, now: Program, k: GlobalKey) returns (was: Global)
    requires Distinct(before) && k in GoneGlobals(CacheOf(h, before), now)
    ensures Key(was) == k && KeyIsGone(before, now, was) && CacheOf(h, before).globals[k] == GlobalEntry(h.global(was), was.name, was.aggregate)
  {
    hide CacheOf, Distinct;
    was := GlobalAtKey(h, before, k);
  }

  lemma IsGoneGlobal(h: Hashing, before: Program, now: Program, was: Global)
    requires Distinct(before) && KeyIsGone(before, now, was)
    ensures var prev := CacheOf(h, before);
      Key(was) in GoneGlobals(prev, now) && prev.globals[Key(was)] == GlobalEntry(h.global(was), was.name, was.aggregate)
  {
    hide CacheOf, Distinct;
    RecordedGlobal(h, before, was);
  }

  /** A global that differs is recorded as gone, or stands under its key, changed. */
  lemma GlobalIsMarked(h: Hashing, before: Program, now: Program, g: Global)
    requires Compared(h, before, now) && Differs(before, now, g)
    ensures var prev := CacheOf(h, before);
      || KeyIsGone(before, now, g)
      || exists present: Global :: present in now.globals && Key(present) == Key(g) && GlobalMoved(h, prev, present)
           && (present == g || (g.aggregate.Some? ==> g.aggregate.value in OldAggregate(prev, present)))
  {
    hide CacheOf, GlobalMoved;
    if g in now.globals {
      MovedIsNew(h, before, now, g);
    } else if present :| present in now.globals && Key(present) == Key(g) {
      RecordedGlobal(h, before, g);
      MovedIsNew(h, before, now, present);
    }
  }

  lemma GlobalDiffers(h: Hashing, before: Program, now: Program, g: Global)
    requires Compared(h, before, now) && Differs(before, now, g)
    ensures var ch := ChangesOf(h, CacheOf(h, before), now);
      (g.name != "" ==> g.name in ch.changed) && g.address in ch.addrs && (g.aggregate.Some? ==> g.aggregate.value in ch.valueTypes)
  {
    hide CacheOf, FnChanges, TypeChanges, OrderMoves, GlobalChanges, GlobalMoved, Distinct;
    var prev := CacheOf(h, before);
    var diff := GlobalChanges(h, prev, now.globals);
    GlobalIsMarked(h, before, now, g);
    if KeyIsGone(before, now, g) {
      IsGoneGlobal(h, before, now, g);
      assert Key(g).0 == g.address;
    } else {
      var present :| present in now.globals && Key(present) == Key(g) && GlobalMoved(h, prev, present)
           && (present == g || (g.aggregate.Some? ==> g.aggregate.value in OldAggregate(prev, present)));
      assert Within(GlobalChange(h, prev, present), diff);
    }
  }

  lemma AddressDiffers(h: Hashing, before: Program, now: Program, a: nat)
    requires Compared(h, before, now) && a in ChangesOf(h, CacheOf(h, before), now).addrs
    ensures exists g: Global :: Differs(before, now, g) && g.address == a
  {
    hide CacheOf, GlobalChanges, FnChanges, TypeChanges, OrderMoves, GoneGlobals, GoneNames, GlobalMoved, Distinct;
    var prev := CacheOf(h, before);
    if a in GlobalChanges(h, prev, now.globals).addrs {
      var g := MarkedByAddress(h, prev, now.globals, a);
      MovedIsNew(h, before, now, g);
      assert Differs(before, now, g);
    } else {
      var k :| k in GoneGlobals(prev, now) && k.0 == a;
      var was := GoneGlobalWas(h, before, now, k);
      assert Differs(before, now, was) && was.address == a;
    }
  }

  lemma InstanceDiffers(h: Hashing, before: Program, now: Program, t: string)
    requires Compared(h, before, now) && t in ChangesOf(h, CacheOf(h, before), now).valueTypes
    ensures exists g: Global :: Differs(before, now, g) && g.aggregate == Some(t)
  {
    hide CacheOf, GlobalChanges, FnChanges, TypeChanges, OrderMoves, GoneGlobals, GoneNames, GlobalMoved, OldAggregate, Distinct;
    var prev := CacheOf(h, before);
    if t in GlobalChanges(h, prev, now.globals).valueTypes {
      var g := MarkedByInstance(h, prev, now.globals, t);
      MovedIsNew(h, before, now, g);
      if g.aggregate == Some(t) { assert Differs(before, now, g); } else { var was := OldInstance(h, before, now, g, t); }
    } else {
      var k :| k in GoneGlobals(prev, now) && prev.globals[k].aggregate == Some(t);
      var was := GoneGlobalWas(h, before, now, k);
      assert Differs(before, now, was);
    }
  }

  /** An address is reported exactly when a global at it differs, a value type exactly when an instance of it does. */
  lemma AddressesExactly(h: Hashing, before: Program, now: Program, a: nat, t: string)
    requires Compared(h, before, now)
    ensures var ch := ChangesOf(h, CacheOf(h, before), now);
      && (a in ch.addrs <==> exists g: Global :: Differs(before, now, g) && g.address == a)
      && (t in ch.valueTypes <==> exists g: Global :: Differs(before, now, g) && g.aggregate == Some(t))
  {
    hide CacheOf, ChangesOf, Compared, Differs;
    var ch := ChangesOf(h, CacheOf(h, before), now);
    if a in ch.addrs { AddressDiffers(h, before, now, a); }
    if t in ch.valueTypes { InstanceDiffers(h, before, now, t); }
    forall g: Global | Differs(before, now, g) ensures g.address in ch.addrs && (g.aggregate.Some? ==> g.aggregate.value in ch.valueTypes) {
      GlobalDiffers(h, before, now, g);
    }
  }

  /** A name among the globals' changes: a nameless global counts only when it is gone. */
  lemma GlobalNamesExactly(h: Hashing, before: Program, now: Program, n: string)
    requires Compared(h, before, now)
    ensures var prev := CacheOf(h, before);
      n in GlobalChanges(h, prev, now.globals).names || (exists k :: k in GoneGlobals(prev, now) && prev.globals[k].name == n)
      <==> exists g: Global :: Differs(before, now, g) && g.name == n && (n != "" || KeyIsGone(before, now, g))
  {
    hide CacheOf, GlobalChanges, GlobalMoved, Distinct, KeyIsGone;
    var prev := CacheOf(h, before);
    if n in GlobalChanges(h, prev, now.globals).names {
      var g := MarkedByName(h, prev, now.globals, n);
      MovedIsNew(h, before, now, g);
      assert Differs(before, now, g);
    }
    if k :| k in GoneGlobals(prev, now) && prev.globals[k].name == n {
      var was := GoneGlobalWas(h, before, now, k);
      GoneIsOnOneSide(before, now, was);
    }
    if g: Global :| Differs(before, now, g) && g.name == n && (n != "" || KeyIsGone(before, now, g)) {
      GlobalIsMarked(h, before, now, g);
      if KeyIsGone(before, now, g) {
        IsGoneGlobal(h, before, now, g);
      } else {
        var present :| present in now.globals && Key(present) == Key(g) && GlobalMoved(h, prev, present);
        assert Within(GlobalChange(h, prev, present), GlobalChanges(h, prev, now.globals));
      }
    }
  }

  lemma GoneIsOnOneSide(before: Program, now: Program, was: Global)
    requires KeyIsGone(before, now, was)
    ensures Differs(before, now, was)
  {
  }

  // ---------------------------------------------------------------------------
  // The order of the types
  // ---------------------------------------------------------------------------

  lemma {:induction false} OrderMovesFrom(prev: Cache, order: map<string, string>, types: seq<ExtractedType>, n: string) returns (j: nat)
    requires n in OrderMoves(prev, order, types)
    ensures j < |types| && OrderMoved(prev, order, types[j]) && types[j].name == n
    decreases |types|
  {
    hide OrderMoved;
    var last := |types| - 1;
    if n in OrderMoves(prev, order, types[..last]) { j := OrderMovesFrom(prev, order, types[..last], n); } else { j := last; }
  }

  /** What stands before a type in a list: nothing, or another one's path. */
  function PathBefore(types: seq<ExtractedType>, i: nat): string
    requires i < |types|
  {
    if i == 0 then "" else Path(types[i - 1])
  }

  /** The type at `j` was at `i`, behind another one. */
  ghost predicate CameAfterAnother(was: seq<ExtractedType>, types: seq<ExtractedType>, i: nat, j: nat) {
    i < |was| && j < |types| && Path(was[i]) == Path(types[j]) && PathBefore(was, i) != PathBefore(types, j)
  }

  lemma OrderEntry(types: seq<ExtractedType>, i: nat)
    requires i < |types| && forall a, b :: 0 <= a < b < |types| ==> Path(types[a]) != Path(types[b])
    ensures var order := TypeOrder.Order(Paths(types)); Path(types[i]) in order && order[Path(types[i])] == PathBefore(types, i)
  {
    hide Path;
    TypeOrder.OrderWithoutRepeats(Paths(types), i);
  }

  lemma OrderMovedIs(was: seq<ExtractedType>, types: seq<ExtractedType>, prev: Cache, j: nat)
    requires j < |types| && prev.typeOrder == Some(TypeOrder.Order(Paths(was)))
    requires forall a, b :: 0 <= a < b < |was| ==> Path(was[a]) != Path(was[b])
    requires forall a, b :: 0 <= a < b < |types| ==> Path(types[a]) != Path(types[b])
    ensures OrderMoved(prev, TypeOrder.Order(Paths(types)), types[j]) <==> exists i: nat :: CameAfterAnother(was, types, i, j)
  {
    hide Path, TypeOrder.Order, PathBefore;
    OrderEntry(types, j);
    TypeOrder.OrderKeys(Paths(was));
    if Path(types[j]) in prev.typeOrder.value {
      var i :| 0 <= i < |Paths(was)| && Paths(was)[i] == Path(types[j]);
      OrderEntry(was, i);
      assert OrderMoved(prev, TypeOrder.Order(Paths(types)), types[j]) <==> CameAfterAnother(was, types, i, j);
      forall k: nat | CameAfterAnother(was, types, k, j) ensures k == i { assert Path(was[k]) == Path(was[i]); }
    } else {
      forall k: nat ensures !CameAfterAnother(was, types, k, j) { assert k < |was| ==> Paths(was)[k] in Paths(was); }
    }
  }

  lemma OrderExactly(h: Hashing, before: Program, now: Program, n: string)
    requires Compared(h, before, now)
    ensures n in ChangesOf(h, CacheOf(h, before), now).orderMoved <==>
      exists i: nat, j: nat :: j < |now.dataTypes| && CameAfterAnother(before.dataTypes, now.dataTypes, i, j) && now.dataTypes[j].name == n
  {
    hide FnEntries, TypeEntries, GlobalEntries, FnChanges, TypeChanges, GlobalChanges, OrderMoved, CameAfterAnother, TypeOrder.Order, Path;
    var was, types, prev := before.dataTypes, now.dataTypes, CacheOf(h, before);
    var order := TypeOrder.Order(Paths(types));
    forall j: nat | j < |types| ensures OrderMoved(prev, order, types[j]) <==> exists i: nat :: CameAfterAnother(was, types, i, j) {
      OrderMovedIs(was, types, prev, j);
    }
    if n in OrderMoves(prev, order, types) {
      var j := OrderMovesFrom(prev, order, types, n);
    }
    if i: nat, j: nat :| j < |types| && CameAfterAnother(was, types, i, j) && types[j].name == n {
      assert types[j] in types && OrderMoved(prev, order, types[j]);
    }
  }

  // ---------------------------------------------------------------------------
  // All of it
  // ---------------------------------------------------------------------------

  ghost predicate AddressIsGone(before: Program, now: Program, f: Fn) {
    f in before.functions && forall other: Fn :: other in now.functions ==> other.address != f.address
  }

  /** A function, a type or a global of this name differs; a nameless global only when it is gone. */
  ghost predicate NameDiffers(before: Program, now: Program, n: string) {
    || (exists f: Fn :: OnOneSide(before.functions, now.functions, f) && f.name == n)
    || (exists dt: ExtractedType :: OnOneSide(before.dataTypes, now.dataTypes, dt) && dt.name == n)
    || (exists g: Global :: Differs(before, now, g) && g.name == n && (n != "" || KeyIsGone(before, now, g)))
  }

  /** ... or stood for something that is there no more. */
  ghost predicate NameIsGone(before: Program, now: Program, n: string) {
    || (exists f: Fn :: AddressIsGone(before, now, f) && f.name == n)
    || (exists g: Global :: KeyIsGone(before, now, g) && g.name == n)
    || (exists dt: ExtractedType :: PathIsGone(before, now, dt) && BareName(Path(dt)) == n)
  }

  lemma GoneFunctionWas(h: Hashing, before: Program, now: Program, n: string)
    requires Distinct(before)
    ensures (exists a :: a in GoneFunctions(CacheOf(h, before), now) && CacheOf(h, before).functions[a].name == n)
      <==> exists f: Fn :: AddressIsGone(before, now, f) && f.name == n
  {
    hide CacheOf, Distinct;
    var prev := CacheOf(h, before);
    if a :| a in GoneFunctions(prev, now) && prev.functions[a].name == n {
      var was := FnAtAddress(h, before, a);
      assert AddressIsGone(before, now, was);
    }
    if f: Fn :| AddressIsGone(before, now, f) && f.name == n {
      RecordedFn(h, before, f);
      assert f.address in GoneFunctions(prev, now);
    }
  }

  lemma GoneGlobalNamed(h: Hashing, before: Program, now: Program, n: string)
    requires Distinct(before)
    ensures (exists k :: k in GoneGlobals(CacheOf(h, before), now) && CacheOf(h, before).globals[k].name == n)
      <==> exists g: Global :: KeyIsGone(before, now, g) && g.name == n
  {
    hide CacheOf, Distinct, KeyIsGone;
    var prev := CacheOf(h, before);
    if k :| k in GoneGlobals(prev, now) && prev.globals[k].name == n {
      var was := GoneGlobalWas(h, before, now, k);
    }
    if g: Global :| KeyIsGone(before, now, g) && g.name == n {
      IsGoneGlobal(h, before, now, g);
    }
  }

  lemma GoneExactly(h: Hashing, before: Program, now: Program, n: string)
    requires Distinct(before)
    ensures n in ChangesOf(h, CacheOf(h, before), now).gone <==> NameIsGone(before, now, n)
  {
    hide CacheOf, Distinct, KeyIsGone, PathIsGone, AddressIsGone, BareName, Path, FnChanges, TypeChanges, GlobalChanges, OrderMoves,
      GoneFunctions, GoneGlobals, GoneTypes;
    GoneFunctionWas(h, before, now, n);
    GoneGlobalNamed(h, before, now, n);
    GoneTypeWas(h, before, now, n);
  }

  /** A new name for an address that had another. */
  ghost predicate IsNewName(before: Program, now: Program, n: string) {
    exists was: Fn, f: Fn :: was in before.functions && f in now.functions && was.address == f.address && was.name != f.name && f.name == n
  }

  lemma RenamedExactly(h: Hashing, before: Program, now: Program, n: string)
    requires Distinct(before)
    ensures n in ChangesOf(h, CacheOf(h, before), now).renamedTo <==> IsNewName(before, now, n)
  {
    hide CacheOf, Distinct, BareName, Path, FnChanges, TypeChanges, GlobalChanges, OrderMoves, GoneNames;
    var prev := CacheOf(h, before);
    if n in RenamedTo(prev, now) {
      var f :| f in now.functions && f.address in prev.functions && prev.functions[f.address].name != f.name && f.name == n;
      var was := FnAtAddress(h, before, f.address);
    }
    if was: Fn, f: Fn :|
      was in before.functions && f in now.functions && was.address == f.address && was.name != f.name && f.name == n
    {
      RecordedFn(h, before, was);
    }
  }

  lemma ChangedIs(h: Hashing, prev: Cache, p: Program, n: string)
    ensures n in ChangesOf(h, prev, p).changed <==>
      || n in FnChanges(h, prev, p.functions) || (exists a :: a in GoneFunctions(prev, p) && prev.functions[a].name == n)
      || n in ChangesOf(h, prev, p).typeNames
      || n in GlobalChanges(h, prev, p.globals).names || (exists k :: k in GoneGlobals(prev, p) && prev.globals[k].name == n)
  {
    hide FnChanges, TypeChanges, GlobalChanges, OrderMoves, GoneFunctions, GoneGlobals, GoneTypes, BareName, Path;
  }

  /**
   * The comparison is exact. Between two programs of distinct records, in which the names of
   * types come back from their paths, and under hashes that tell records apart: a name is
   * reported as changed exactly when a record of that name differs, and likewise for type
   * names, addresses, value types, what is gone, new names, and types that came after another.
   */
  lemma ChangesExactly(h: Hashing, before: Program, now: Program, n: string, a: nat)
    requires Comparable(h, before, now)
    ensures var ch := ChangesOf(h, CacheOf(h, before), now);
      && (n in ch.changed <==> NameDiffers(before, now, n))
      && (n in ch.typeNames <==> exists dt: ExtractedType :: OnOneSide(before.dataTypes, now.dataTypes, dt) && dt.name == n)
      && (a in ch.addrs <==> exists g: Global :: Differs(before, now, g) && g.address == a)
      && (n in ch.valueTypes <==> exists g: Global :: Differs(before, now, g) && g.aggregate == Some(n))
      && (n in ch.gone <==> NameIsGone(before, now, n)) && (n in ch.renamedTo <==> IsNewName(before, now, n))
      && (n in ch.orderMoved <==>
            exists i: nat, j: nat :: j < |now.dataTypes| && CameAfterAnother(before.dataTypes, now.dataTypes, i, j) && now.dataTypes[j].name == n)
  {
    hide ChangesOf, CacheOf, Distinct, Injective, BareName, Path, FnChanges, GlobalChanges, GoneFunctions, GoneGlobals, NameIsGone, IsNewName,
      KeyIsGone, Differs, CameAfterAnother, OnOneSide;
    ChangedIs(h, CacheOf(h, before), now, n);
    FunctionNamesExactly(h, before, now, n);
    TypeNamesDiffer(h, before, now, n);
    GlobalNamesExactly(h, before, now, n);
    AddressesExactly(h, before, now, a, n);
    GoneExactly(h, before, now, n);
    RenamedExactly(h, before, now, n);
    OrderExactly(h, before, now, n);
  }

  lemma FunctionDiffers(h: Hashing, before: Program, now: Program, f: Fn)
    requires Comparable(h, before, now) && OnOneSide(before.functions, now.functions, f)
    ensures f.name in ChangesOf(h, CacheOf(h, before), now).changed
  {
    hide ChangesOf, CacheOf, Comparable, OnOneSide;
    ChangesExactly(h, before, now, f.name, 0);
  }

  lemma TypeDiffers(h: Hashing, before: Program, now: Program, dt: ExtractedType)
    requires Comparable(h, before, now) && OnOneSide(before.dataTypes, now.dataTypes, dt)
    ensures dt.name in ChangesOf(h, CacheOf(h, before), now).typeNames
  {
    hide ChangesOf, CacheOf, Comparable, OnOneSide;
    ChangesExactly(h, before, now, dt.name, 0);
  }

  // ---------------------------------------------------------------------------
  // Nothing changed
  // ---------------------------------------------------------------------------

  lemma NothingMoved(h: Hashing, p: Program)
    requires Distinct(p)
    ensures forall f :: f in p.functions ==> !FnMoved(h, CacheOf(h, p), f)
    ensures forall dt :: dt in p.dataTypes ==> !TypeMoved(h, CacheOf(h, p), dt)
    ensures forall g :: g in p.globals ==> !GlobalMoved(h, CacheOf(h, p), g)
  {
    hide CacheOf, Distinct, Path;
    forall f | f in p.functions ensures !FnMoved(h, CacheOf(h, p), f) { RecordedFn(h, p, f); }
    forall dt | dt in p.dataTypes ensures !TypeMoved(h, CacheOf(h, p), dt) { RecordedType(h, p, dt); }
    forall g | g in p.globals ensures !GlobalMoved(h, CacheOf(h, p), g) { RecordedGlobal(h, p, g); }
  }

  lemma {:induction false} NoFnChanges(h: Hashing, prev: Cache, fns: seq<Fn>)
    requires forall f :: f in fns ==> !FnMoved(h, prev, f)
    ensures FnChanges(h, prev, fns) == {}
    decreases |fns|
  {
    hide FnMoved;
    if fns != [] { NoFnChanges(h, prev, fns[..|fns| - 1]); }
  }

  lemma {:induction false} NoTypeChanges(h: Hashing, prev: Cache, types: seq<ExtractedType>)
    requires forall dt :: dt in types ==> !TypeMoved(h, prev, dt)
    ensures TypeChanges(h, prev, types) == {}
    decreases |types|
  {
    hide TypeMoved;
    if types != [] { NoTypeChanges(h, prev, types[..|types| - 1]); }
  }

  lemma {:induction false} NoGlobalChanges(h: Hashing, prev: Cache, globals: seq<Global>)
    requires forall g :: g in globals ==> !GlobalMoved(h, prev, g)
    ensures GlobalChanges(h, prev, globals) == GlobalDiff({}, {}, {})
    decreases |globals|
  {
    hide GlobalMoved;
    if globals != [] { NoGlobalChanges(h, prev, globals[..|globals| - 1]); }
  }

  lemma {:induction false} NoOrderMoves(prev: Cache, order: map<string, string>, types: seq<ExtractedType>)
    requires prev.typeOrder == Some(order)
    ensures OrderMoves(prev, order, types) == {}
    decreases |types|
  {
    hide Path;
    if types != [] { NoOrderMoves(prev, order, types[..|types| - 1]); }
  }

  lemma NothingGone(h: Hashing, p: Program)
    requires Distinct(p)
    ensures GoneFunctions(CacheOf(h, p), p) == {} && GoneTypes(CacheOf(h, p), p) == {} && GoneGlobals(CacheOf(h, p), p) == {}
    ensures RenamedTo(CacheOf(h, p), p) == {}
  {
    hide CacheOf, Distinct, Path;
    var prev := CacheOf(h, p);
    forall a | a in prev.functions ensures a !in GoneFunctions(prev, p) { var was := FnAtAddress(h, p, a); }
    forall k | k in prev.types ensures k !in GoneTypes(prev, p) { var was := TypeAtPath(h, p, k); }
    forall k | k in prev.globals ensures k !in GoneGlobals(prev, p) { var was := GlobalAtKey(h, p, k); }
    forall f | f in p.functions ensures f.address in prev.functions && prev.functions[f.address].name == f.name { RecordedFn(h, p, f); }
  }

  lemma SnapshotOrder(h: Hashing, p: Program)
    ensures CacheOf(h, p).typeOrder == Some(TypeOrder.Order(Paths(p.dataTypes)))
  {
  }

  /**
   * A program compared with its own snapshot differs in nothing, whatever the hashes, and the
   * selection then emits no unit at all.
   */
  lemma UnchangedSelectsNothing(rules: Rules, modules: seq<Module>, p: Program)
    requires Distinct(p)
    ensures ChangesOf(rules.hashing, CacheOf(rules.hashing, p), p) == Changes({}, {}, {}, {}, {}, {}, {})
    ensures SelectionOf(rules, Some(modules), Some(CacheOf(rules.hashing, p)), false, p) == Selection(Some({}), {}, {})
  {
    hide CacheOf, Distinct, Path, FnChanges, TypeChanges, GlobalChanges, OrderMoves, FnMoved, TypeMoved, GlobalMoved, TypeOrder.Order;
    var h, prev := rules.hashing, CacheOf(rules.hashing, p);
    NothingMoved(h, p);
    NoFnChanges(h, prev, p.functions);
    NoTypeChanges(h, prev, p.dataTypes);
    NoGlobalChanges(h, prev, p.globals);
    SnapshotOrder(h, p);
    NoOrderMoves(prev, TypeOrder.Order(Paths(p.dataTypes)), p.dataTypes);
    NothingGone(h, p);
  }

  // ---------------------------------------------------------------------------
  // What a selection is made for
  // ---------------------------------------------------------------------------

  /** A changed name, or a type that holds a changed type in whatever depth. */
  ghost predicate IsReached(rules: Rules, n: string, ch: Changes, p: Program) {
    n in ch.changed || n in Expanded(p.dataTypes, rules.bare, ch.typeNames)
  }

  /** The module defines it: by name, by a type that came after another one, or by address. */
  ghost predicate OwnReason(rules: Rules, m: Module, ch: Changes, p: Program) {
    || (exists n :: (n in m.functionNames || n in m.ownedTypeNames) && IsReached(rules, n, ch, p))
    || (exists n :: n in m.ownedTypeNames && n in ch.orderMoved)
    || (exists a :: a in m.globalAddresses && a in ch.addrs)
  }

  /** It depends on the name, or on a type an instance of which changed. */
  ghost predicate DependencyReason(rules: Rules, m: Module, ch: Changes, p: Program) {
    m.deps.Some? && exists n :: n in m.deps.value && (IsReached(rules, n, ch, p) || n in ch.valueTypes)
  }

  /** An address inside a changed global, or where there was one and is none. */
  ghost predicate IntoChanged(r: nat, ch: Changes, p: Program) {
    || (exists g: Global :: g in p.globals && g.address in ch.addrs && g.address <= r && (r == g.address || r < g.address + g.size))
    || (r in ch.addrs && forall g: Global :: g in p.globals ==> g.address != r)
  }

  /** A function of that name refers there. */
  ghost predicate ReadReason(m: Module, ch: Changes, p: Program) {
    exists f: Fn, r :: f in p.functions && f.name in m.functionNames && r in f.refs && IntoChanged(r, ch, p)
  }

  /** A function of this name clears a run by a changed member, or shares a frame with a changed function. */
  ghost predicate InTouchedGroup(rules: Rules, reach: set<string>, ch: Changes, p: Program, n: string) {
    || (ch.addrs != {} && exists pair :: pair in rules.runReaders(p.globals, p.functions) && pair.0 == n && pair.1 in reach)
    || exists c: Fn, k :: c in p.functions && rules.isFunclet(c) && k in reach && SharesFrame(rules, p, c, n) && SharesFrame(rules, p, c, k)
  }

  ghost predicate GroupReason(rules: Rules, m: Module, reach: set<string>, ch: Changes, p: Program) {
    exists n :: n in m.functionNames && InTouchedGroup(rules, reach, ch, p, n)
  }

  /** The funclet itself, or another function that calls it. */
  ghost predicate SharesFrame(rules: Rules, p: Program, funclet: Fn, n: string) {
    n == funclet.name || exists f: Fn :: f in p.functions && f != funclet && f.name == n && rules.calls(f, funclet.name)
  }

  ghost predicate Reason(rules: Rules, m: Module, ch: Changes, p: Program) {
    || OwnReason(rules, m, ch, p) || DependencyReason(rules, m, ch, p)
    || ReadReason(m, ch, p) || GroupReason(rules, m, Reach(rules, ch, p), ch, p)
  }

  lemma OwnsIs(rules: Rules, m: Module, ch: Changes, p: Program)
    ensures Owns(m, Reach(rules, ch, p), ch) <==> OwnReason(rules, m, ch, p)
  {
    hide Expanded;
    var reach := Reach(rules, ch, p);
    if n :| (n in m.functionNames || n in m.ownedTypeNames) && IsReached(rules, n, ch, p) { assert n in reach; }
  }

  lemma DependsIs(rules: Rules, m: Module, ch: Changes, p: Program)
    ensures DependsOn(m, Reach(rules, ch, p), ch) <==> DependencyReason(rules, m, ch, p)
  {
    hide Expanded;
  }

  lemma ReadsIs(m: Module, ch: Changes, p: Program)
    ensures Meets(m.functionNames, ReaderNames(ch, p)) <==> ReadReason(m, ch, p)
  {
    forall r ensures InChanged(ch, p.globals, r) <==> IntoChanged(r, ch, p) { IntoChangedIs(r, ch, p); }
    hide InChanged, IntoChanged;
    IntoNothing(ch, p);
    if f: Fn, r :| f in p.functions && f.name in m.functionNames && r in f.refs && IntoChanged(r, ch, p) {
      assert ReadsInto(f, ch, p.globals) && f.name in ReaderNames(ch, p);
    }
  }

  lemma IntoChangedIs(r: nat, ch: Changes, p: Program)
    ensures InChanged(ch, p.globals, r) <==> IntoChanged(r, ch, p)
  {
  }

  lemma IntoNothing(ch: Changes, p: Program)
    ensures ch.addrs == {} ==> forall r :: !IntoChanged(r, ch, p)
  {
  }

  lemma FrameIs(rules: Rules, p: Program, c: Fn, n: string)
    ensures n in FuncletGroup(rules, p.functions, c) <==> SharesFrame(rules, p, c, n)
  {
  }

  lemma GroupNameIs(rules: Rules, reach: set<string>, ch: Changes, p: Program, n: string)
    ensures n in GroupNames(rules, reach, ch, p) <==> InTouchedGroup(rules, reach, ch, p, n)
  {
    forall c, x ensures x in FuncletGroup(rules, p.functions, c) <==> SharesFrame(rules, p, c, x) { FrameIs(rules, p, c, x); }
    hide FuncletGroup, SharesFrame;
    forall c ensures FuncletGroup(rules, p.functions, c) * reach != {} <==> exists k :: k in reach && SharesFrame(rules, p, c, k) {
      SomeInBoth(FuncletGroup(rules, p.functions, c), reach);
    }
  }

  lemma SomeInBoth(a: set<string>, b: set<string>)
    ensures a * b != {} <==> exists k :: k in b && k in a
  {
    if k :| k in b && k in a { assert k in a * b; }
  }

  lemma GroupsIs(rules: Rules, m: Module, reach: set<string>, ch: Changes, p: Program)
    ensures Meets(m.functionNames, GroupNames(rules, reach, ch, p)) <==> GroupReason(rules, m, reach, ch, p)
  {
    hide GroupNames, InTouchedGroup;
    forall n ensures n in GroupNames(rules, reach, ch, p) <==> InTouchedGroup(rules, reach, ch, p, n) { GroupNameIs(rules, reach, ch, p, n); }
  }

  lemma DirtyIs(rules: Rules, m: Module, ch: Changes, p: Program)
    ensures Dirty(m, rules, Reach(rules, ch, p), ch, p) <==> Reason(rules, m, ch, p)
  {
    hide Owns, OwnReason, DependsOn, DependencyReason, Meets, ReaderNames, GroupNames, ReadReason, GroupReason, Reach;
    OwnsIs(rules, m, ch, p);
    DependsIs(rules, m, ch, p);
    ReadsIs(m, ch, p);
    GroupsIs(rules, m, Reach(rules, ch, p), ch, p);
  }

  lemma DirtyUnitIs(modules: seq<Module>, rules: Rules, reach: set<string>, ch: Changes, p: Program, u: string)
    ensures u in DirtyUnitsOf(modules, rules, reach, ch, p) <==> exists m :: m in modules && m.unitName == u && Dirty(m, rules, reach, ch, p)
  {
    hide Owns, DependsOn, Meets, ReaderNames, GroupNames;
  }

  /**
   * What is emitted again has its reason: when the selection names units, they are exactly
   * those of a module that defines or depends on something the comparison reports, has a
   * function referring into a changed global or to where one is gone, or one in a group
   * with a changed function.
   */
  lemma SelectedExactly(rules: Rules, modules: seq<Module>, prev: Cache, p: Program, u: string)
    requires SelectionOf(rules, Some(modules), Some(prev), false, p).units.Some?
    ensures var ch := ChangesOf(rules.hashing, prev, p);
      u in SelectionOf(rules, Some(modules), Some(prev), false, p).units.value <==>
      (ch.changed != {} || ch.orderMoved != {}) && exists m: Module :: m in modules && m.unitName == u && Reason(rules, m, ch, p)
    ensures var s, ch := SelectionOf(rules, Some(modules), Some(prev), false, p), ChangesOf(rules.hashing, prev, p);
      s.changedSymbols == ch.changed && s.expandedTypes == Expanded(p.dataTypes, rules.bare, ch.typeNames)
  {
    TypeNamesChanged(rules.hashing, prev, p);
    NothingExpands(p.dataTypes, rules.bare, {});
    hide ChangesOf, DirtyUnitsOf, Dirty, Reason, HasUnknown, HasOrphan, Expanded;
    var ch := ChangesOf(rules.hashing, prev, p);
    var reach := Reach(rules, ch, p);
    DirtyUnitIs(modules, rules, reach, ch, p, u);
    forall m ensures Dirty(m, rules, reach, ch, p) <==> Reason(rules, m, ch, p) { DirtyIs(rules, m, ch, p); }
  }

  /** A module without dependency data, of a unit that no module defines a change for and no earlier one depends on one for. */
  ghost predicate IsUnknown(rules: Rules, modules: seq<Module>, i: nat, ch: Changes, p: Program) {
    && i < |modules| && modules[i].deps.None?
    && (forall m: Module :: m in modules && m.unitName == modules[i].unitName ==> !OwnReason(rules, m, ch, p))
    && (forall k :: 0 <= k < i && modules[k].unitName == modules[i].unitName ==> !DependencyReason(rules, modules[k], ch, p))
  }

  /** A changed name some function still has, that was not there under another, and that no module claims. */
  ghost predicate NobodyClaims(modules: seq<Module>, n: string, ch: Changes, p: Program) {
    && n in ch.changed && n !in ch.gone && n !in ch.renamedTo && (exists f: Fn :: f in p.functions && f.name == n)
    && forall m: Module :: m in modules ==> n !in m.functionNames
  }

  lemma UnknownIs(rules: Rules, modules: seq<Module>, i: nat, ch: Changes, p: Program)
    requires i < |modules|
    ensures Unexplained(modules, i, Reach(rules, ch, p), ch) <==> IsUnknown(rules, modules, i, ch, p)
  {
    hide Owns, OwnReason, DependsOn, DependencyReason, Reach;
    var reach, unit := Reach(rules, ch, p), modules[i].unitName;
    forall m ensures Owns(m, reach, ch) <==> OwnReason(rules, m, ch, p) { OwnsIs(rules, m, ch, p); }
    forall m ensures DependsOn(m, reach, ch) <==> DependencyReason(rules, m, ch, p) { DependsIs(rules, m, ch, p); }
    MarkedUnit(modules, Owning(reach, ch), unit);
    MarkedUnit(modules[..i], Depending(reach, ch), unit);
    assert forall k :: 0 <= k < i ==> modules[..i][k] == modules[k];
  }

  lemma MarkedUnit(modules: seq<Module>, hit: Module -> bool, u: string)
    ensures u in UnitsWhere(modules, hit) <==> exists k :: 0 <= k < |modules| && hit(modules[k]) && modules[k].unitName == u
  {
  }

  /** Everything is emitted again exactly when there is no record to go by, a unit is unknown, or a changed function is nobody's. */
  lemma EverythingExactly(rules: Rules, buildInfo: Option<seq<Module>>, previous: Option<Cache>, identCacheEmpty: bool, p: Program)
    ensures SelectionOf(rules, buildInfo, previous, identCacheEmpty, p).units.None? <==>
      || buildInfo.None? || previous.None? || identCacheEmpty
      || (var modules, ch := buildInfo.value, ChangesOf(rules.hashing, previous.value, p);
          (ch.changed != {} || ch.orderMoved != {})
          && ((exists i: nat :: IsUnknown(rules, modules, i, ch, p)) || (exists n :: NobodyClaims(modules, n, ch, p))))
  {
    hide ChangesOf, DirtyUnitsOf, Expanded, Unexplained, IsUnknown, Reach;
    if buildInfo.Some? && previous.Some? {
      var modules, ch := buildInfo.value, ChangesOf(rules.hashing, previous.value, p);
      forall i: nat | i < |modules| ensures Unexplained(modules, i, Reach(rules, ch, p), ch) <==> IsUnknown(rules, modules, i, ch, p) {
        UnknownIs(rules, modules, i, ch, p);
      }
      forall i: nat | IsUnknown(rules, modules, i, ch, p) ensures i < |modules| { UnknownIsThere(rules, modules, i, ch, p); }
      OrphanIs(modules, ch, p);
    }
  }

  lemma UnknownIsThere(rules: Rules, modules: seq<Module>, i: nat, ch: Changes, p: Program)
    requires IsUnknown(rules, modules, i, ch, p)
    ensures i < |modules|
  {
  }

  lemma OrphanIs(modules: seq<Module>, ch: Changes, p: Program)
    ensures HasOrphan(ch, p, modules) <==> exists n :: NobodyClaims(modules, n, ch, p)
  {
    forall n ensures n in ch.changed && IsOrphan(n, ch, p, modules) <==> NobodyClaims(modules, n, ch, p) { }
    hide IsOrphan, NobodyClaims;
  }

  /** The module defines or depends on a given name, or on a type holding a given one. */
  ghost predicate ForecastReason(m: Module, names: seq<string>, expanded: set<string>) {
    exists n :: (n in m.functionNames || n in m.ownedTypeNames || (m.deps.Some? && n in m.deps.value))
      && ((n in names && n != "") || n in expanded)
  }

  /** A forecast names exactly the units of modules with such a reason. */
  lemma ForecastExactly(modules: seq<Module>, names: seq<string>, typeNames: seq<string>, types: seq<ExtractedType>, bare: BaseName, u: string)
    ensures u in Predicted(Some(modules), names, typeNames, types, bare).value <==>
      exists m: Module :: m in modules && m.unitName == u && ForecastReason(m, names, Expanded(types, bare, set t | t in typeNames))
  {
    hide Expanded, Forecast, ForecastReason;
    var expanded := Expanded(types, bare, set t | t in typeNames);
    var changed := (set n | n in names && n != "") + expanded;
    forall m ensures Forecast(m, changed) <==> ForecastReason(m, names, expanded) { ForecastIs(m, names, expanded); }
  }

  lemma ForecastIs(m: Module, names: seq<string>, expanded: set<string>)
    ensures Forecast(m, (set n | n in names && n != "") + expanded) <==> ForecastReason(m, names, expanded)
  {
  }
}
