/** What the soundness of reuse cannot do without (packages/live/src/dirty-units.ts). */
module ReuseLimits {
  import opened Prelude
  import opened Containment
  import opened HashCache
  import opened ChangesExact
  import opened DirtyUnits
  import opened ReuseSound

  /** A function that reads the middle of a table, and the unit it is in. */
  const READER := Fn(1, "reader", [104], "")
  const TABLE := Global(100, "table", 8, None, "")
  const UNIT := Module("unit", Some([]), [], ["reader"], [])

  const WITH_TABLE := Program([READER], [], [TABLE])
  const WITHOUT_TABLE := Program([READER], [], [])

  /**
   * A table that is gone is looked for at its first address only: a unit whose function reads
   * past it is left out, although the table it read is no longer there.
   */
  lemma RemovedTableIsMissed(rules: Rules)
    requires Injective(rules.hashing)
    requires rules.runReaders(WITHOUT_TABLE.globals, WITHOUT_TABLE.functions) == []
    ensures Reused(rules, [UNIT], WITH_TABLE, WITHOUT_TABLE, UNIT)
    ensures LandsInLost(WITH_TABLE, WITHOUT_TABLE, UNIT) && Landing(WITH_TABLE, UNIT) != Landing(WITHOUT_TABLE, UNIT)
  {
    hide CacheOf, ChangesOf, SelectionOf, Comparable;
    TableCache(rules.hashing);
    TableIsGone(rules.hashing, CacheOf(rules.hashing, WITH_TABLE));
    TablesCompare(rules.hashing);
    TableSelection(rules, CacheOf(rules.hashing, WITH_TABLE));
    TableIsRead();
  }

  lemma TablesCompare(h: Hashing)
    requires Injective(h)
    ensures Comparable(h, WITH_TABLE, WITHOUT_TABLE)
  {
  }

  lemma TableIsRead()
    ensures LandsInLost(WITH_TABLE, WITHOUT_TABLE, UNIT) && Landing(WITH_TABLE, UNIT) != Landing(WITHOUT_TABLE, UNIT)
  {
    assert TABLE in WITH_TABLE.globals && READER in WITH_TABLE.functions && 104 in READER.refs && Covers(TABLE, 104) && "reader" in UNIT.functionNames;
    assert LandsIn(WITH_TABLE, UNIT, TABLE) && TABLE in WITH_TABLE.globals && TABLE !in WITHOUT_TABLE.globals;
    assert TABLE in Landing(WITH_TABLE, UNIT) && TABLE !in Landing(WITHOUT_TABLE, UNIT);
  }

  lemma TableCache(h: Hashing)
    ensures var c := CacheOf(h, WITH_TABLE);
      && c.functions == map[1 := FnEntry(h.fn(READER), "reader")] && c.types == map[]
      && c.globals == map[(100, "table") := GlobalEntry(h.global(TABLE), "table", None)]
  {
    assert [READER][..0] == [] && [TABLE][..0] == [];
    assert FnEntries(h, [READER]) == map[][READER.address := FnEntry(h.fn(READER), READER.name)];
    assert GlobalEntries(h, [TABLE]) == map[][Key(TABLE) := GlobalEntry(h.global(TABLE), TABLE.name, TABLE.aggregate)];
  }

  predicate OnlyTheTable(ch: Changes) {
    && ch.changed == {"table"} && ch.gone == {"table"} && ch.typeNames == {} && ch.addrs == {100}
    && ch.valueTypes == {} && ch.orderMoved == {}
  }

  lemma TableIsGone(h: Hashing, prev: Cache)
    requires prev.functions == map[1 := FnEntry(h.fn(READER), "reader")] && prev.types == map[]
    requires prev.globals == map[(100, "table") := GlobalEntry(h.global(TABLE), "table", None)]
    ensures OnlyTheTable(ChangesOf(h, prev, WITHOUT_TABLE))
  {
    assert [READER][..0] == [] && !FnMoved(h, prev, READER);
    assert FnChanges(h, prev, [READER]) == FnChanges(h, prev, []) + {};
    assert GoneFunctions(prev, WITHOUT_TABLE) == {} by { assert READER in WITHOUT_TABLE.functions; }
    assert GoneTypes(prev, WITHOUT_TABLE) == {};
    assert GoneGlobals(prev, WITHOUT_TABLE) == {(100, "table")};
    assert GoneNames(prev, WITHOUT_TABLE) == {"table"};
  }

  lemma TableSelection(rules: Rules, prev: Cache)
    requires OnlyTheTable(ChangesOf(rules.hashing, prev, WITHOUT_TABLE))
    requires rules.runReaders(WITHOUT_TABLE.globals, WITHOUT_TABLE.functions) == []
    ensures SelectionOf(rules, Some([UNIT]), Some(prev), false, WITHOUT_TABLE).units == Some({})
  {
    hide ChangesOf;
    var ch := ChangesOf(rules.hashing, prev, WITHOUT_TABLE);
    NothingExpands([], rules.bare, {});
    var reach := Reach(rules, ch, WITHOUT_TABLE);
    assert reach == {"table"};
    assert |"reader"| == 6 && |"table"| == 5;
    assert !InChanged(ch, [], 104) && !ReadsInto(READER, ch, []);
    assert ReaderNames(ch, WITHOUT_TABLE) == {};
    NoGroup(rules, reach);
    assert GroupNames(rules, reach, ch, WITHOUT_TABLE) == {};
    assert !Owns(UNIT, reach, ch) && !DependsOn(UNIT, reach, ch);
    assert !Holding({})(UNIT);
    assert DirtyUnitsOf([UNIT], rules, reach, ch, WITHOUT_TABLE) == {};
    assert !HasOrphan(ch, WITHOUT_TABLE, [UNIT]) && !HasUnknown([UNIT], reach, ch);
  }

  lemma NoGroup(rules: Rules, reach: set<string>)
    requires reach == {"table"}
    ensures forall c :: c in WITHOUT_TABLE.functions ==> FuncletGroup(rules, WITHOUT_TABLE.functions, c) * reach == {}
  {
    assert |"reader"| == 6 && |"table"| == 5;
  }

  // ---------------------------------------------------------------------------

  const NAMELESS := Global(100, "", 4, None, "zero")
  const HOLDER := Module("holder", Some([""]), [], [], [100])

  const ONE_NAMELESS := Program([], [], [NAMELESS])
  const OTHER_NAMELESS := Program([], [], [NAMELESS.(content := "one")])

  /** A changed global without a name changes nothing the early return looks at: its own unit is left out. */
  lemma NamelessChangeIsMissed(rules: Rules)
    requires Injective(rules.hashing)
    ensures Reused(rules, [HOLDER], ONE_NAMELESS, OTHER_NAMELESS, HOLDER) && ReturnsEarly(Between(rules, ONE_NAMELESS, OTHER_NAMELESS))
    ensures GlobalsAt(ONE_NAMELESS, HOLDER.globalAddresses) != GlobalsAt(OTHER_NAMELESS, HOLDER.globalAddresses)
    ensures DependsOnNameless(ONE_NAMELESS, OTHER_NAMELESS, HOLDER)
  {
    hide CacheOf, ChangesOf, Comparable;
    NamelessDiffers();
    NamelessCompare(rules.hashing);
    NothingNamed(rules.hashing);
  }

  lemma NamelessDiffers()
    ensures GlobalsAt(ONE_NAMELESS, HOLDER.globalAddresses) != GlobalsAt(OTHER_NAMELESS, HOLDER.globalAddresses)
    ensures DependsOnNameless(ONE_NAMELESS, OTHER_NAMELESS, HOLDER)
  {
    var other := NAMELESS.(content := "one");
    assert "zero"[0] != "one"[0] && NAMELESS != other;
    assert other in OTHER_NAMELESS.globals;
    assert other in GlobalsAt(OTHER_NAMELESS, HOLDER.globalAddresses) && other !in GlobalsAt(ONE_NAMELESS, HOLDER.globalAddresses);
    assert other.name == "" && Differs(ONE_NAMELESS, OTHER_NAMELESS, other);
  }

  lemma NamelessCompare(h: Hashing)
    requires Injective(h)
    ensures Comparable(h, ONE_NAMELESS, OTHER_NAMELESS)
  {
  }

  lemma NothingNamed(h: Hashing)
    requires Injective(h)
    ensures var ch := ChangesOf(h, CacheOf(h, ONE_NAMELESS), OTHER_NAMELESS); ch.changed == {} && ch.orderMoved == {}
  {
    var prev, other := CacheOf(h, ONE_NAMELESS), NAMELESS.(content := "one");
    assert [NAMELESS][..0] == [] && [other][..0] == [];
    assert GlobalEntries(h, [NAMELESS]) == map[][Key(NAMELESS) := GlobalEntry(h.global(NAMELESS), NAMELESS.name, NAMELESS.aggregate)];
    assert prev.globals == GlobalEntries(h, [NAMELESS]);
    assert GlobalChanges(h, prev, [other]) == Both(GlobalDiff({}, {}, {}), GlobalChange(h, prev, other));
    assert other in OTHER_NAMELESS.globals && Key(other) == Key(NAMELESS);
    assert GoneGlobals(prev, OTHER_NAMELESS) == {} && GoneTypes(prev, OTHER_NAMELESS) == {} && GoneFunctions(prev, OTHER_NAMELESS) == {};
  }

  // ---------------------------------------------------------------------------

  /** A `__finally` funclet that two functions call; one of them then stops. */
  const FUNCLET := Fn(1, "fin", [], "")
  const HOST := Fn(2, "host", [], "calls fin")
  const OTHER := Fn(3, "other", [], "calls fin")
  const OTHER_NOW := OTHER.(content := "")

  const PAIR := Module("pair", Some([]), [], ["fin", "host"], [])
  const REST := Module("rest", Some([]), [], ["other"], [])

  const TWO_CALLERS := Program([FUNCLET, HOST, OTHER], [], [])
  const ONE_CALLER := Program([FUNCLET, HOST, OTHER_NOW], [], [])

  ghost predicate CallsFin(rules: Rules) {
    && rules.isFunclet(FUNCLET) && !rules.isFunclet(HOST) && !rules.isFunclet(OTHER_NOW)
    && rules.calls(HOST, "fin") && rules.calls(OTHER, "fin") && !rules.calls(OTHER_NOW, "fin")
  }

  /**
   * The funclet has one caller now and would be put back into it, but the function that no
   * longer calls it is in no present group: the unit of both is left out.
   */
  lemma LostCallerIsMissed(rules: Rules)
    requires Injective(rules.hashing) && CallsFin(rules)
    ensures Reused(rules, [PAIR, REST], TWO_CALLERS, ONE_CALLER, PAIR)
    ensures LosesMember(rules, TWO_CALLERS, ONE_CALLER, PAIR)
    ensures GroupsOf(rules, TWO_CALLERS, PAIR) != GroupsOf(rules, ONE_CALLER, PAIR)
  {
    hide CacheOf, ChangesOf, SelectionOf, Comparable, HoldsCallers;
    CallersCompare(rules.hashing);
    CallerCache(rules.hashing);
    OnlyTheCaller(rules.hashing, CacheOf(rules.hashing, TWO_CALLERS));
    CallerSelection(rules, CacheOf(rules.hashing, TWO_CALLERS));
    CallerIsLost(rules);
  }

  lemma CallersCompare(h: Hashing)
    requires Injective(h)
    ensures Comparable(h, TWO_CALLERS, ONE_CALLER)
  {
  }

  lemma CallerIsLost(rules: Rules)
    requires CallsFin(rules)
    ensures LosesMember(rules, TWO_CALLERS, ONE_CALLER, PAIR)
    ensures GroupsOf(rules, TWO_CALLERS, PAIR) != GroupsOf(rules, ONE_CALLER, PAIR)
  {
    assert |"calls fin"| == 9 && OTHER != OTHER_NOW;
    assert FUNCLET in TWO_CALLERS.functions && OTHER in TWO_CALLERS.functions && InGroup(rules, FUNCLET, FUNCLET);
    assert MeetsGroup(rules, TWO_CALLERS, PAIR, FUNCLET);
    assert (FUNCLET, OTHER) in GroupsOf(rules, TWO_CALLERS, PAIR) && (FUNCLET, OTHER) !in GroupsOf(rules, ONE_CALLER, PAIR);
  }

  function EntryOf(h: Hashing, f: Fn): FnEntry { FnEntry(h.fn(f), f.name) }

  predicate HoldsCallers(h: Hashing, prev: Cache) {
    && prev.functions == map[1 := EntryOf(h, FUNCLET), 2 := EntryOf(h, HOST), 3 := EntryOf(h, OTHER)]
    && prev.types == map[] && prev.globals == map[]
  }

  lemma CallerCache(h: Hashing)
    ensures HoldsCallers(h, CacheOf(h, TWO_CALLERS))
  {
    var s := TWO_CALLERS.functions;
    assert s[..2] == [FUNCLET, HOST] && s[..2][..1] == [FUNCLET] && s[..2][..1][..0] == [];
    assert FnEntries(h, [FUNCLET]) == map[][1 := EntryOf(h, FUNCLET)];
    assert FnEntries(h, [FUNCLET, HOST]) == FnEntries(h, [FUNCLET])[2 := EntryOf(h, HOST)];
    assert FnEntries(h, s) == FnEntries(h, [FUNCLET, HOST])[3 := EntryOf(h, OTHER)];
  }

  predicate OnlyOther(ch: Changes) {
    && ch.changed == {"other"} && ch.gone == {} && ch.typeNames == {} && ch.addrs == {} && ch.valueTypes == {} && ch.orderMoved == {}
  }

  lemma OneMoreChange(h: Hashing, prev: Cache, fns: seq<Fn>, f: Fn)
    ensures FnChanges(h, prev, fns + [f]) == FnChanges(h, prev, fns) + FnChange(h, prev, f)
  {
    assert (fns + [f])[..|fns|] == fns;
  }

  lemma CallerChanges(h: Hashing, prev: Cache)
    requires Injective(h) && HoldsCallers(h, prev)
    ensures FnChanges(h, prev, ONE_CALLER.functions) == {"other"}
  {
    hide FnChanges;
    assert |"calls fin"| == 9 && OTHER != OTHER_NOW;
    OneMoreChange(h, prev, [FUNCLET, HOST], OTHER_NOW);
    OneMoreChange(h, prev, [FUNCLET], HOST);
    OneMoreChange(h, prev, [], FUNCLET);
    assert [] + [FUNCLET] == [FUNCLET] && [FUNCLET] + [HOST] == [FUNCLET, HOST] && [FUNCLET, HOST] + [OTHER_NOW] == ONE_CALLER.functions;
    assert FnChanges(h, prev, []) == {} by { NoChange(h, prev); }
  }

  lemma NoChange(h: Hashing, prev: Cache)
    ensures FnChanges(h, prev, []) == {}
  {
  }

  lemma NobodyGone(h: Hashing, prev: Cache)
    requires HoldsCallers(h, prev)
    ensures GoneFunctions(prev, ONE_CALLER) == {} && GoneTypes(prev, ONE_CALLER) == {} && GoneGlobals(prev, ONE_CALLER) == {}
    ensures GoneNames(prev, ONE_CALLER) == {}
  {
    var s := ONE_CALLER.functions;
    assert FUNCLET in s && HOST in s && OTHER_NOW in s;
  }

  lemma OnlyTheCaller(h: Hashing, prev: Cache)
    requires Injective(h) && HoldsCallers(h, prev)
    ensures OnlyOther(ChangesOf(h, prev, ONE_CALLER))
  {
    hide FnChanges, GoneNames, GoneFunctions, GoneTypes, GoneGlobals, HoldsCallers;
    CallerChanges(h, prev);
    NobodyGone(h, prev);
  }

  lemma CallerSelection(rules: Rules, prev: Cache)
    requires OnlyOther(ChangesOf(rules.hashing, prev, ONE_CALLER)) && CallsFin(rules)
    ensures var s := SelectionOf(rules, Some([PAIR, REST]), Some(prev), false, ONE_CALLER); s.units.Some? && "pair" !in s.units.value
  {
    hide ChangesOf, DirtyUnitsOf, HasOrphan, HasUnknown, Expanded, GroupNames;
    var ch := ChangesOf(rules.hashing, prev, ONE_CALLER);
    NothingExpands([], rules.bare, {});
    var reach := Reach(rules, ch, ONE_CALLER);
    assert reach == {"other"};
    PairIsClean(rules, reach, ch);
    NobodyIsUnknown(reach, ch);
  }

  lemma NobodyIsUnknown(reach: set<string>, ch: Changes)
    requires OnlyOther(ch)
    ensures !HasUnknown([PAIR, REST], reach, ch) && !HasOrphan(ch, ONE_CALLER, [PAIR, REST])
  {
    assert REST in [PAIR, REST] && "other" in REST.functionNames;
  }

  lemma PairIsClean(rules: Rules, reach: set<string>, ch: Changes)
    requires OnlyOther(ch) && reach == {"other"} && CallsFin(rules)
    ensures "pair" !in DirtyUnitsOf([PAIR, REST], rules, reach, ch, ONE_CALLER)
  {
    assert |"fin"| == 3 && |"host"| == 4 && |"other"| == 5 && "pair"[0] == 'p' && "rest"[0] == 'r';
    var group := FuncletGroup(rules, ONE_CALLER.functions, FUNCLET);
    assert group == {"fin", "host"};
    assert group * reach == {};
    assert GroupNames(rules, reach, ch, ONE_CALLER) == {};
    assert !Owns(PAIR, reach, ch) && !DependsOn(PAIR, reach, ch) && !Holding({})(PAIR);
    assert ReaderNames(ch, ONE_CALLER) == {};
  }
}
