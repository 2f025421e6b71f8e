/**
 * Closures over the type list: containment backwards to a fixpoint
 * (packages/live/src/dirty-units.ts, expandChangedTypes) and by value only
 * (packages/live/src/model.ts, byValueEmbedders).
 *
 * What a spelling refers to is a parameter: the two closures strip decorations differently.
 */
module Containment {
  import opened Prelude

  datatype Field = Field(dataType: Option<string>, typeName: Option<string>)

  datatype ExtractedType = ExtractedType(
    name: string, category: Option<string>, kind: Option<string>, sourceName: Option<string>,
    fields: seq<Field>, underlyingType: Option<string>, returnType: Option<string>, parameters: seq<Option<string>>)

  type BaseName = string -> string

  function Spelling(f: Field): string {
    if f.dataType.Some? then f.dataType.value else if f.typeName.Some? then f.typeName.value else ""
  }

  function TypeNames(types: seq<ExtractedType>): set<string> { set dt | dt in types :: dt.name }

  /** One way for a type to be drawn in by a set of names: the containment in question. */
  type Draws = (ExtractedType, set<string>) -> bool

  ghost predicate Monotone(draws: Draws) {
    forall dt, a, b :: a <= b && draws(dt, a) ==> draws(dt, b)
  }

  ghost predicate Closed(types: seq<ExtractedType>, draws: Draws, s: set<string>) {
    forall dt :: dt in types && draws(dt, s) ==> dt.name in s
  }

  function Drawn(types: seq<ExtractedType>, draws: Draws, s: set<string>): set<string> {
    set dt | dt in types && draws(dt, s) :: dt.name
  }

  /** The least set that holds the seeds and every type it draws in. */
  function Closure(types: seq<ExtractedType>, draws: Draws, seeds: set<string>): (r: set<string>)
    requires Monotone(draws)
    ensures seeds <= r <= seeds + TypeNames(types) && Closed(types, draws, r)
    ensures forall s :: seeds <= s && Closed(types, draws, s) ==> r <= s
    decreases |TypeNames(types) - seeds|
  {
    var grown := Drawn(types, draws, seeds);
    if grown <= seeds then
      assert forall dt :: dt in types && draws(dt, seeds) ==> dt.name in grown;
      seeds
    else
      Shrinks(types, draws, seeds);
      Closure(types, draws, seeds + grown)
  }

  lemma Shrinks(types: seq<ExtractedType>, draws: Draws, seeds: set<string>)
    requires !(Drawn(types, draws, seeds) <= seeds)
    ensures |TypeNames(types) - (seeds + Drawn(types, draws, seeds))| < |TypeNames(types) - seeds|
  {
    var grown := Drawn(types, draws, seeds);
    var name :| name in grown && name !in seeds;
    assert name in TypeNames(types);
    var small, large := TypeNames(types) - (seeds + grown), TypeNames(types) - seeds;
    assert small <= large - {name};
    SubsetSize(small, large - {name});
  }

  lemma {:induction false} SubsetSize<T>(a: set<T>, b: set<T>)
    requires a <= b
    ensures |a| <= |b|
    decreases a
  {
    if x :| x in a {
      SubsetSize(a - {x}, b - {x});
    }
  }

  /** More seeds, or a wider way of drawing in, never reach less. */
  lemma ClosureIsMonotone(types: seq<ExtractedType>, narrow: Draws, wide: Draws, few: set<string>, more: set<string>)
    requires Monotone(narrow) && Monotone(wide) && few <= more
    requires forall dt, s :: dt in types && more <= s <= more + TypeNames(types) && narrow(dt, s) ==> wide(dt, s)
    ensures Closure(types, narrow, few) <= Closure(types, wide, more)
  {
    var r := Closure(types, wide, more);
    assert Closed(types, narrow, r);
  }

  // ---------------------------------------------------------------------------
  // "A field names it"
  // ---------------------------------------------------------------------------

  predicate Names(dt: ExtractedType, target: string, bare: BaseName) {
    target != "" && exists f :: f in dt.fields && bare(Spelling(f)) == target
  }

  predicate NamesOne(dt: ExtractedType, s: set<string>, bare: BaseName) {
    exists target :: target in s && Names(dt, target, bare)
  }

  function ByName(bare: BaseName): Draws { (dt: ExtractedType, s: set<string>) => NamesOne(dt, s, bare) }

  function Expanded(types: seq<ExtractedType>, bare: BaseName, seeds: set<string>): set<string> {
    assert Monotone(ByName(bare));
    Closure(types, ByName(bare), seeds)
  }

  /** With a name, each type with a member of it, pointer or not. */
  ghost predicate HoldersInside(types: seq<ExtractedType>, bare: BaseName, s: set<string>) {
    forall dt: ExtractedType, f: Field :: dt in types && f in dt.fields && bare(Spelling(f)) != "" && bare(Spelling(f)) in s ==> dt.name in s
  }

  /** The expanded names are those in every set so closed over the seeds. */
  lemma ExpandedExactly(types: seq<ExtractedType>, bare: BaseName, seeds: set<string>, n: string)
    ensures n in Expanded(types, bare, seeds) <==> forall s: set<string> :: seeds <= s && HoldersInside(types, bare, s) ==> n in s
  {
    var r := Expanded(types, bare, seeds);
    assert Monotone(ByName(bare));
    forall s: set<string> | seeds <= s ensures HoldersInside(types, bare, s) <==> Closed(types, ByName(bare), s) {
      ClosedByName(types, bare, s);
    }
  }

  lemma ClosedByName(types: seq<ExtractedType>, bare: BaseName, s: set<string>)
    ensures HoldersInside(types, bare, s) <==> Closed(types, ByName(bare), s)
  {
    if Closed(types, ByName(bare), s) {
      forall dt: ExtractedType, f: Field | dt in types && f in dt.fields && bare(Spelling(f)) != "" && bare(Spelling(f)) in s
        ensures dt.name in s
      {
        assert Names(dt, bare(Spelling(f)), bare) && ByName(bare)(dt, s);
      }
    }
  }

  /** The reverse map: a name to the types whose fields name it, each once, itself excepted. */
  ghost predicate IsReverse(index: map<string, seq<string>>, types: seq<ExtractedType>, bare: BaseName) {
    && (forall target, p :: target in index && p in index[target] ==> Refers(types, bare, p, target))
    && (forall dt, target :: dt in types && Names(dt, target, bare) && target != dt.name ==>
          target in index && dt.name in index[target])
  }

  ghost predicate Refers(types: seq<ExtractedType>, bare: BaseName, parent: string, target: string) {
    exists dt :: dt in types && dt.name == parent && Names(dt, target, bare)
  }

  function Noted(index: map<string, seq<string>>, target: string, parent: string): map<string, seq<string>> {
    if target == "" || target == parent then index else
      var parents := if target in index then index[target] else [];
      index[target := if parent in parents then parents else parents + [parent]]
  }

  method ReferencedBy(types: seq<ExtractedType>, bare: BaseName) returns (index: map<string, seq<string>>)
    ensures IsReverse(index, types, bare)
  {
    hide IsReverse, Noted;
    index := map[];
    EmptyIndex(bare);
    for i := 0 to |types|
      invariant IsReverse(index, types[..i], bare)
    {
      var dt := types[i];
      NoFields(index, types[..i], dt, bare);
      for k := 0 to |dt.fields|
        invariant IsReverse(index, types[..i] + [FirstFields(dt, k)], bare)
      {
        OneMoreField(index, types[..i], dt, k, bare);
        index := Noted(index, bare(Spelling(dt.fields[k])), dt.name);
      }
      assert FirstFields(dt, |dt.fields|) == dt && types[..i] + [dt] == types[..i + 1];
    }
    assert types[..|types|] == types;
  }

  function FirstFields(dt: ExtractedType, k: nat): ExtractedType
    requires k <= |dt.fields|
  {
    dt.(fields := dt.fields[..k])
  }

  lemma EmptyIndex(bare: BaseName)
    ensures IsReverse(map[], [], bare)
  {
  }

  lemma NoFields(index: map<string, seq<string>>, done: seq<ExtractedType>, dt: ExtractedType, bare: BaseName)
    requires IsReverse(index, done, bare)
    ensures IsReverse(index, done + [FirstFields(dt, 0)], bare)
  {
    forall target, p | target in index && p in index[target] ensures Refers(done + [FirstFields(dt, 0)], bare, p, target) {
      var x :| x in done && x.name == p && Names(x, target, bare);
      assert x in done + [FirstFields(dt, 0)];
    }
  }

  lemma OneMoreField(index: map<string, seq<string>>, done: seq<ExtractedType>, dt: ExtractedType, k: nat, bare: BaseName)
    requires k < |dt.fields| && IsReverse(index, done + [FirstFields(dt, k)], bare)
    ensures IsReverse(Noted(index, bare(Spelling(dt.fields[k])), dt.name), done + [FirstFields(dt, k + 1)], bare)
  {
    var less, more := FirstFields(dt, k), FirstFields(dt, k + 1);
    var target := bare(Spelling(dt.fields[k]));
    var index' := Noted(index, target, dt.name);
    assert more.fields == less.fields + [dt.fields[k]];
    assert forall t :: Names(more, t, bare) <==> Names(less, t, bare) || (t != "" && t == target);
    forall t, p | t in index' && p in index'[t] ensures Refers(done + [more], bare, p, t) {
      if t in index && p in index[t] {
        var x :| x in done + [less] && x.name == p && Names(x, t, bare);
        var y := if x in done then x else more;
        assert y in done + [more] && Names(y, t, bare);
      } else {
        assert more in done + [more] && Names(more, t, bare);
      }
    }
    forall x, t | x in done + [more] && Names(x, t, bare) && t != x.name ensures t in index' && x.name in index'[t] {
      if x in done { assert x in done + [less]; } else { assert less in done + [less]; }
    }
  }

  function Without(s: seq<string>, out: set<string>): (r: seq<string>)
    ensures forall n :: n in r <==> n in s && n !in out
  {
    if s == [] then [] else
      assert s == s[..|s| - 1] + [s[|s| - 1]];
      Without(s[..|s| - 1], out) + if s[|s| - 1] in out then [] else [s[|s| - 1]]
  }

  lemma WithoutStarts(s: seq<string>, out: set<string>)
    ensures Without(s[..0], out) == [] && s[..|s|] == s
  {
  }

  lemma WithoutOneMore(s: seq<string>, k: nat, out: set<string>)
    requires k < |s|
    ensures Without(s[..k + 1], out) == Without(s[..k], out) + if s[k] in out then [] else [s[k]]
  {
    assert s[..k + 1][..k] == s[..k];
  }

  /** Where the worklist stands: what is left to visit, and nothing outside the goal. */
  ghost predicate Exploring(index: map<string, seq<string>>, start: set<string>, goal: set<string>, out: set<string>, stack: seq<string>) {
    && (forall n :: n in out || n in stack ==> n in goal)
    && (forall n :: n in start ==> n in out || n in stack)
    && (forall n, p :: n in out && n in index && p in index[n] ==> p in out || p in stack)
  }

  method PushParents(rest: seq<string>, parents: seq<string>, out: set<string>) returns (stack: seq<string>)
    ensures stack == rest + Without(parents, out)
  {
    hide *;
    stack := rest;
    WithoutStarts(parents, out);
    for k := 0 to |parents|
      invariant stack == rest + Without(parents[..k], out)
    {
      WithoutOneMore(parents, k, out);
      if parents[k] !in out { stack := stack + [parents[k]]; }
    }
  }

  /** `expandChangedTypes`, a worklist: it ends, with the least closed set over the seeds. */
  method ExpandChangedTypes(seeds: seq<string>, types: seq<ExtractedType>, bare: BaseName) returns (out: set<string>)
    ensures out == Expanded(types, bare, set n | n in seeds)
  {
    hide *;
    var referencedBy := ReferencedBy(types, bare);
    ghost var start := set n | n in seeds;
    ghost var goal := Expanded(types, bare, start);
    out := {};
    var stack := seeds;
    ExploringStarts(types, bare, referencedBy, seeds);
    while stack != []
      invariant Exploring(referencedBy, start, goal, out, stack)
      decreases |goal - out|, |stack|
    {
      var name := stack[|stack| - 1];
      var rest := stack[..|stack| - 1];
      assert stack == rest + [name];
      stack := rest;
      if name in out {
        AlreadyOut(referencedBy, start, goal, out, rest, name);
      } else {
        var parents := if name in referencedBy then referencedBy[name] else [];
        Visit(types, bare, referencedBy, start, out, rest, name);
        out := out + {name};
        stack := PushParents(rest, parents, out);
      }
    }
    ExploringEnds(types, bare, referencedBy, start, out);
  }

  lemma ExploringStarts(types: seq<ExtractedType>, bare: BaseName, index: map<string, seq<string>>, seeds: seq<string>)
    ensures var start := set n | n in seeds; Exploring(index, start, Expanded(types, bare, start), {}, seeds)
  {
  }

  lemma AlreadyOut(index: map<string, seq<string>>, start: set<string>, goal: set<string>, out: set<string>, rest: seq<string>, name: string)
    requires Exploring(index, start, goal, out, rest + [name]) && name in out
    ensures Exploring(index, start, goal, out, rest)
  {
    assert forall n :: n in rest + [name] <==> n in rest || n == name;
  }

  lemma Visit(types: seq<ExtractedType>, bare: BaseName, index: map<string, seq<string>>, start: set<string>,
              out: set<string>, rest: seq<string>, name: string)
    requires IsReverse(index, types, bare) && name !in out
    requires Exploring(index, start, Expanded(types, bare, start), out, rest + [name])
    ensures var goal := Expanded(types, bare, start);
      var parents := if name in index then index[name] else [];
      && Exploring(index, start, goal, out + {name}, rest + Without(parents, out + {name}))
      && |goal - (out + {name})| < |goal - out|
  {
    hide Expanded, Without, Refers, Exploring;
    var goal := Expanded(types, bare, start);
    var parents := if name in index then index[name] else [];
    forall p | p in parents ensures p in goal {
      InsideGoal(index, start, goal, out, rest, name);
      ParentIsInside(types, bare, start, p, name);
    }
    VisitOne(index, start, goal, out, rest, name, parents, Without(parents, out + {name}));
  }

  lemma InsideGoal(index: map<string, seq<string>>, start: set<string>, goal: set<string>, out: set<string>, rest: seq<string>, name: string)
    requires Exploring(index, start, goal, out, rest + [name])
    ensures name in goal
  {
    assert name in rest + [name];
  }

  lemma VisitOne(index: map<string, seq<string>>, start: set<string>, goal: set<string>, out: set<string>, rest: seq<string>,
                 name: string, parents: seq<string>, pushed: seq<string>)
    requires Exploring(index, start, goal, out, rest + [name]) && name !in out
    requires parents == if name in index then index[name] else []
    requires forall p :: p in parents ==> p in goal
    requires forall p :: p in pushed <==> p in parents && p !in out + {name}
    ensures Exploring(index, start, goal, out + {name}, rest + pushed)
    ensures |goal - (out + {name})| < |goal - out|
  {
    assert forall n :: n in rest + [name] <==> n in rest || n == name;
    assert forall n :: n in rest + pushed <==> n in rest || n in pushed;
    assert goal - (out + {name}) == (goal - out) - {name};
  }

  lemma ParentIsInside(types: seq<ExtractedType>, bare: BaseName, seeds: set<string>, parent: string, name: string)
    requires name in Expanded(types, bare, seeds) && Refers(types, bare, parent, name)
    ensures parent in Expanded(types, bare, seeds)
  {
    var r := Expanded(types, bare, seeds);
    var dt :| dt in types && dt.name == parent && Names(dt, name, bare);
    assert ByName(bare)(dt, r);
  }

  lemma ExploringEnds(types: seq<ExtractedType>, bare: BaseName, index: map<string, seq<string>>, start: set<string>, out: set<string>)
    requires IsReverse(index, types, bare) && Exploring(index, start, Expanded(types, bare, start), out, [])
    ensures out == Expanded(types, bare, start)
  {
    forall dt | dt in types && ByName(bare)(dt, out) ensures dt.name in out {
      var target :| target in out && Names(dt, target, bare);
    }
    assert Closed(types, ByName(bare), out);
  }

  // ---------------------------------------------------------------------------
  // By value only
  // ---------------------------------------------------------------------------

  predicate HoldsByValue(f: Field, s: set<string>, base: BaseName) {
    f.dataType.Some? && f.dataType.value != "" && '*' !in f.dataType.value && base(f.dataType.value) in s
  }

  predicate EmbedsOne(dt: ExtractedType, s: set<string>, base: BaseName) {
    exists f :: f in dt.fields && HoldsByValue(f, s, base)
  }

  function ByValue(base: BaseName): Draws { (dt: ExtractedType, s: set<string>) => EmbedsOne(dt, s, base) }

  function Embedding(types: seq<ExtractedType>, base: BaseName, seeds: set<string>): set<string> {
    assert Monotone(ByValue(base));
    Closure(types, ByValue(base), seeds)
  }

  /** With a name, each type with a member of it that is no pointer. */
  ghost predicate EmbeddersInside(types: seq<ExtractedType>, base: BaseName, s: set<string>) {
    forall dt: ExtractedType, f: Field, t: string ::
      dt in types && f in dt.fields && f.dataType == Some(t) && t != "" && '*' !in t && base(t) in s ==> dt.name in s
  }

  /** The embedding names likewise. */
  lemma EmbeddingExactly(types: seq<ExtractedType>, base: BaseName, seeds: set<string>, n: string)
    ensures n in Embedding(types, base, seeds) <==> forall s: set<string> :: seeds <= s && EmbeddersInside(types, base, s) ==> n in s
  {
    var r := Embedding(types, base, seeds);
    assert Monotone(ByValue(base));
    forall s: set<string> | seeds <= s ensures EmbeddersInside(types, base, s) <==> Closed(types, ByValue(base), s) {
      ClosedByValue(types, base, s);
    }
  }

  lemma ClosedByValue(types: seq<ExtractedType>, base: BaseName, s: set<string>)
    ensures EmbeddersInside(types, base, s) <==> Closed(types, ByValue(base), s)
  {
    if Closed(types, ByValue(base), s) {
      forall dt: ExtractedType, f: Field, t: string
        | dt in types && f in dt.fields && f.dataType == Some(t) && t != "" && '*' !in t && base(t) in s
        ensures dt.name in s
      {
        assert HoldsByValue(f, s, base) && ByValue(base)(dt, s);
      }
    }
    if EmbeddersInside(types, base, s) {
      forall dt | dt in types && ByValue(base)(dt, s) ensures dt.name in s {
        var f :| f in dt.fields && HoldsByValue(f, s, base);
        assert f.dataType == Some(f.dataType.value);
      }
    }
  }

  /** Indices in ascending order: a set of slots as the caller gets it. */
  function Ascending(slots: set<nat>, n: nat): (r: seq<nat>)
    ensures forall i :: i in r <==> i in slots && i < n
    ensures forall i, j :: 0 <= i < j < |r| ==> r[i] < r[j]
    ensures forall i :: 0 <= i < |r| ==> r[i] < n
  {
    if n == 0 then [] else Ascending(slots, n - 1) + if n - 1 in slots then [n - 1] else []
  }

  /** Every name reached beyond the seeds has exactly one slot, and no other slot is taken. */
  ghost predicate OneSlotEach(types: seq<ExtractedType>, slots: set<nat>, names: set<string>) {
    && (forall i :: i in slots ==> i < |types| && types[i].name in names)
    && (forall i, j :: i in slots && j in slots && types[i].name == types[j].name ==> i == j)
    && (forall n :: n in names ==> exists i :: i in slots && types[i].name == n)
  }

  /** What a pass has settled: up to `n`, whatever holds a reached type by value is reached. */
  ghost predicate Settled(types: seq<ExtractedType>, n: nat, s: set<string>, base: BaseName)
    requires n <= |types|
  {
    forall k :: 0 <= k < n && EmbedsOne(types[k], s, base) ==> types[k].name in s
  }

  /** `byValueEmbedders`: passes over the list until one finds nothing new. */
  method ByValueEmbedders(types: seq<ExtractedType>, names: set<string>, base: BaseName) returns (r: seq<nat>)
    ensures exists slots ::
      OneSlotEach(types, slots, Embedding(types, base, names) - names) && r == Ascending(slots, |types|)
  {
    hide Embedding, OneSlotEach, EmbedsOne, Settled;
    var reached := names;
    var slots: set<nat> := {};
    ghost var goal := Embedding(types, base, names);
    NoSlots(types, names);
    SeedsAreInside(types, base, names);
    var grew := true;
    while grew
      invariant names <= reached <= goal && OneSlotEach(types, slots, reached - names)
      invariant !grew ==> Settled(types, |types|, reached, base)
      decreases |goal - reached|, grew
    {
      grew := false;
      ghost var before := reached;
      NothingSettled(types, reached, base);
      for i := 0 to |types|
        invariant before <= reached <= goal && names <= reached && OneSlotEach(types, slots, reached - names)
        invariant grew <==> reached != before
        invariant !grew ==> Settled(types, i, reached, base)
      {
        var dt := types[i];
        if i !in slots && dt.name !in reached && EmbedsOne(dt, reached, base) {
          HolderIsInside(types, base, names, reached, dt);
          TakeSlot(types, slots, reached, names, i);
          slots := slots + {i};
          reached := reached + {dt.name};
          grew := true;
        } else if !grew {
          OneMoreSettled(types, slots, reached, names, i, base);
        }
      }
      if grew { Smaller(before, reached, goal); }
    }
    AllSettled(types, base, names, reached);
    r := Ascending(slots, |types|);
  }

  lemma NoSlots(types: seq<ExtractedType>, names: set<string>)
    ensures OneSlotEach(types, {}, names - names)
  {
  }

  lemma SeedsAreInside(types: seq<ExtractedType>, base: BaseName, names: set<string>)
    ensures names <= Embedding(types, base, names)
  {
  }

  lemma NothingSettled(types: seq<ExtractedType>, s: set<string>, base: BaseName)
    ensures Settled(types, 0, s, base)
  {
  }

  lemma OneMoreSettled(types: seq<ExtractedType>, slots: set<nat>, reached: set<string>, names: set<string>, i: nat, base: BaseName)
    requires i < |types| && Settled(types, i, reached, base) && OneSlotEach(types, slots, reached - names)
    requires i in slots || types[i].name in reached || !EmbedsOne(types[i], reached, base)
    ensures Settled(types, i + 1, reached, base)
  {
    assert i in slots ==> types[i].name in reached - names;
  }

  lemma HolderIsInside(types: seq<ExtractedType>, base: BaseName, names: set<string>, reached: set<string>, dt: ExtractedType)
    requires dt in types && reached <= Embedding(types, base, names) && EmbedsOne(dt, reached, base)
    ensures dt.name in Embedding(types, base, names)
  {
    assert ByValue(base)(dt, Embedding(types, base, names));
  }

  lemma Smaller(before: set<string>, reached: set<string>, goal: set<string>)
    requires before <= reached <= goal && before != reached
    ensures |goal - reached| < |goal - before|
  {
    var name :| name in reached && name !in before;
    SubsetSize(goal - reached, (goal - before) - {name});
  }

  lemma AllSettled(types: seq<ExtractedType>, base: BaseName, names: set<string>, reached: set<string>)
    requires names <= reached <= Embedding(types, base, names) && Settled(types, |types|, reached, base)
    ensures reached == Embedding(types, base, names)
  {
    forall dt | dt in types && ByValue(base)(dt, reached) ensures dt.name in reached {
      var k :| 0 <= k < |types| && types[k] == dt;
    }
    assert Closed(types, ByValue(base), reached);
  }

  lemma TakeSlot(types: seq<ExtractedType>, slots: set<nat>, reached: set<string>, names: set<string>, i: nat)
    requires OneSlotEach(types, slots, reached - names) && names <= reached && i < |types| && types[i].name !in reached
    ensures OneSlotEach(types, slots + {i}, reached + {types[i].name} - names)
  {
    var slots', names' := slots + {i}, reached + {types[i].name} - names;
    assert i in slots';
    forall n | n in names' ensures exists k :: k in slots' && types[k].name == n {
      if n != types[i].name {
        assert n in reached - names;
        var k :| k in slots && types[k].name == n;
        assert k in slots';
      }
    }
  }

  ghost predicate DistinctNames(types: seq<ExtractedType>) {
    forall i, j :: 0 <= i < j < |types| ==> types[i].name != types[j].name
  }

  /** With distinct names the slots are exactly those of the closure outside the seeds. */
  lemma SlotsAreTheClosure(types: seq<ExtractedType>, slots: set<nat>, names: set<string>)
    requires OneSlotEach(types, slots, names) && DistinctNames(types)
    ensures forall i: nat :: i in slots <==> i < |types| && types[i].name in names
  {
    forall i: nat | i < |types| && types[i].name in names ensures i in slots {
      var k :| k in slots && types[k].name == types[i].name;
      assert k == i;
    }
  }

  /** One shared base-name function: what embeds by value is among what names. */
  lemma EmbeddingIsExpanded(types: seq<ExtractedType>, base: BaseName, seeds: set<string>)
    requires "" !in seeds + TypeNames(types)
    ensures Embedding(types, base, seeds) <= Expanded(types, base, seeds)
  {
    assert Monotone(ByValue(base)) && Monotone(ByName(base));
    forall dt, s | dt in types && seeds <= s <= seeds + TypeNames(types) && ByValue(base)(dt, s)
      ensures ByName(base)(dt, s)
    {
      var f :| f in dt.fields && HoldsByValue(f, s, base);
      assert Names(dt, base(Spelling(f)), base);
    }
    ClosureIsMonotone(types, ByValue(base), ByName(base), seeds, seeds);
  }
}
