/** What a rename of types reaches (packages/live/src/model.ts: referencedTypeNames, renameReferrers). */
module Renaming {
  import opened Prelude
  import opened Containment
  import opened Spellings

  /** `referencedTypeNames`: members, typedef target, return and parameter types. */
  function ReferencedTypeNames(dt: ExtractedType): seq<string> {
    FieldNames(dt.fields) + Named(dt.underlyingType) + Named(dt.returnType) + ParameterNames(dt.parameters)
  }

  function Named(t: Option<string>): seq<string> {
    if t.Some? && t.value != "" then [BaseTypeName(t.value)] else []
  }

  function FieldNames(fields: seq<Field>): seq<string> {
    if fields == [] then [] else Named(fields[0].dataType) + FieldNames(fields[1..])
  }

  function ParameterNames(ps: seq<Option<string>>): seq<string> {
    if ps == [] then [] else Named(ps[0]) + ParameterNames(ps[1..])
  }

  /** A spelling the record holds: of a member, a typedef's target, what is returned or taken. */
  predicate Spells(dt: ExtractedType, t: string) {
    || (exists f :: f in dt.fields && f.dataType == Some(t))
    || dt.underlyingType == Some(t) || dt.returnType == Some(t) || Some(t) in dt.parameters
  }

  /** What a record refers to is the base name of each spelling in it that is not empty, and nothing else. */
  lemma ReferencedExactly(dt: ExtractedType, n: string)
    ensures n in ReferencedTypeNames(dt) <==> exists t: string :: Spells(dt, t) && t != "" && BaseTypeName(t) == n
  {
    hide BaseTypeName;
    FieldNamesAre(dt.fields, n);
    ParameterNamesAre(dt.parameters, n);
  }

  lemma {:induction false} FieldNamesAre(fields: seq<Field>, n: string)
    ensures n in FieldNames(fields) <==>
      exists f :: f in fields && f.dataType.Some? && f.dataType.value != "" && BaseTypeName(f.dataType.value) == n
    decreases |fields|
  {
    hide BaseTypeName;
    if fields != [] {
      assert fields == [fields[0]] + fields[1..];
      FieldNamesAre(fields[1..], n);
    }
  }

  lemma {:induction false} ParameterNamesAre(ps: seq<Option<string>>, n: string)
    ensures n in ParameterNames(ps) <==> exists p :: p in ps && p.Some? && p.value != "" && BaseTypeName(p.value) == n
    decreases |ps|
  {
    hide BaseTypeName;
    if ps != [] {
      assert ps == [ps[0]] + ps[1..];
      ParameterNamesAre(ps[1..], n);
    }
  }

  /** The record's own name is made from a renamed one: it is renamed with it. */
  predicate Derives(name: string, renamed: set<string>) {
    name !in renamed && BaseTypeName(name) != name && BaseTypeName(name) in renamed
  }

  /** Every old spelling now stale: one level of derivation, no more. */
  function Stale(types: seq<ExtractedType>, renamed: set<string>): set<string> {
    renamed + set dt | dt in types && Derives(dt.name, renamed) :: dt.name
  }

  /** A derived record takes its slot once; a second record of its name does not. */
  predicate DerivedSlot(types: seq<ExtractedType>, renamed: set<string>, i: nat)
    requires i < |types|
  {
    Derives(types[i].name, renamed) && forall k :: 0 <= k < i ==> types[k].name != types[i].name
  }

  predicate ReferringSlot(types: seq<ExtractedType>, stale: set<string>, i: nat)
    requires i < |types|
  {
    types[i].name !in stale && RefersToOne(types[i], stale)
  }

  predicate RefersToOne(dt: ExtractedType, names: set<string>) {
    exists n :: n in ReferencedTypeNames(dt) && n in names
  }

  function DerivedSlots(types: seq<ExtractedType>, renamed: set<string>, n: nat): set<nat>
    requires n <= |types|
  {
    set i | 0 <= i < n && DerivedSlot(types, renamed, i)
  }

  /** The name a derived record has now: the new base and the old suffix. */
  function NewName(name: string, renamedTo: map<string, string>): Option<string> {
    var base := BaseTypeName(name);
    if base in renamedTo && renamedTo[base] != "" then Some(renamedTo[base] + name[|base|..]) else None
  }

  ghost predicate Renames(derived: map<nat, string>, types: seq<ExtractedType>, slots: set<nat>, renamedTo: map<string, string>) {
    && (forall i :: i in derived ==> i in slots)
    && (forall i :: i in slots && i < |types| ==>
          if i in derived then NewName(types[i].name, renamedTo) == Some(derived[i]) else NewName(types[i].name, renamedTo) == None)
  }

  /** After the first `n` records of the first pass. */
  ghost predicate Closing(types: seq<ExtractedType>, renamed: set<string>, renamedTo: map<string, string>, n: nat,
                          names: set<string>, slots: set<nat>, derived: map<nat, string>)
  {
    && n <= |types| && names == Stale(types[..n], renamed) && slots == DerivedSlots(types, renamed, n)
    && Renames(derived, types, slots, renamedTo)
  }

  /** What the loop asks of a record before it takes its name in. */
  predicate TakesIn(name: string, names: set<string>) {
    name !in names && BaseTypeName(name) != name && BaseTypeName(name) in names
  }

  function Recorded(derived: map<nat, string>, i: nat, to: Option<string>): map<nat, string> {
    if to.Some? then derived[i := to.value] else derived
  }

  /**
   * `renameReferrers`. The loop that closes over derived names is a fixpoint loop; it comes
   * to one level, and the slots are exactly the first record of each derived name and the
   * records that refer to a stale one.
   */
  method RenameReferrers(types: seq<ExtractedType>, renamed: set<string>, renamedTo: map<string, string>)
    returns (typeSlots: seq<nat>, names: set<string>, derivedNames: map<nat, string>)
    ensures names == Stale(types, renamed)
    ensures forall i: nat :: i in typeSlots <==>
      i < |types| && (DerivedSlot(types, renamed, i) || ReferringSlot(types, Stale(types, renamed), i))
    ensures forall i, j :: 0 <= i < j < |typeSlots| ==> typeSlots[i] < typeSlots[j]
    ensures Renames(derivedNames, types, DerivedSlots(types, renamed, |types|), renamedTo)
  {
    hide *;
    names, derivedNames := renamed, map[];
    var slots: set<nat> := {};
    ClosingStarts(types, renamed, renamedTo);
    var grew := true;
    ghost var first := true;
    while grew
      invariant Closing(types, renamed, renamedTo, if first then 0 else |types|, names, slots, derivedNames)
      invariant first ==> grew
      decreases first, grew
    {
      grew := false;
      for i := 0 to |types|
        invariant Closing(types, renamed, renamedTo, if first then i else |types|, names, slots, derivedNames)
        invariant !first ==> !grew
      {
        var name := types[i].name;
        if first {
          ClosesOneMore(types, renamed, renamedTo, i, names, slots, derivedNames);
        } else {
          NothingMore(types, renamed, renamedTo, i, names, slots, derivedNames);
        }
        if TakesIn(name, names) {
          names, slots := names + {name}, slots + {i};
          derivedNames := Recorded(derivedNames, i, NewName(name, renamedTo));
          grew := true;
        }
      }
      first := false;
    }
    ClosingEnds(types, renamed, renamedTo, names, slots, derivedNames);
    ghost var derived := slots;
    for i := 0 to |types|
      invariant forall k: nat :: k in slots <==> k in derived || (k < i && ReferringSlot(types, names, k))
    {
      ReferringIs(types, renamed, names, i);
      if i !in slots && types[i].name !in names && RefersToOne(types[i], names) {
        slots := slots + {i};
      }
    }
    typeSlots := Ascending(slots, |types|);
  }

  lemma ClosingStarts(types: seq<ExtractedType>, renamed: set<string>, renamedTo: map<string, string>)
    ensures Closing(types, renamed, renamedTo, 0, renamed, {}, map[])
  {
  }

  /** Derivation does not chain: a name that derives is not a base name. */
  lemma TakesInIsDerives(types: seq<ExtractedType>, renamed: set<string>, name: string)
    ensures TakesIn(name, Stale(types, renamed)) <==> Derives(name, renamed) && name !in TypeNames(types)
  {
    BaseIsFixed(name);
    var stale := Stale(types, renamed);
    assert Derives(name, renamed) && name in TypeNames(types) ==> name in stale by {
      if name in TypeNames(types) { var dt :| dt in types && dt.name == name; }
    }
  }

  lemma ClosesOneMore(types: seq<ExtractedType>, renamed: set<string>, renamedTo: map<string, string>, i: nat,
                      names: set<string>, slots: set<nat>, derived: map<nat, string>)
    requires i < |types| && Closing(types, renamed, renamedTo, i, names, slots, derived)
    ensures var name := types[i].name;
      if TakesIn(name, names)
      then Closing(types, renamed, renamedTo, i + 1, names + {name}, slots + {i}, Recorded(derived, i, NewName(name, renamedTo)))
      else Closing(types, renamed, renamedTo, i + 1, names, slots, derived)
  {
    hide TakesIn, Derives, NewName, DerivedSlot, DerivedSlots, Stale;
    SlotIsTaken(types, renamed, i);
    OneMoreStale(types, renamed, i);
    OneMoreSlot(types, renamed, i);
    assert names + {} == names && slots + {} == slots;
  }

  lemma SlotIsTaken(types: seq<ExtractedType>, renamed: set<string>, i: nat)
    requires i < |types|
    ensures TakesIn(types[i].name, Stale(types[..i], renamed)) <==> DerivedSlot(types, renamed, i)
  {
    var name := types[i].name;
    TakesInIsDerives(types[..i], renamed, name);
    assert forall k :: 0 <= k < i ==> types[k] == types[..i][k] && types[k] in types[..i];
  }

  lemma OneMoreStale(types: seq<ExtractedType>, renamed: set<string>, i: nat)
    requires i < |types|
    ensures var names := Stale(types[..i], renamed);
      Stale(types[..i + 1], renamed) == names + if TakesIn(types[i].name, names) then {types[i].name} else {}
  {
    hide BaseTypeName;
    var name := types[i].name;
    TakesInIsDerives(types[..i], renamed, name);
    assert types[..i + 1] == types[..i] + [types[i]];
    var names := Stale(types[..i], renamed);
    assert Derives(name, renamed) && name in TypeNames(types[..i]) ==> name in names;
  }

  lemma OneMoreSlot(types: seq<ExtractedType>, renamed: set<string>, i: nat)
    requires i < |types|
    ensures DerivedSlots(types, renamed, i + 1) == DerivedSlots(types, renamed, i) + if DerivedSlot(types, renamed, i) then {i} else {}
    ensures i !in DerivedSlots(types, renamed, i)
  {
    hide DerivedSlot;
  }

  lemma NothingMore(types: seq<ExtractedType>, renamed: set<string>, renamedTo: map<string, string>, i: nat,
                    names: set<string>, slots: set<nat>, derived: map<nat, string>)
    requires i < |types| && Closing(types, renamed, renamedTo, |types|, names, slots, derived)
    ensures !TakesIn(types[i].name, names)
  {
    assert types[..|types|] == types && types[i] in types;
    TakesInIsDerives(types, renamed, types[i].name);
  }

  lemma ClosingEnds(types: seq<ExtractedType>, renamed: set<string>, renamedTo: map<string, string>,
                    names: set<string>, slots: set<nat>, derived: map<nat, string>)
    requires Closing(types, renamed, renamedTo, |types|, names, slots, derived)
    ensures names == Stale(types, renamed) && Renames(derived, types, DerivedSlots(types, renamed, |types|), renamedTo)
    ensures forall i: nat :: i in slots <==> i < |types| && DerivedSlot(types, renamed, i)
    ensures forall i :: i in slots ==> types[i].name in names
  {
    assert types[..|types|] == types;
    forall i | i in slots ensures types[i].name in names { assert types[i] in types; }
  }

  lemma ReferringIs(types: seq<ExtractedType>, renamed: set<string>, names: set<string>, i: nat)
    requires i < |types| && names == Stale(types, renamed)
    ensures ReferringSlot(types, names, i) <==> types[i].name !in names && RefersToOne(types[i], names)
  {
  }

  lemma {:induction false} SameBehind(a: string, b: string, backs: seq<Back>) returns (tail: string)
    ensures WithBacks(a, backs) == a + tail && WithBacks(b, backs) == b + tail
    decreases |backs|
  {
    if backs == [] { return ""; }
    var n := |backs| - 1;
    var before := SameBehind(a, b, backs[..n]);
    tail := before + backs[n].gap + backs[n].decoration;
  }

  /**
   * Renaming a type renames each record spelled with stars, extents and qualifiers behind its
   * name to the same spelling of the new name, which refers to the new name; a record whose
   * type has no new name, or an empty one, keeps its own.
   */
  lemma RenameKeepsTheSuffix(from: string, backs: seq<Back>, renamedTo: map<string, string>)
    requires Plain(from) && AreBacks(from, backs)
    ensures var to := if from in renamedTo then renamedTo[from] else "";
      && NewName(WithBacks(from, backs), renamedTo) == (if to == "" then None else Some(WithBacks(to, backs)))
      && (Plain(to) && AreBacks(to, backs) ==> BaseTypeName(WithBacks(to, backs)) == to)
  {
    hide BaseTypeName, WithBacks, AreBacks, Undecorated, Plain;
    var to := if from in renamedTo then renamedTo[from] else "";
    WithBacksReduces(from, backs);
    if Plain(to) && AreBacks(to, backs) { WithBacksReduces(to, backs); }
    var tail := SameBehind(from, to, backs);
  }
}
