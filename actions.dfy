/**
 * The action list the reconcilers produce and the applier consumes (the `Action` enum of
 * src/process.ts and src/migrator.ts, which are identical), with the parts of the
 * reconciliation both files share: the shrink search and the lockstep common-prefix test.
 */
module Actions {
  import opened Wrappers
  import opened State

  datatype Action = Skip | Shrink | Remove | Change | Add

  /** `{ name, action }`. */
  datatype Step = Step(name: string, action: Action)

  /** `{ ...item, success }`, what `notify` receives. */
  datatype Notice = Notice(name: string, action: Action, success: bool)

  /** One step with action `a` for each name, in order. */
  function Tag(names: seq<string>, a: Action): (steps: seq<Step>)
    ensures |steps| == |names|
    ensures forall i :: 0 <= i < |names| ==> steps[i] == Step(names[i], a)
  {
    seq(|names|, i requires 0 <= i < |names| => Step(names[i], a))
  }

  lemma TagAppend(x: seq<string>, y: seq<string>, a: Action)
    ensures Tag(x + y, a) == Tag(x, a) + Tag(y, a)
  {
    assert Tag(x + y, a) == Tag(x, a) + Tag(y, a) by {
      forall i | 0 <= i < |x| + |y| ensures Tag(x + y, a)[i] == (Tag(x, a) + Tag(y, a))[i] {
        if i < |x| { assert (x + y)[i] == x[i]; } else { assert (x + y)[i] == y[i - |x|]; }
      }
    }
  }

  lemma TagSnoc(names: seq<string>, x: string, a: Action)
    ensures Tag(names + [x], a) == Tag(names, a) + [Step(x, a)]
  {
    TagAppend(names, [x], a);
  }

  lemma TagCons(names: seq<string>, a: Action)
    requires names != []
    ensures Tag(names, a)[0] == Step(names[0], a) && Tag(names, a)[1..] == Tag(names[1..], a)
  {
  }

  /** A list of steps given position by position is the tagging of those names. */
  lemma TagPointwise(steps: seq<Step>, names: seq<string>, a: Action)
    requires |steps| == |names|
    requires forall j :: 0 <= j < |names| ==> steps[j] == Step(names[j], a)
    ensures steps == Tag(names, a)
  {
  }

  function Reverse<T>(s: seq<T>): (r: seq<T>)
    ensures |r| == |s|
    ensures forall i :: 0 <= i < |s| ==> r[i] == s[|s| - 1 - i]
  {
    if s == [] then [] else [s[|s| - 1]] + Reverse(s[..|s| - 1])
  }

  lemma ReverseSnoc<T>(s: seq<T>, x: T)
    ensures Reverse(s + [x]) == [x] + Reverse(s)
  {
    assert (s + [x])[..|s|] == s;
  }

  lemma ReverseReverse<T>(s: seq<T>)
    ensures Reverse(Reverse(s)) == s
  {
  }

  /** Reversing a list of names keeps the set of names. */
  lemma NameSetReverse(s: seq<string>)
    ensures NameSet(Reverse(s)) == NameSet(s)
  {
    var r := Reverse(s);
    forall n | n in NameSet(s) ensures n in NameSet(r) {
      var i :| 0 <= i < |s| && s[i] == n;
      assert r[|s| - 1 - i] == n;
    }
  }

  /** The names of the steps with action `a`, in list order. */
  function Of(steps: seq<Step>, a: Action): (names: seq<string>)
    ensures |names| <= |steps|
  {
    if steps == [] then []
    else (if steps[0].action == a then [steps[0].name] else []) + Of(steps[1..], a)
  }

  lemma {:induction false} OfAppend(x: seq<Step>, y: seq<Step>, a: Action)
    ensures Of(x + y, a) == Of(x, a) + Of(y, a)
  {
    if x == [] {
      assert x + y == y;
    } else {
      var head := if x[0].action == a then [x[0].name] else [];
      assert (x + y)[0] == x[0];
      assert (x + y)[1..] == x[1..] + y;
      assert Of(x + y, a) == head + Of(x[1..] + y, a);
      OfAppend(x[1..], y, a);
      AppendAssoc(head, Of(x[1..], a), Of(y, a));
    }
  }

  /** `(f + (s + r1)) + r2 + a` regrouped with the two `r` blocks together. */
  lemma Regroup<T>(f: seq<T>, s: seq<T>, r1: seq<T>, r2: seq<T>, a: seq<T>)
    ensures f + (s + r1) + r2 + a == f + s + (r1 + r2) + a
  {
  }

  lemma SliceJoin<T>(s: seq<T>, i: nat, j: nat)
    requires i <= j <= |s|
    ensures s[i..j] + s[j..] == s[i..]
  {
  }

  lemma AppendAssoc<T>(a: seq<T>, b: seq<T>, c: seq<T>)
    ensures a + (b + c) == a + b + c
  {
  }

  /** Tagging with `a` and then selecting `b` gives the names back when `a == b`, and nothing otherwise. */
  lemma {:induction false} OfTag(names: seq<string>, a: Action, b: Action)
    ensures Of(Tag(names, a), b) == if a == b then names else []
  {
    if names != [] {
      assert Tag(names, a)[1..] == Tag(names[1..], a);
      OfTag(names[1..], a, b);
      assert [names[0]] + names[1..] == names;
    }
  }

  /** No name selected for `a` means no step carries `a`. */
  lemma {:induction false} OfNone(steps: seq<Step>, a: Action)
    requires Of(steps, a) == []
    ensures forall i :: 0 <= i < |steps| ==> steps[i].action != a
  {
    if steps != [] {
      OfNone(steps[1..], a);
      assert forall i :: 1 <= i < |steps| ==> steps[i] == steps[1..][i - 1];
    }
  }

  /** The list with the block `steps[i..j]` reversed and everything else in place. */
  function ReverseBlock(steps: seq<Step>, i: nat, j: nat): seq<Step>
    requires i <= j <= |steps|
  {
    steps[..i] + Reverse(steps[i..j]) + steps[j..]
  }

  // ---------------------------------------------------------------------------------------
  // The shrink search and the common prefix, shared by both reconcilers

  /** `items.map(item => item.name)`. */
  function Names(ms: seq<Migration>): (names: seq<string>)
    ensures |names| == |ms|
    ensures forall i {:trigger names[i]} :: 0 <= i < |ms| ==> names[i] == ms[i].name
  {
    seq(|ms|, i requires 0 <= i < |ms| => ms[i].name)
  }

  /** Every name of `names` is a key of `index`, filed under a migration of that name. */
  predicate Indexed(names: seq<string>, index: map<string, Migration>) {
    forall i :: 0 <= i < |names| ==> names[i] in index && index[names[i]].name == names[i]
  }

  /** The lookups `tableByName[table[i]]` and `migrationsByName[migrations[i]]` never miss. */
  lemma NamesIndexed(ms: seq<Migration>)
    ensures Indexed(Names(ms), IndexByName(ms))
  {
    IndexByNameKeys(ms);
    forall i | 0 <= i < |ms| ensures Names(ms)[i] in IndexByName(ms) {
      assert ms[i] in ms;
    }
  }

  /** With distinct names the index files every migration of the list under its own name. */
  lemma IndexOfDistinct(list: seq<Migration>, i: nat)
    requires Distinct(Names(list)) && i < |list|
    ensures list[i].name in IndexByName(list) && IndexByName(list)[list[i].name] == list[i]
  {
    forall j | i < j < |list| ensures list[j].name != list[i].name {
      assert Names(list)[j] == list[j].name && Names(list)[i] == list[i].name;
    }
    LastOccurrenceWins(list, i);
  }

  lemma IndexedSuffix(names: seq<string>, index: map<string, Migration>, s: nat)
    requires Indexed(names, index) && s <= |names|
    ensures Indexed(names[s..], index)
  {
    forall i | 0 <= i < |names| - s ensures names[s..][i] in index && index[names[s..][i]].name == names[s..][i] {
      assert names[s..][i] == names[s + i];
    }
  }

  /** No name occurs twice, as the UNIQUE column of the tracking table guarantees for its rows. */
  predicate Distinct(names: seq<string>) {
    forall i, j :: 0 <= i < j < |names| ==> names[i] != names[j]
  }

  /** The names of a list, as a set. */
  function NameSet(names: seq<string>): (s: set<string>)
    ensures forall n :: n in s <==> n in names
  {
    set n | n in names
  }

  lemma NameSetCons(names: seq<string>)
    requires names != []
    ensures NameSet(names) == {names[0]} + NameSet(names[1..])
  {
    assert forall n :: n in names <==> n == names[0] || n in names[1..];
  }

  lemma DistinctTail(names: seq<string>)
    requires names != [] && Distinct(names)
    ensures Distinct(names[1..]) && names[0] !in names[1..]
  {
    assert forall i :: 0 <= i < |names| - 1 ==> names[1..][i] == names[i + 1];
  }

  /** `s.indexOf(x)`: the first position of `x`, or -1. */
  function IndexOf(s: seq<string>, x: string): (i: int)
    ensures -1 <= i < |s|
    ensures i >= 0 ==> s[i] == x && forall j :: 0 <= j < i ==> s[j] != x
    ensures i == -1 ==> forall j :: 0 <= j < |s| ==> s[j] != x
  {
    if s == [] then -1
    else if s[0] == x then 0
    else var k := IndexOf(s[1..], x); if k == -1 then -1 else k + 1
  }

  /**
   * `table.indexOf(migrations[0])`: the first applied position of the first desired name. With
   * no desired migrations the argument is `undefined`, which no name equals.
   */
  function ShrinkIndex(applied: seq<string>, desired: seq<string>): int {
    if desired == [] then -1 else IndexOf(applied, desired[0])
  }

  /** The applied names the shrink pass drops: everything before `desired[0]`'s first position. */
  function Dropped(applied: seq<string>, desired: seq<string>): (dropped: seq<string>)
    ensures |dropped| <= |applied| && dropped == applied[..|dropped|]
    ensures dropped != [] ==> desired != [] && desired[0] in applied && desired[0] !in dropped
  {
    var s := ShrinkIndex(applied, desired);
    if s >= 0 then applied[..s] else []
  }

  /** The working copy of the applied names after the shrink pass. */
  function Kept(applied: seq<string>, desired: seq<string>): (kept: seq<string>)
    ensures |Dropped(applied, desired)| + |kept| == |applied| && kept == applied[|Dropped(applied, desired)|..]
    ensures desired != [] && desired[0] in applied ==> kept != [] && kept[0] == desired[0]
  {
    var s := ShrinkIndex(applied, desired);
    if s >= 0 then applied[s..] else applied
  }

  /** `index[name]?.hash.do`. */
  function DoHashOf(index: map<string, Migration>, name: string): Option<string> {
    if name in index then Some(index[name].Hash().doPart) else None
  }

  /** The applied name `a` and the desired name `b` agree: same name, same do-hash. */
  predicate Agree(tableByName: map<string, Migration>, migrationsByName: map<string, Migration>, a: string, b: string) {
    a == b && DoHashOf(tableByName, a) == DoHashOf(migrationsByName, b)
  }

  /**
   * The length of the lockstep walk: the longest common prefix of `kept` and `desired` by name
   * and do-hash. A single disagreement ends it; nothing after it is compared.
   */
  function PrefixLength(kept: seq<string>, desired: seq<string>,
                        tableByName: map<string, Migration>, migrationsByName: map<string, Migration>): (k: nat)
    ensures k <= |kept| && k <= |desired|
    ensures forall i :: 0 <= i < k ==> Agree(tableByName, migrationsByName, kept[i], desired[i])
    ensures k < |kept| && k < |desired| ==> !Agree(tableByName, migrationsByName, kept[k], desired[k])
  {
    if kept == [] || desired == [] || !Agree(tableByName, migrationsByName, kept[0], desired[0]) then 0
    else 1 + PrefixLength(kept[1..], desired[1..], tableByName, migrationsByName)
  }

  /** Up to where the walk stops, the two name lists coincide. */
  lemma PrefixCommon(kept: seq<string>, desired: seq<string>, tableByName: map<string, Migration>, migrationsByName: map<string, Migration>)
    ensures var k := PrefixLength(kept, desired, tableByName, migrationsByName); kept[..k] == desired[..k]
  {
  }

  /** A walk that agrees up to `d` and stops there (a disagreement or an exhausted list) has length `d`. */
  lemma PrefixExact(kept: seq<string>, desired: seq<string>,
                    tableByName: map<string, Migration>, migrationsByName: map<string, Migration>, d: nat)
    requires d <= |kept| && d <= |desired|
    requires forall i :: 0 <= i < d ==> Agree(tableByName, migrationsByName, kept[i], desired[i])
    requires d < |kept| && d < |desired| ==> !Agree(tableByName, migrationsByName, kept[d], desired[d])
    ensures PrefixLength(kept, desired, tableByName, migrationsByName) == d
  {
  }

  /** Lists that agree everywhere and have the same length are walked to the end. */
  lemma {:induction false} PrefixFull(kept: seq<string>, desired: seq<string>,
                                      tableByName: map<string, Migration>, migrationsByName: map<string, Migration>)
    requires |kept| == |desired|
    requires forall i :: 0 <= i < |kept| ==> Agree(tableByName, migrationsByName, kept[i], desired[i])
    ensures PrefixLength(kept, desired, tableByName, migrationsByName) == |kept|
  {
    if kept != [] {
      assert Agree(tableByName, migrationsByName, kept[0], desired[0]);
      assert forall i :: 0 <= i < |kept| - 1 ==> kept[1..][i] == kept[i + 1] && desired[1..][i] == desired[i + 1];
      PrefixFull(kept[1..], desired[1..], tableByName, migrationsByName);
    }
  }

  /** Where the walk stops for the applied and desired sequences of a state. */
  function Matched(table: seq<Migration>, migrations: seq<Migration>): nat {
    PrefixLength(Kept(Names(table), Names(migrations)), Names(migrations), IndexByName(table), IndexByName(migrations))
  }

  /** Two sequences with the same names and do-hashes, position by position, index the same do-hashes. */
  lemma {:induction false} SameDoHashes(a: seq<Migration>, b: seq<Migration>, n: string)
    requires |a| == |b|
    requires forall i :: 0 <= i < |a| ==> a[i].name == b[i].name && a[i].doHash == b[i].doHash
    ensures DoHashOf(IndexByName(a), n) == DoHashOf(IndexByName(b), n)
    decreases |a|
  {
    if a != [] {
      SameDoHashes(a[..|a| - 1], b[..|b| - 1], n);
    }
  }

  /** The walk sees the indexes only through their do-hashes: indexes with the same do-hashes stop at the same place. */
  lemma {:induction false} PrefixSameHashes(kept: seq<string>, desired: seq<string>, t1: map<string, Migration>, t2: map<string, Migration>,
                                            m1: map<string, Migration>, m2: map<string, Migration>)
    requires forall n :: DoHashOf(t1, n) == DoHashOf(t2, n)
    requires forall n :: DoHashOf(m1, n) == DoHashOf(m2, n)
    ensures PrefixLength(kept, desired, t1, m1) == PrefixLength(kept, desired, t2, m2)
    decreases |kept|
  {
    if kept != [] && desired != [] {
      assert DoHashOf(t1, kept[0]) == DoHashOf(t2, kept[0]);
      assert DoHashOf(m1, desired[0]) == DoHashOf(m2, desired[0]);
      PrefixSameHashes(kept[1..], desired[1..], t1, t2, m1, m2);
    }
  }

  /**
   * Two states whose tables agree in names and do-hashes, and whose desired lists do too, have
   * the same applied and desired names and the walk stops at the same place.
   */
  lemma SameMatched(table: seq<Migration>, otherTable: seq<Migration>, migrations: seq<Migration>, other: seq<Migration>)
    requires |otherTable| == |table|
    requires forall i :: 0 <= i < |table| ==> otherTable[i].name == table[i].name && otherTable[i].doHash == table[i].doHash
    requires |other| == |migrations|
    requires forall i :: 0 <= i < |migrations| ==> other[i].name == migrations[i].name && other[i].doHash == migrations[i].doHash
    ensures Names(otherTable) == Names(table) && Names(other) == Names(migrations)
    ensures Matched(otherTable, other) == Matched(table, migrations)
  {
    assert Names(otherTable) == Names(table);
    assert Names(other) == Names(migrations);
    forall n ensures DoHashOf(IndexByName(otherTable), n) == DoHashOf(IndexByName(table), n) {
      SameDoHashes(otherTable, table, n);
    }
    forall n ensures DoHashOf(IndexByName(other), n) == DoHashOf(IndexByName(migrations), n) {
      SameDoHashes(other, migrations, n);
    }
    PrefixSameHashes(Kept(Names(table), Names(migrations)), Names(migrations),
                     IndexByName(otherTable), IndexByName(table), IndexByName(other), IndexByName(migrations));
  }

  // ---------------------------------------------------------------------------------------
  // The block shape of a plan, shared by both reconcilers

  /** The shape of the plan both `inspect`s return: five blocks, each tagged with one action. */
  function Layout(front: seq<string>, dropped: seq<string>, skipped: seq<string>, removed: seq<string>, added: seq<string>): seq<Step> {
    Tag(front, Remove) + Tag(dropped, Shrink) + Tag(skipped, Skip) + Tag(removed, Remove) + Tag(added, Add)
  }

  /** Selecting one action from a layout gives back the blocks tagged with it. */
  lemma LayoutOf(front: seq<string>, dropped: seq<string>, skipped: seq<string>, removed: seq<string>, added: seq<string>)
    ensures var p := Layout(front, dropped, skipped, removed, added);
      && Of(p, Shrink) == dropped && Of(p, Skip) == skipped && Of(p, Remove) == front + removed
      && Of(p, Add) == added && Of(p, Change) == []
  {
    LayoutOfAction(front, dropped, skipped, removed, added, Shrink);
    LayoutOfAction(front, dropped, skipped, removed, added, Skip);
    LayoutOfAction(front, dropped, skipped, removed, added, Remove);
    LayoutOfAction(front, dropped, skipped, removed, added, Add);
    LayoutOfAction(front, dropped, skipped, removed, added, Change);
  }

  /** The names a layout holds for one action, block by block. */
  lemma LayoutOfAction(front: seq<string>, dropped: seq<string>, skipped: seq<string>, removed: seq<string>, added: seq<string>, a: Action)
    ensures Of(Layout(front, dropped, skipped, removed, added), a)
         == (if a == Remove then front else []) + (if a == Shrink then dropped else []) + (if a == Skip then skipped else [])
            + (if a == Remove then removed else []) + (if a == Add then added else [])
  {
    OfFive(Tag(front, Remove), Tag(dropped, Shrink), Tag(skipped, Skip), Tag(removed, Remove), Tag(added, Add), a);
    OfTag(front, Remove, a);
    OfTag(dropped, Shrink, a);
    OfTag(skipped, Skip, a);
    OfTag(removed, Remove, a);
    OfTag(added, Add, a);
  }

  lemma OfFive(b0: seq<Step>, b1: seq<Step>, b2: seq<Step>, b3: seq<Step>, b4: seq<Step>, a: Action)
    ensures Of(b0 + b1 + b2 + b3 + b4, a) == Of(b0, a) + Of(b1, a) + Of(b2, a) + Of(b3, a) + Of(b4, a)
  {
    OfAppend(b0 + b1 + b2 + b3, b4, a);
    OfAppend(b0 + b1 + b2, b3, a);
    OfAppend(b0 + b1, b2, a);
    OfAppend(b0, b1, a);
  }

  /** `names.forEach(name => steps.push({ name, action }))`, and the `for` loops that push. */
  method PushTagged(steps: seq<Step>, names: seq<string>, a: Action) returns (out: seq<Step>)
    ensures out == steps + Tag(names, a)
  {
    out := steps;
    for i := 0 to |names|
      invariant out == steps + Tag(names[..i], a)
    {
      assert names[..i + 1] == names[..i] + [names[i]];
      TagSnoc(names[..i], names[i], a);
      out := out + [Step(names[i], a)];
    }
    assert names[..|names|] == names;
  }

  /** Without the leading Removes, a layout opens with its Shrink block. */
  lemma LayoutShrinkFirst(dropped: seq<string>, skipped: seq<string>, removed: seq<string>, added: seq<string>)
    ensures var p := Layout([], dropped, skipped, removed, added);
      |p| >= |dropped| && p[..|dropped|] == Tag(dropped, Shrink)
  {
    assert Tag([], Remove) == [];
    assert Layout([], dropped, skipped, removed, added) == Tag(dropped, Shrink) + (Tag(skipped, Skip) + Tag(removed, Remove) + Tag(added, Add));
  }

  /** A layout with only its two Remove blocks. */
  lemma LayoutRemovesOnly(front: seq<string>, removed: seq<string>)
    ensures Layout(front, [], [], removed, []) == Tag(front, Remove) + Tag(removed, Remove)
  {
    assert Tag([], Shrink) == [] && Tag([], Skip) == [] && Tag([], Add) == [];
  }

  /** Tagging commutes with reversal. */
  lemma TagReverse(names: seq<string>, a: Action)
    ensures Reverse(Tag(names, a)) == Tag(Reverse(names), a)
  {
  }

  /** Reversing the middle block of a three-part list. */
  lemma ReverseMiddle(x: seq<Step>, m: seq<Step>, y: seq<Step>)
    ensures ReverseBlock(x + m + y, |x|, |x| + |m|) == x + Reverse(m) + y
  {
    var p := x + m + y;
    assert p[..|x|] == x;
    assert p[|x|..|x| + |m|] == m;
    assert p[|x| + |m|..] == y;
  }

  /**
   * The two layouts that differ only in the order of the second Remove block, which starts at
   * `i` and ends at `j`.
   */
  lemma LayoutReverseRemoved(front: seq<string>, dropped: seq<string>, skipped: seq<string>, removed: seq<string>, added: seq<string>,
                             i: nat, j: nat)
    requires i == |front| + |dropped| + |skipped| && j == i + |removed|
    ensures j <= |Layout(front, dropped, skipped, removed, added)|
    ensures ReverseBlock(Layout(front, dropped, skipped, removed, added), i, j) == Layout(front, dropped, skipped, Reverse(removed), added)
  {
    var x := Tag(front, Remove) + Tag(dropped, Shrink) + Tag(skipped, Skip);
    var m, y := Tag(removed, Remove), Tag(added, Add);
    assert Layout(front, dropped, skipped, removed, added) == x + m + y;
    assert Layout(front, dropped, skipped, Reverse(removed), added) == x + Tag(Reverse(removed), Remove) + y;
    TagReverse(removed, Remove);
    ReverseMiddle(x, m, y);
  }

  /** Reversing the Remove block of a layout twice restores it. */
  lemma LayoutReverseRemovedBack(front: seq<string>, dropped: seq<string>, skipped: seq<string>, removed: seq<string>, added: seq<string>,
                                 i: nat, j: nat)
    requires i == |front| + |dropped| + |skipped| && j == i + |removed|
    ensures j <= |Layout(front, dropped, skipped, Reverse(removed), added)|
    ensures ReverseBlock(Layout(front, dropped, skipped, Reverse(removed), added), i, j) == Layout(front, dropped, skipped, removed, added)
  {
    LayoutReverseRemoved(front, dropped, skipped, Reverse(removed), added, i, j);
    ReverseReverse(removed);
  }

  /**
   * Where each action sits in a layout: Shrinks and Skips only in their blocks, Removes only in
   * the front block or after the Skips, Adds only at the end.
   */
  lemma LayoutPositions(front: seq<string>, dropped: seq<string>, skipped: seq<string>, removed: seq<string>, added: seq<string>)
    ensures var p := Layout(front, dropped, skipped, removed, added);
            var s0 := |front| + |dropped|;
            var s1 := s0 + |skipped|;
      && |p| == s1 + |removed| + |added|
      && (forall x :: 0 <= x < |p| && p[x].action == Skip ==> s0 <= x < s1)
      && (forall x :: 0 <= x < |p| && p[x].action == Remove ==> x < |front| || s1 <= x < s1 + |removed|)
  {
    var b, c := Tag(front, Remove) + Tag(dropped, Shrink), Tag(skipped, Skip) + Tag(removed, Remove);
    var p := Layout(front, dropped, skipped, removed, added);
    assert p == b + c + Tag(added, Add);
    forall x | 0 <= x < |p|
      ensures p[x].action == Skip ==> |b| <= x < |b| + |skipped|
      ensures p[x].action == Remove ==> x < |front| || |b| + |skipped| <= x < |b| + |c|
    {
      if x < |b| {
        assert p[x] == b[x];
        if x >= |front| { assert b[x] == Tag(dropped, Shrink)[x - |front|]; }
      } else if x < |b| + |c| {
        assert p[x] == c[x - |b|];
      } else {
        assert p[x] == Tag(added, Add)[x - |b| - |c|];
      }
    }
  }

  /**
   * The latch: in a layout whose front block or Skip block is empty, no Skip comes after any
   * Remove.
   */
  lemma LayoutLatch(front: seq<string>, dropped: seq<string>, skipped: seq<string>, removed: seq<string>, added: seq<string>)
    requires front == [] || skipped == []
    ensures var p := Layout(front, dropped, skipped, removed, added);
      forall i, j :: 0 <= i < j < |p| && p[i].action == Remove ==> p[j].action != Skip
  {
    LayoutPositions(front, dropped, skipped, removed, added);
  }
}
