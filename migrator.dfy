/**
 * src/migrator.ts: the reconciler the package's default export wires in (`inspect` with the
 * latched `differenceFound` flag, Removes in forward applied order) and its applier (`migrate`
 * with `remove`, `add` and `change`, dates from the server's clock).
 */
module Migrator {
  import opened Wrappers
  import opened State
  import opened Actions
  import opened Db
  import opened Apply
  import Process

  /**
   * What `inspect` returns: Removes for every applied name when nothing is desired, the Shrinks,
   * the Skips of the common prefix, every later applied name as a Remove in applied order, and
   * the desired names from the first mismatch on as Adds.
   */
  function MigratorPlan(table: seq<Migration>, migrations: seq<Migration>): (p: seq<Step>)
  {
    var applied, desired := Names(table), Names(migrations);
    var kept := Kept(applied, desired);
    var k := Matched(table, migrations);
    Layout(if desired == [] then applied else [], Dropped(applied, desired), kept[..k], kept[k..], desired[k..])
  }

  /**
   * The first `while` loop of `inspect`. While no difference has been found, `iCur` and `iNew`
   * advance together over agreeing names and emit Skip; the first mismatch sets the latch, after
   * which every applied name is a Remove and `iNew` stays where the mismatch was.
   */
  method LatchWalk(table: seq<string>, migrations: seq<string>,
                   tableByName: map<string, Migration>, migrationsByName: map<string, Migration>)
    returns (walk: seq<Step>, iCur: nat, iNew: nat)
    requires Indexed(table, tableByName) && Indexed(migrations, migrationsByName)
    ensures iNew == PrefixLength(table, migrations, tableByName, migrationsByName)
    ensures iNew <= iCur <= |table|
    ensures iCur == |table| || iCur == iNew == |migrations|
    ensures walk == Tag(table[..iNew], Skip) + Tag(table[iNew..iCur], Remove)
  {
    walk, iCur, iNew := [], 0, 0;
    var differenceFound := false;
    while iCur < |table| && iNew < |migrations|
      invariant iNew <= iCur <= |table| && iNew <= |migrations|
      invariant !differenceFound ==> iNew == iCur
      invariant differenceFound ==> iNew < iCur && iNew < |migrations|
      invariant forall i :: 0 <= i < iNew ==> Agree(tableByName, migrationsByName, table[i], migrations[i])
      invariant differenceFound ==> !Agree(tableByName, migrationsByName, table[iNew], migrations[iNew])
      invariant walk == Tag(table[..iNew], Skip) + Tag(table[iNew..iCur], Remove)
      decreases |table| - iCur
    {
      var current := tableByName[table[iCur]];
      var next := migrationsByName[migrations[iNew]];
      if differenceFound || current.name != next.name || current.Hash().doPart != next.Hash().doPart {
        differenceFound := true;
        assert table[iNew..iCur + 1] == table[iNew..iCur] + [table[iCur]];
        WalkRemove(table[..iNew], table[iNew..iCur], current.name, walk);
        walk := walk + [Step(current.name, Remove)];
        iCur := iCur + 1;
      } else {
        assert table[..iNew + 1] == table[..iNew] + [table[iNew]];
        WalkSkip(table[..iNew], current.name, walk);
        walk := walk + [Step(current.name, Skip)];
        iCur := iCur + 1;
        iNew := iNew + 1;
      }
    }
    PrefixExact(table, migrations, tableByName, migrationsByName, iNew);
  }

  /** A Remove pushed during the walk extends the Remove block. */
  lemma WalkRemove(skipped: seq<string>, removed: seq<string>, x: string, walk: seq<Step>)
    requires walk == Tag(skipped, Skip) + Tag(removed, Remove)
    ensures walk + [Step(x, Remove)] == Tag(skipped, Skip) + Tag(removed + [x], Remove)
  {
    TagSnoc(removed, x, Remove);
  }

  /** A Skip pushed before any Remove extends the Skip block. */
  lemma WalkSkip(skipped: seq<string>, x: string, walk: seq<Step>)
    requires walk == Tag(skipped, Skip) + Tag([], Remove)
    ensures walk + [Step(x, Skip)] == Tag(skipped + [x], Skip) + Tag([], Remove)
  {
    TagSnoc(skipped, x, Skip);
  }

  /** `inspect`: the Removes of an empty desired list, the shrink, then the three `while` loops. */
  method Inspect(state: State) returns (steps: seq<Step>, fault: Option<Fault>)
    ensures fault == if state.loaded then None else Some(NotLoaded)
    ensures steps == if state.loaded then MigratorPlan(state.table, state.migrations) else []
  {
    if !state.loaded {
      return [], Some(NotLoaded);
    }
    fault := None;
    var table := Names(state.table);
    var migrations := Names(state.migrations);
    ghost var applied := table;

    steps := [];
    if |migrations| == 0 {
      steps := PushTagged(steps, table, Remove);
    }

    var shrinkIndex := ShrinkIndex(table, migrations);
    if shrinkIndex >= 0 {
      var removed := table[..shrinkIndex];
      table := table[shrinkIndex..];
      steps := PushTagged(steps, removed, Shrink);
    } else {
      assert Tag([], Shrink) == [];
    }
    assert steps == Tag(if Names(state.migrations) == [] then applied else [], Remove) + Tag(Dropped(applied, migrations), Shrink);
    assert table == Kept(applied, migrations);

    var tableByName := state.TableByName();
    var migrationsByName := state.MigrationsByName();
    NamesIndexed(state.table);
    NamesIndexed(state.migrations);
    IndexedSuffix(applied, tableByName, |applied| - |table|);
    var front := steps;
    var walk, iCur, iNew := LatchWalk(table, migrations, tableByName, migrationsByName);
    steps := steps + walk;
    var afterWalk := steps;
    steps := PushTagged(steps, table[iCur..], Remove);
    var afterRemoves := steps;
    steps := PushTagged(steps, migrations[iNew..], Add);
    InspectAssembles(state.table, state.migrations, table, iCur, iNew, front, walk, afterWalk, afterRemoves, steps);
  }

  /** The array `inspect` builds is the plan. */
  lemma InspectAssembles(table: seq<Migration>, migrations: seq<Migration>, kept: seq<string>, iCur: nat, iNew: nat,
                         front: seq<Step>, walk: seq<Step>, afterWalk: seq<Step>, afterRemoves: seq<Step>, steps: seq<Step>)
    requires kept == Kept(Names(table), Names(migrations))
    requires iNew == Matched(table, migrations) && iNew <= iCur <= |kept|
    requires front == Tag(if Names(migrations) == [] then Names(table) else [], Remove) + Tag(Dropped(Names(table), Names(migrations)), Shrink)
    requires walk == Tag(kept[..iNew], Skip) + Tag(kept[iNew..iCur], Remove)
    requires afterWalk == front + walk
    requires afterRemoves == afterWalk + Tag(kept[iCur..], Remove)
    requires steps == afterRemoves + Tag(Names(migrations)[iNew..], Add)
    ensures steps == MigratorPlan(table, migrations)
  {
    WalkAssembles(front, kept, Names(migrations), iCur, iNew, walk, afterWalk, afterRemoves, steps);
  }

  /** The walk's two blocks and the Removes of the second loop make one Remove block. */
  lemma WalkAssembles(front: seq<Step>, kept: seq<string>, desired: seq<string>, iCur: nat, iNew: nat,
                      walk: seq<Step>, afterWalk: seq<Step>, afterRemoves: seq<Step>, steps: seq<Step>)
    requires iNew <= iCur <= |kept| && iNew <= |desired|
    requires walk == Tag(kept[..iNew], Skip) + Tag(kept[iNew..iCur], Remove)
    requires afterWalk == front + walk
    requires afterRemoves == afterWalk + Tag(kept[iCur..], Remove)
    requires steps == afterRemoves + Tag(desired[iNew..], Add)
    ensures steps == front + Tag(kept[..iNew], Skip) + Tag(kept[iNew..], Remove) + Tag(desired[iNew..], Add)
  {
    SliceJoin(kept, iNew, iCur);
    TagAppend(kept[iNew..iCur], kept[iCur..], Remove);
    Regroup(front, Tag(kept[..iNew], Skip), Tag(kept[iNew..iCur], Remove), Tag(kept[iCur..], Remove), Tag(desired[iNew..], Add));
  }

  // ---------------------------------------------------------------------------------------
  // Properties of the plan

  /** The five blocks of the plan, read back by action. */
  lemma MigratorBlocks(table: seq<Migration>, migrations: seq<Migration>)
    ensures var p := MigratorPlan(table, migrations);
            var applied, desired := Names(table), Names(migrations);
            var kept, k := Kept(applied, desired), Matched(table, migrations);
      && Of(p, Shrink) == Dropped(applied, desired)
      && Of(p, Skip) == kept[..k]
      && Of(p, Remove) == (if desired == [] then applied else []) + kept[k..]
      && Of(p, Add) == desired[k..]
      && Of(p, Change) == []
  {
    var applied, desired := Names(table), Names(migrations);
    var kept, k := Kept(applied, desired), Matched(table, migrations);
    LayoutOf(if desired == [] then applied else [], Dropped(applied, desired), kept[..k], kept[k..], desired[k..]);
  }

  /** Where the Removes after the common prefix begin, in either plan: after the Shrinks and Skips. */
  function TailStart(table: seq<Migration>, migrations: seq<Migration>): nat {
    var applied, desired := Names(table), Names(migrations);
    |if desired == [] then applied else []| + |Dropped(applied, desired)| + Matched(table, migrations)
  }

  /** Where those Removes end: one position for each kept applied name past the common prefix. */
  function TailEnd(table: seq<Migration>, migrations: seq<Migration>): nat {
    TailStart(table, migrations) + |Kept(Names(table), Names(migrations))| - Matched(table, migrations)
  }

  /**
   * The two reconcilers differ only in the order of the Removes after the common prefix:
   * reversing that block of the plan of src/process.ts gives this plan, whatever the inputs.
   */
  lemma MigratorReversesProcess(table: seq<Migration>, migrations: seq<Migration>)
    ensures TailEnd(table, migrations) <= |Process.ProcessPlan(table, migrations)|
    ensures MigratorPlan(table, migrations) == ReverseBlock(Process.ProcessPlan(table, migrations), TailStart(table, migrations), TailEnd(table, migrations))
  {
    var applied, desired := Names(table), Names(migrations);
    var kept, k := Kept(applied, desired), Matched(table, migrations);
    var front, dropped := if desired == [] then applied else [], Dropped(applied, desired);
    var i := TailStart(table, migrations);
    assert i == |front| + |dropped| + |kept[..k]|;
    assert TailEnd(table, migrations) == i + |kept[k..]|;
    Reversal(Process.ProcessPlan(table, migrations), MigratorPlan(table, migrations),
             front, dropped, kept[..k], Reverse(kept[k..]), kept[k..], desired[k..], i, TailEnd(table, migrations));
  }

  /** And the other way round: reversing the same block of this plan gives that of src/process.ts. */
  lemma ProcessReversesMigrator(table: seq<Migration>, migrations: seq<Migration>)
    ensures TailEnd(table, migrations) <= |MigratorPlan(table, migrations)|
    ensures Process.ProcessPlan(table, migrations) == ReverseBlock(MigratorPlan(table, migrations), TailStart(table, migrations), TailEnd(table, migrations))
  {
    var applied, desired := Names(table), Names(migrations);
    var kept, k := Kept(applied, desired), Matched(table, migrations);
    var front, dropped := if desired == [] then applied else [], Dropped(applied, desired);
    var i := TailStart(table, migrations);
    assert i == |front| + |dropped| + |kept[..k]|;
    assert TailEnd(table, migrations) == i + |kept[k..]|;
    Reversal(MigratorPlan(table, migrations), Process.ProcessPlan(table, migrations),
             front, dropped, kept[..k], kept[k..], Reverse(kept[k..]), desired[k..], i, TailEnd(table, migrations));
  }

  /**
   * Two layouts of the same blocks whose second Remove blocks are reversals of each other:
   * reversing that block, from `i` to `j`, of the first gives the second.
   */
  lemma Reversal(p: seq<Step>, m: seq<Step>, front: seq<string>, dropped: seq<string>, skipped: seq<string>,
                 removed: seq<string>, reversed: seq<string>, added: seq<string>, i: nat, j: nat)
    requires p == Layout(front, dropped, skipped, removed, added)
    requires m == Layout(front, dropped, skipped, reversed, added)
    requires reversed == Reverse(removed)
    requires i == |front| + |dropped| + |skipped| && j == i + |removed|
    ensures j <= |p| && m == ReverseBlock(p, i, j)
  {
    LayoutReverseRemoved(front, dropped, skipped, removed, added, i, j);
  }

  /**
   * For a non-empty desired list that block starts after the Shrinks and the Skips of the common
   * prefix and ends at position `|table|`.
   */
  lemma TailBounds(table: seq<Migration>, migrations: seq<Migration>)
    requires migrations != []
    ensures TailStart(table, migrations) == |Dropped(Names(table), Names(migrations))| + Matched(table, migrations)
    ensures TailEnd(table, migrations) == |table|
  {
    assert Names(migrations) != [];
  }

  /**
   * Counting, for a non-empty desired list: every applied name is shrunk, skipped or removed
   * once, every desired name is skipped or added once, and nothing is changed.
   */
  lemma MigratorCounts(table: seq<Migration>, migrations: seq<Migration>)
    requires migrations != []
    ensures var p := MigratorPlan(table, migrations);
      && |Of(p, Shrink)| + |Of(p, Skip)| + |Of(p, Remove)| == |table|
      && |Of(p, Skip)| + |Of(p, Add)| == |migrations|
      && Of(p, Change) == []
  {
    MigratorBlocks(table, migrations);
    var applied, desired := Names(table), Names(migrations);
    assert |Dropped(applied, desired)| + |Kept(applied, desired)| == |applied|;
  }

  /** The reconciler never emits Change, whatever its inputs. */
  lemma MigratorNeverChanges(table: seq<Migration>, migrations: seq<Migration>)
    ensures forall i :: 0 <= i < |MigratorPlan(table, migrations)| ==> MigratorPlan(table, migrations)[i].action != Change
  {
    MigratorBlocks(table, migrations);
    OfNone(MigratorPlan(table, migrations), Change);
  }

  /**
   * The latch of `differenceFound`: once a Remove has been emitted no Skip follows, and the Adds
   * are the desired names from the position of the last Skip on, so `iNew` never moved again.
   */
  lemma MigratorLatch(table: seq<Migration>, migrations: seq<Migration>)
    ensures var p := MigratorPlan(table, migrations);
      && (forall i, j :: 0 <= i < j < |p| && p[i].action == Remove ==> p[j].action != Skip)
      && |Of(p, Skip)| <= |migrations| && Of(p, Add) == Names(migrations)[|Of(p, Skip)|..]
  {
    var applied, desired := Names(table), Names(migrations);
    var kept, k := Kept(applied, desired), Matched(table, migrations);
    MigratorBlocks(table, migrations);
    assert desired == [] ==> k == 0;
    LayoutLatch(if desired == [] then applied else [], Dropped(applied, desired), kept[..k], kept[k..], desired[k..]);
  }

  /**
   * The shrink rule, as in src/process.ts: with `s` the first applied position of `desired[0]`,
   * the plan opens with Shrink for `applied[..s]` in order, and nothing else is a Shrink.
   */
  lemma MigratorShrinkRule(table: seq<Migration>, migrations: seq<Migration>)
    requires migrations != []
    ensures var p, applied := MigratorPlan(table, migrations), Names(table);
            var s := IndexOf(applied, migrations[0].name);
      && (s >= 0 ==> |p| >= s && p[..s] == Tag(applied[..s], Shrink) && Of(p, Shrink) == applied[..s])
      && (s < 0 ==> Of(p, Shrink) == [])
  {
    MigratorBlocks(table, migrations);
    var applied, desired := Names(table), Names(migrations);
    var kept, k := Kept(applied, desired), Matched(table, migrations);
    assert MigratorPlan(table, migrations) == Layout([], Dropped(applied, desired), kept[..k], kept[k..], desired[k..]);
    LayoutShrinkFirst(Dropped(applied, desired), kept[..k], kept[k..], desired[k..]);
  }

  /**
   * No desired migrations: every applied name is removed twice, both times in applied order,
   * with no Shrink, Skip or Add.
   */
  lemma MigratorEmptyDesired(table: seq<Migration>)
    ensures MigratorPlan(table, []) == Tag(Names(table), Remove) + Tag(Names(table), Remove)
    ensures Of(MigratorPlan(table, []), Remove) == Names(table) + Names(table)
  {
    var applied := Names(table);
    assert Names([]) == [];
    assert Matched(table, []) == 0 && Kept(applied, []) == applied && Dropped(applied, []) == [];
    assert applied[0..] == applied;
    assert MigratorPlan(table, []) == Layout(applied, [], [], applied, []);
    LayoutRemovesOnly(applied, applied);
    LayoutOf(applied, [], [], applied, []);
  }

  /**
   * `migrate` on a store that agrees with the state: every step of the plan reports success, so
   * the transaction commits, and the store then tracks the shrunk names and the desired ones.
   */
  lemma MigratorRunSucceeds(stamp: Stamp, table: seq<Migration>, migrations: seq<Migration>, c: Contents, broken: set<string>)
    requires Consistent(table, migrations, c, broken)
    ensures var p := MigratorPlan(table, migrations);
            var r := RunSteps(stamp, IndexByName(table), IndexByName(migrations), p, c, broken);
      && r.fault.None? && r.notices == Successes(p)
      && r.contents.rows.Keys == NameSet(Dropped(Names(table), Names(migrations))) + NameSet(Names(migrations))
  {
    var kept := Kept(Names(table), Names(migrations));
    ReconciledRun(stamp, table, migrations, kept[Matched(table, migrations)..], c, broken);
  }

  /**
   * No changes: when the desired list has the applied names and do-hashes, position by
   * position, the plan is exactly one Skip per name, in order, as for src/process.ts.
   */
  lemma MigratorNoChanges(table: seq<Migration>, migrations: seq<Migration>)
    requires |table| == |migrations|
    requires forall i :: 0 <= i < |table| ==> table[i].name == migrations[i].name && table[i].doHash == migrations[i].doHash
    ensures MigratorPlan(table, migrations) == Tag(Names(table), Skip)
  {
    Process.ProcessNoChanges(table, migrations);
    MigratorReversesProcess(table, migrations);
    var applied, desired := Names(table), Names(migrations);
    var kept, k := Kept(applied, desired), Matched(table, migrations);
    assert |Process.ProcessPlan(table, migrations)| == |applied|;
    LayoutOf(if desired == [] then applied else [], Dropped(applied, desired), kept[..k], Reverse(kept[k..]), desired[k..]);
    assert |Dropped(applied, desired)| + k + |kept| - k + |desired| - k == |applied|;
    if applied != [] {
      assert desired != [];
    }
    assert k == |kept|;
  }

  /**
   * The latched test reads only names and do-hashes: states that agree with the given ones in
   * those, position by position on both sides, give the same plan whatever their undo scripts.
   */
  lemma MigratorIgnoresUndo(table: seq<Migration>, otherTable: seq<Migration>, migrations: seq<Migration>, other: seq<Migration>)
    requires |otherTable| == |table|
    requires forall i :: 0 <= i < |table| ==> otherTable[i].name == table[i].name && otherTable[i].doHash == table[i].doHash
    requires |other| == |migrations|
    requires forall i :: 0 <= i < |migrations| ==> other[i].name == migrations[i].name && other[i].doHash == migrations[i].doHash
    ensures MigratorPlan(otherTable, other) == MigratorPlan(table, migrations)
  {
    SameMatched(table, otherTable, migrations, other);
  }

  /**
   * No desired migrations, on a store that agrees with the table: `remove` looks each name up
   * in the applied index, which the run leaves as it is, so both Remove blocks run every applied
   * undo script, and each of them runs twice.
   */
  lemma MigratorEmptyRun(stamp: Stamp, table: seq<Migration>, c: Contents, broken: set<string>)
    requires Consistent(table, [], c, broken)
    ensures var t := IndexByName(table);
            var r := RunSteps(stamp, t, IndexByName([]), MigratorPlan(table, []), c, broken);
      && r.fault.None?
      && r.contents.journal == c.journal + RemoveJournal(t, Names(table)) + RemoveJournal(t, Names(table))
      && forall i :: 0 <= i < |table| ==> Ran(table[i].undoSql) in RemoveJournal(t, Names(table))
  {
    MigratorEmptyDesired(table);
    EmptyDesiredRun(stamp, table, Names(table), c, broken);
  }

  // ---------------------------------------------------------------------------------------
  // The applier

  /** `remove`. */
  method RemoveStep(state: State, db: Store, name: string) returns (fault: Option<Fault>)
    modifies db`rows, db`journal
    ensures Reflects(RemoveEffect(IndexByName(state.table), name, old(db.Current()), db.broken), db.Current(), fault)
  {
    var tableByName := state.TableByName();
    if name in tableByName {
      fault := db.Run(tableByName[name].Sql().undoPart);
      if fault.Some? {
        return;
      }
    }
    db.DeleteRow(name);
    fault := None;
  }

  /**
   * `add`: the do script when the migration is known; the INSERT omits `exec_date`, so the
   * column default (the server's `now()`) applies. Its arguments read `migration.do.sql`, which
   * throws when no desired migration has that name.
   */
  method AddStep(state: State, db: Store, name: string) returns (fault: Option<Fault>)
    modifies db`rows, db`journal
    ensures Reflects(AddEffect(ServerNow, IndexByName(state.migrations), name, old(db.Current()), db.broken), db.Current(), fault)
  {
    var migrationsByName := state.MigrationsByName();
    if name in migrationsByName {
      fault := db.Run(migrationsByName[name].Sql().doPart);
      if fault.Some? {
        return;
      }
    }
    if name !in migrationsByName {
      return Some(MissingMigration(name));
    }
    var migration := migrationsByName[name];
    fault := db.InsertRow(name, RowOf(migration, ServerNow));
  }

  /** `change`: the UPDATE sets `exec_date = now()`. */
  method ChangeStep(state: State, db: Store, name: string) returns (fault: Option<Fault>)
    modifies db`rows, db`journal
    ensures Reflects(ChangeEffect(ServerNow, IndexByName(state.table), IndexByName(state.migrations), name, old(db.Current()), db.broken),
                     db.Current(), fault)
  {
    var tableByName := state.TableByName();
    var migrationsByName := state.MigrationsByName();
    if name in tableByName {
      fault := db.Run(tableByName[name].Sql().undoPart);
      if fault.Some? {
        return;
      }
    }
    if name in migrationsByName {
      fault := db.Run(migrationsByName[name].Sql().doPart);
      if fault.Some? {
        return;
      }
    }
    if name !in migrationsByName {
      return Some(MissingMigration(name));
    }
    var migration := migrationsByName[name];
    db.UpdateRow(name, RowOf(migration, ServerNow));
    fault := None;
  }

  /** The `switch` in the loop of `migrate`: Skip and Shrink have no case. */
  method ApplyStep(state: State, db: Store, item: Step) returns (fault: Option<Fault>)
    modifies db`rows, db`journal
    ensures Reflects(StepEffect(ServerNow, IndexByName(state.table), IndexByName(state.migrations), item, old(db.Current()), db.broken),
                     db.Current(), fault)
  {
    match item.action {
      case Remove => fault := RemoveStep(state, db, item.name);
      case Add => fault := AddStep(state, db, item.name);
      case Change => fault := ChangeStep(state, db, item.name);
      case Skip => fault := None;
      case Shrink => fault := None;
    }
  }

  /**
   * The callback `migrate` passes to `transaction`: the actions in order, one notice per attempted
   * action, stopping at the first error.
   */
  method RunActions(state: State, db: Store, actions: seq<Step>) returns (notices: seq<Notice>, fault: Option<Fault>)
    modifies db`rows, db`journal
    ensures var run := RunSteps(ServerNow, IndexByName(state.table), IndexByName(state.migrations), actions, old(db.Current()), db.broken);
      notices == run.notices && fault == run.fault && (fault.None? ==> db.Current() == run.contents)
  {
    ghost var tIdx, mIdx := IndexByName(state.table), IndexByName(state.migrations);
    ghost var run := RunSteps(ServerNow, tIdx, mIdx, actions, db.Current(), db.broken);
    notices, fault := [], None;
    var i := 0;
    while i < |actions| && fault.None?
      invariant 0 <= i <= |actions|
      invariant fault.None? ==> var rest := RunSteps(ServerNow, tIdx, mIdx, actions[i..], db.Current(), db.broken);
                                run == Run(rest.contents, notices + rest.notices, rest.fault)
      invariant fault.Some? ==> run.notices == notices && run.fault == fault
      decreases |actions| - i, if fault.None? then 1 else 0
    {
      var item := actions[i];
      assert actions[i..][0] == item && actions[i..][1..] == actions[i + 1..];
      RunStepsStep(ServerNow, tIdx, mIdx, actions[i..], db.Current(), db.broken);
      var f := ApplyStep(state, db, item);
      if f.Some? {
        notices := notices + [Notice(item.name, item.action, false)];
        fault := f;
      } else {
        notices := notices + [Notice(item.name, item.action, true)];
        i := i + 1;
      }
    }
    assert fault.None? ==> actions[i..] == [];
  }

  /**
   * `migrate`: the caller's actions, or else `inspect`'s, run inside one transaction; committed
   * on success, rolled back to where the store was on failure, with the error rethrown.
   * When `inspect` is called and the state did not load, it rejects before any BEGIN.
   */
  method Migrate(state: State, db: Store, userActions: Option<seq<Step>>) returns (notices: seq<Notice>, fault: Option<Fault>)
    modifies db
    ensures userActions.None? && !state.loaded ==>
      && notices == [] && fault == Some(NotLoaded)
      && db.Current() == old(db.Current()) && db.control == old(db.control) && db.saved == old(db.saved)
    ensures userActions.Some? || state.loaded ==>
            var actions := if userActions.Some? then userActions.value else MigratorPlan(state.table, state.migrations);
            var run := RunSteps(ServerNow, IndexByName(state.table), IndexByName(state.migrations), actions, old(db.Current()), db.broken);
      && notices == run.notices && fault == run.fault
      && db.Current() == (if fault.None? then run.contents else old(db.Current()))
    ensures userActions.Some? || state.loaded ==>
      db.control == old(db.control) + [Control.Begin] + [if fault.None? then Control.Commit else Control.Rollback] + [Control.Release]
    ensures userActions.Some? || state.loaded ==> db.saved == None
  {
    var actions, loadFault := ChooseActions(state, userActions);
    if loadFault.Some? {
      return [], loadFault;
    }
    notices, fault := Transact(state, db, actions);
  }

  /**
   * The actions `migrate` runs: the caller's list when one is given, otherwise the plan of
   * `inspect`, which first awaits `isReady` and rejects when the state did not load.
   */
  method ChooseActions(state: State, userActions: Option<seq<Step>>) returns (actions: seq<Step>, fault: Option<Fault>)
    ensures fault == if userActions.None? && !state.loaded then Some(NotLoaded) else None
    ensures fault.None? ==> actions == if userActions.Some? then userActions.value else MigratorPlan(state.table, state.migrations)
  {
    if userActions.Some? {
      actions, fault := userActions.value, None;
    } else {
      actions, fault := Inspect(state);
    }
  }

  /** The body of `migrate` once the actions are chosen: the action loop inside `transaction`. */
  method Transact(state: State, db: Store, actions: seq<Step>) returns (notices: seq<Notice>, fault: Option<Fault>)
    modifies db
    ensures var run := RunSteps(ServerNow, IndexByName(state.table), IndexByName(state.migrations), actions, old(db.Current()), db.broken);
      && notices == run.notices && fault == run.fault
      && db.Current() == (if fault.None? then run.contents else old(db.Current()))
    ensures db.control == old(db.control) + [Control.Begin] + [if fault.None? then Control.Commit else Control.Rollback] + [Control.Release]
    ensures db.saved == None
  {
    ghost var start, log := db.Current(), db.control;
    db.Begin();
    assert db.Current() == start && db.saved == Some(start);
    notices, fault := RunActions(state, db, actions);
    ghost var reached := db.Current();
    ghost var closing := if fault.None? then Control.Commit else Control.Rollback;
    if fault.None? {
      db.Commit();
    } else {
      db.Rollback();
    }
    assert db.Current() == (if fault.None? then reached else start);
    assert db.control == log + [Control.Begin] + [closing];
    db.Release();
  }
}
