/**
 * src/process.ts: the reconciler the tests exercise (`inspect`, Removes in reverse applied
 * order) and its applier (`migrate` with `remove`, `add` and `change`, dates from the client).
 */
module Process {
  import opened Wrappers
  import opened State
  import opened Actions
  import opened Db
  import opened Apply

  /**
   * What `inspect` returns: Removes for every applied name when nothing is desired, the Shrinks,
   * the Skips of the common prefix, the rest of the applied names as Removes in reverse order,
   * and the rest of the desired names as Adds.
   */
  function ProcessPlan(table: seq<Migration>, migrations: seq<Migration>): (p: seq<Step>)
  {
    var applied, desired := Names(table), Names(migrations);
    var kept := Kept(applied, desired);
    var k := Matched(table, migrations);
    Layout(if desired == [] then applied else [], Dropped(applied, desired), kept[..k], Reverse(kept[k..]), desired[k..])
  }

  /** The `for` loop that `unshift`s onto an empty array: the names come out reversed. */
  method UnshiftTagged(names: seq<string>, a: Action) returns (out: seq<Step>)
    ensures out == Tag(Reverse(names), a)
  {
    out := [];
    for i := 0 to |names|
      invariant out == Tag(Reverse(names[..i]), a)
    {
      assert names[..i + 1] == names[..i] + [names[i]];
      UnshiftStep(names[..i], names[i], a, out);
      out := [Step(names[i], a)] + out;
    }
    assert names[..|names|] == names;
  }

  /** Putting the next name's step in front extends the reversed tagging by that name. */
  lemma UnshiftStep(done: seq<string>, x: string, a: Action, out: seq<Step>)
    requires out == Tag(Reverse(done), a)
    ensures [Step(x, a)] + out == Tag(Reverse(done + [x]), a)
  {
    ReverseSnoc(done, x);
    TagAppend([x], Reverse(done), a);
  }

  /**
   * The `while` loop of `inspect`: Skip while the applied and desired names at the same
   * position agree in name and do-hash; the first disagreement ends it.
   */
  method SkipWalk(table: seq<string>, migrations: seq<string>,
                  tableByName: map<string, Migration>, migrationsByName: map<string, Migration>)
    returns (skipActions: seq<Step>, diffIndex: nat)
    ensures diffIndex == PrefixLength(table, migrations, tableByName, migrationsByName)
    ensures skipActions == Tag(table[..diffIndex], Skip)
  {
    skipActions, diffIndex := [], 0;
    while diffIndex < |table| && diffIndex < |migrations|
      invariant diffIndex <= |table| && diffIndex <= |migrations|
      invariant forall i :: 0 <= i < diffIndex ==> Agree(tableByName, migrationsByName, table[i], migrations[i])
      invariant skipActions == Tag(table[..diffIndex], Skip)
      decreases |table| - diffIndex
    {
      if table[diffIndex] == migrations[diffIndex]
         && DoHashOf(tableByName, table[diffIndex]) == DoHashOf(migrationsByName, migrations[diffIndex])
      {
        assert table[..diffIndex + 1] == table[..diffIndex] + [table[diffIndex]];
        TagSnoc(table[..diffIndex], table[diffIndex], Skip);
        skipActions := skipActions + [Step(table[diffIndex], Skip)];
        diffIndex := diffIndex + 1;
      } else {
        break;
      }
    }
    PrefixExact(table, migrations, tableByName, migrationsByName, diffIndex);
  }

  /** `inspect`. The lockstep walk calls the index getters, which compute the same value each time. */
  method Inspect(state: State) returns (steps: seq<Step>, fault: Option<Fault>)
    ensures fault == if state.loaded then None else Some(NotLoaded)
    ensures steps == if state.loaded then ProcessPlan(state.table, state.migrations) else []
  {
    if !state.loaded {
      return [], Some(NotLoaded);
    }
    fault := None;
    var table := Names(state.table);
    var migrations := Names(state.migrations);
    ghost var applied := table;

    var front: seq<Step> := [];
    if |migrations| == 0 {
      front := PushTagged(front, table, Remove);
    }

    var shrinkIndex := ShrinkIndex(table, migrations);
    if shrinkIndex >= 0 {
      var removed := table[..shrinkIndex];
      table := table[shrinkIndex..];
      front := PushTagged(front, removed, Shrink);
    } else {
      assert Tag([], Shrink) == [];
    }

    var tableByName := state.TableByName();
    var migrationsByName := state.MigrationsByName();
    var skipActions, diffIndex := SkipWalk(table, migrations, tableByName, migrationsByName);
    assert front == Tag(if Names(state.migrations) == [] then applied else [], Remove) + Tag(Dropped(applied, migrations), Shrink);
    assert table == Kept(applied, migrations);

    var removeActions := UnshiftTagged(table[diffIndex..], Remove);
    var addActions := PushTagged([], migrations[diffIndex..], Add);
    InspectAssembles(state.table, state.migrations, table, diffIndex, front, skipActions, removeActions, addActions);
    steps := front + skipActions + removeActions + addActions;
  }

  /** The four arrays `inspect` concatenates are the blocks of the plan. */
  lemma InspectAssembles(table: seq<Migration>, migrations: seq<Migration>, kept: seq<string>, d: nat,
                         front: seq<Step>, skipActions: seq<Step>, removeActions: seq<Step>, addActions: seq<Step>)
    requires kept == Kept(Names(table), Names(migrations))
    requires d <= |kept| && d <= |migrations| && d == PrefixLength(kept, Names(migrations), IndexByName(table), IndexByName(migrations))
    requires front == Tag(if Names(migrations) == [] then Names(table) else [], Remove) + Tag(Dropped(Names(table), Names(migrations)), Shrink)
    requires skipActions == Tag(kept[..d], Skip)
    requires removeActions == Tag(Reverse(kept[d..]), Remove)
    requires addActions == [] + Tag(Names(migrations)[d..], Add)
    ensures front + skipActions + removeActions + addActions == ProcessPlan(table, migrations)
  {
    assert [] + Tag(Names(migrations)[d..], Add) == Tag(Names(migrations)[d..], Add);
  }

  // ---------------------------------------------------------------------------------------
  // Properties of the plan

  /** The five blocks of the plan, read back by action. */
  lemma {:induction false} ProcessBlocks(table: seq<Migration>, migrations: seq<Migration>)
    ensures var p := ProcessPlan(table, migrations);
            var applied, desired := Names(table), Names(migrations);
            var kept, k := Kept(applied, desired), Matched(table, migrations);
      && Of(p, Shrink) == Dropped(applied, desired)
      && Of(p, Skip) == kept[..k]
      && Of(p, Remove) == (if desired == [] then applied else []) + Reverse(kept[k..])
      && Of(p, Add) == desired[k..]
      && Of(p, Change) == []
  {
    var applied, desired := Names(table), Names(migrations);
    var kept, k := Kept(applied, desired), Matched(table, migrations);
    LayoutOf(if desired == [] then applied else [], Dropped(applied, desired), kept[..k], Reverse(kept[k..]), desired[k..]);
  }

  /**
   * Counting, for a non-empty desired list: every applied name is shrunk, skipped or removed
   * once, every desired name is skipped or added once, and nothing is changed.
   */
  lemma ProcessCounts(table: seq<Migration>, migrations: seq<Migration>)
    requires migrations != []
    ensures var p := ProcessPlan(table, migrations);
      && |Of(p, Shrink)| + |Of(p, Skip)| + |Of(p, Remove)| == |table|
      && |Of(p, Skip)| + |Of(p, Add)| == |migrations|
      && Of(p, Change) == []
  {
    ProcessBlocks(table, migrations);
    var applied, desired := Names(table), Names(migrations);
    assert |Dropped(applied, desired)| + |Kept(applied, desired)| == |applied|;
  }

  /**
   * For a non-empty desired list the Removes form one block: it starts after the Shrinks and
   * Skips, at `|Dropped| + Matched`, and ends at position `|table|`.
   */
  lemma ProcessRemoveBlock(table: seq<Migration>, migrations: seq<Migration>)
    requires migrations != []
    ensures var p := ProcessPlan(table, migrations);
            var i := |Dropped(Names(table), Names(migrations))| + Matched(table, migrations);
      && i == |Of(p, Shrink)| + |Of(p, Skip)| && |table| - i == |Of(p, Remove)|
      && i <= |table| <= |p| && p[i..|table|] == Tag(Of(p, Remove), Remove)
  {
    ProcessBlocks(table, migrations);
    var applied, desired := Names(table), Names(migrations);
    var kept, k := Kept(applied, desired), Matched(table, migrations);
    var dropped := Dropped(applied, desired);
    assert desired != [];
    var x := Tag([], Remove) + Tag(dropped, Shrink) + Tag(kept[..k], Skip);
    var m, y := Tag(Reverse(kept[k..]), Remove), Tag(desired[k..], Add);
    assert ProcessPlan(table, migrations) == x + m + y;
    assert |x| == |dropped| + k && |m| == |kept| - k;
    assert |x| + |m| == |table| by {
      assert |kept| + |dropped| == |applied|;
    }
    assert (x + m + y)[|x|..|x| + |m|] == m;
    assert Of(ProcessPlan(table, migrations), Remove) == Reverse(kept[k..]);
  }

  /** The reconciler never emits Change, whatever its inputs. */
  lemma ProcessNeverChanges(table: seq<Migration>, migrations: seq<Migration>)
    ensures forall i :: 0 <= i < |ProcessPlan(table, migrations)| ==> ProcessPlan(table, migrations)[i].action != Change
  {
    ProcessBlocks(table, migrations);
    OfNone(ProcessPlan(table, migrations), Change);
  }

  /**
   * The shrink rule: with `s` the first applied position of `desired[0]`, the plan opens with
   * Shrink for `applied[..s]` in order, and nothing else is a Shrink; with `desired[0]` absent
   * there is no Shrink at all.
   */
  lemma ProcessShrinkRule(table: seq<Migration>, migrations: seq<Migration>)
    requires migrations != []
    ensures var p, applied := ProcessPlan(table, migrations), Names(table);
            var s := IndexOf(applied, migrations[0].name);
      && (s >= 0 ==> |p| >= s && p[..s] == Tag(applied[..s], Shrink) && Of(p, Shrink) == applied[..s])
      && (s < 0 ==> Of(p, Shrink) == [])
  {
    ProcessBlocks(table, migrations);
    var applied, desired := Names(table), Names(migrations);
    var kept, k := Kept(applied, desired), Matched(table, migrations);
    assert ProcessPlan(table, migrations) == Layout([], Dropped(applied, desired), kept[..k], Reverse(kept[k..]), desired[k..]);
    LayoutShrinkFirst(Dropped(applied, desired), kept[..k], Reverse(kept[k..]), desired[k..]);
  }

  /**
   * The skip pass: the Skip names are a common prefix of the post-shrink applied names and the
   * desired names, agreeing pairwise in name and do-hash, and the walk stopped at the first
   * position where they disagree (or one list ran out).
   */
  lemma ProcessSkipPrefix(table: seq<Migration>, migrations: seq<Migration>)
    ensures var p := ProcessPlan(table, migrations);
            var kept, desired := Kept(Names(table), Names(migrations)), Names(migrations);
            var skipped := Of(p, Skip);
            var tIdx, mIdx := IndexByName(table), IndexByName(migrations);
      && skipped <= kept && skipped <= desired
      && (forall i :: 0 <= i < |skipped| ==> Agree(tIdx, mIdx, kept[i], desired[i]))
      && (|skipped| < |kept| && |skipped| < |desired| ==> !Agree(tIdx, mIdx, kept[|skipped|], desired[|skipped|]))
  {
    ProcessBlocks(table, migrations);
    var kept, desired := Kept(Names(table), Names(migrations)), Names(migrations);
    PrefixCommon(kept, desired, IndexByName(table), IndexByName(migrations));
  }

  /**
   * The undo scripts and undo hashes are never consulted, on either side: a table and a desired
   * list that agree with the given ones in names and do-hashes, position by position, give the
   * same plan.
   */
  lemma ProcessIgnoresUndo(table: seq<Migration>, otherTable: seq<Migration>, migrations: seq<Migration>, other: seq<Migration>)
    requires |otherTable| == |table|
    requires forall i :: 0 <= i < |table| ==> otherTable[i].name == table[i].name && otherTable[i].doHash == table[i].doHash
    requires |other| == |migrations|
    requires forall i :: 0 <= i < |migrations| ==> other[i].name == migrations[i].name && other[i].doHash == migrations[i].doHash
    ensures ProcessPlan(otherTable, other) == ProcessPlan(table, migrations)
  {
    SameMatched(table, otherTable, migrations, other);
  }

  /**
   * No changes: when the desired list has the applied names and do-hashes, position by
   * position, the plan is exactly one Skip per name, in order.
   */
  lemma ProcessNoChanges(table: seq<Migration>, migrations: seq<Migration>)
    requires |table| == |migrations|
    requires forall i :: 0 <= i < |table| ==> table[i].name == migrations[i].name && table[i].doHash == migrations[i].doHash
    ensures ProcessPlan(table, migrations) == Tag(Names(table), Skip)
  {
    var applied, desired := Names(table), Names(migrations);
    assert applied == desired;
    var tIdx, mIdx := IndexByName(table), IndexByName(migrations);
    forall i | 0 <= i < |applied| ensures Agree(tIdx, mIdx, applied[i], desired[i]) {
      SameDoHashes(table, migrations, applied[i]);
    }
    assert Dropped(applied, desired) == [] && Kept(applied, desired) == applied;
    PrefixFull(applied, desired, tIdx, mIdx);
    assert applied[..|applied|] == applied && applied[|applied|..] == [] && desired[|applied|..] == [];
    assert ProcessPlan(table, migrations) == Layout([], [], applied, [], []);
    assert Tag([], Remove) == [] && Tag([], Shrink) == [] && Tag([], Add) == [];
    assert Layout([], [], applied, [], []) == Tag(applied, Skip);
  }

  /**
   * No desired migrations: every applied name is removed twice, first in applied order and then
   * in reverse, with no Shrink, Skip or Add (neither branch of `inspect` returns early).
   */
  lemma ProcessEmptyDesired(table: seq<Migration>)
    ensures ProcessPlan(table, []) == Tag(Names(table), Remove) + Tag(Reverse(Names(table)), Remove)
    ensures Of(ProcessPlan(table, []), Remove) == Names(table) + Reverse(Names(table))
  {
    var applied := Names(table);
    assert Names([]) == [];
    assert Matched(table, []) == 0 && Kept(applied, []) == applied && Dropped(applied, []) == [];
    assert ProcessPlan(table, []) == Layout(applied, [], [], Reverse(applied), []);
    LayoutRemovesOnly(applied, Reverse(applied));
    LayoutOf(applied, [], [], Reverse(applied), []);
  }

  /**
   * `migrate` on a store that agrees with the state: every step of the plan reports success, so
   * the transaction commits, and the store then tracks the shrunk names and the desired ones.
   */
  lemma ProcessRunSucceeds(stamp: Stamp, table: seq<Migration>, migrations: seq<Migration>, c: Contents, broken: set<string>)
    requires Consistent(table, migrations, c, broken)
    ensures var p := ProcessPlan(table, migrations);
            var r := RunSteps(stamp, IndexByName(table), IndexByName(migrations), p, c, broken);
      && r.fault.None? && r.notices == Successes(p)
      && r.contents.rows.Keys == NameSet(Dropped(Names(table), Names(migrations))) + NameSet(Names(migrations))
  {
    var kept := Kept(Names(table), Names(migrations));
    var k := Matched(table, migrations);
    NameSetReverse(kept[k..]);
    ReconciledRun(stamp, table, migrations, Reverse(kept[k..]), c, broken);
  }

  /**
   * No desired migrations, on a store that agrees with the table: `remove` looks each name up
   * in the applied index, which the run leaves as it is, so both Remove blocks run every applied
   * undo script, and each of them runs twice (in applied order, then in reverse).
   */
  lemma ProcessEmptyRun(stamp: Stamp, table: seq<Migration>, c: Contents, broken: set<string>)
    requires Consistent(table, [], c, broken)
    ensures var t := IndexByName(table);
            var r := RunSteps(stamp, t, IndexByName([]), ProcessPlan(table, []), c, broken);
      && r.fault.None?
      && r.contents.journal == c.journal + RemoveJournal(t, Names(table)) + RemoveJournal(t, Reverse(Names(table)))
      && (forall i :: 0 <= i < |table| ==> Ran(table[i].undoSql) in RemoveJournal(t, Names(table)))
      && (forall i :: 0 <= i < |table| ==> Ran(table[i].undoSql) in RemoveJournal(t, Reverse(Names(table))))
  {
    ProcessEmptyDesired(table);
    NameSetReverse(Names(table));
    EmptyDesiredRun(stamp, table, Reverse(Names(table)), c, broken);
  }

  // ---------------------------------------------------------------------------------------
  // The applier

  /** `remove`. */
  method RemoveStep(state: State, db: Store, name: string) returns (fault: Option<Fault>)
    modifies db`rows, db`journal
    ensures Reflects(RemoveEffect(IndexByName(state.table), name, old(db.Current()), db.broken), db.Current(), fault)
  {
    var tableByName := state.TableByName();
    if name in tableByName {
      fault := db.Run(tableByName[name].Sql().undoPart);
      if fault.Some? {
        return;
      }
    }
    db.DeleteRow(name);
    fault := None;
  }

  /** `add`: the INSERT passes `new Date()` as `exec_date`. */
  method AddStep(state: State, db: Store, name: string) returns (fault: Option<Fault>)
    modifies db`rows, db`journal
    ensures Reflects(AddEffect(ClientClock, IndexByName(state.migrations), name, old(db.Current()), db.broken), db.Current(), fault)
  {
    var migrationsByName := state.MigrationsByName();
    if name !in migrationsByName {
      return Some(MissingMigration(name));
    }
    var migration := migrationsByName[name];
    fault := db.Run(migration.Sql().doPart);
    if fault.Some? {
      return;
    }
    fault := db.InsertRow(name, RowOf(migration, ClientClock));
  }

  /** `change`: the UPDATE sets `exec_date` to `new Date()`. */
  method ChangeStep(state: State, db: Store, name: string) returns (fault: Option<Fault>)
    modifies db`rows, db`journal
    ensures Reflects(ChangeEffect(ClientClock, IndexByName(state.table), IndexByName(state.migrations), name, old(db.Current()), db.broken),
                     db.Current(), fault)
  {
    var tableByName := state.TableByName();
    var migrationsByName := state.MigrationsByName();
    if name in tableByName {
      fault := db.Run(tableByName[name].Sql().undoPart);
      if fault.Some? {
        return;
      }
    }
    if name !in migrationsByName {
      return Some(MissingMigration(name));
    }
    var migration := migrationsByName[name];
    fault := db.Run(migration.Sql().doPart);
    if fault.Some? {
      return;
    }
    db.UpdateRow(name, RowOf(migration, ClientClock));
  }

  /** The `switch` in the loop of `migrate`: Skip and Shrink have no case. */
  method ApplyStep(state: State, db: Store, item: Step) returns (fault: Option<Fault>)
    modifies db`rows, db`journal
    ensures Reflects(StepEffect(ClientClock, IndexByName(state.table), IndexByName(state.migrations), item, old(db.Current()), db.broken),
                     db.Current(), fault)
  {
    match item.action {
      case Remove => fault := RemoveStep(state, db, item.name);
      case Add => fault := AddStep(state, db, item.name);
      case Change => fault := ChangeStep(state, db, item.name);
      case Skip => fault := None;
      case Shrink => fault := None;
    }
  }

  /**
   * The callback `migrate` passes to `transaction`: the actions in order, one notice per attempted
   * action, stopping at the first error. The notices and the error are the run's, and the store
   * holds the contents the run reached (on failure, those before the failing action).
   */
  method RunActions(state: State, db: Store, actions: seq<Step>) returns (notices: seq<Notice>, fault: Option<Fault>)
    modifies db`rows, db`journal
    ensures var run := RunSteps(ClientClock, IndexByName(state.table), IndexByName(state.migrations), actions, old(db.Current()), db.broken);
      notices == run.notices && fault == run.fault && (fault.None? ==> db.Current() == run.contents)
  {
    ghost var tIdx, mIdx := IndexByName(state.table), IndexByName(state.migrations);
    ghost var run := RunSteps(ClientClock, tIdx, mIdx, actions, db.Current(), db.broken);
    notices, fault := [], None;
    var i := 0;
    while i < |actions| && fault.None?
      invariant 0 <= i <= |actions|
      invariant fault.None? ==> var rest := RunSteps(ClientClock, tIdx, mIdx, actions[i..], db.Current(), db.broken);
                                run == Run(rest.contents, notices + rest.notices, rest.fault)
      invariant fault.Some? ==> run.notices == notices && run.fault == fault
      decreases |actions| - i, if fault.None? then 1 else 0
    {
      var item := actions[i];
      assert actions[i..][0] == item && actions[i..][1..] == actions[i + 1..];
      RunStepsStep(ClientClock, tIdx, mIdx, actions[i..], db.Current(), db.broken);
      var f := ApplyStep(state, db, item);
      if f.Some? {
        notices := notices + [Notice(item.name, item.action, false)];
        fault := f;
      } else {
        notices := notices + [Notice(item.name, item.action, true)];
        i := i + 1;
      }
    }
    assert fault.None? ==> actions[i..] == [];
  }

  /**
   * `migrate`: the caller's actions, or else `inspect`'s, run inside one transaction. On success
   * the store holds what the run did and is committed; on failure it is rolled back to where it
   * was, and the error is rethrown.
   * When `inspect` is called and the state did not load, it rejects before any BEGIN.
   */
  method Migrate(state: State, db: Store, userActions: Option<seq<Step>>) returns (notices: seq<Notice>, fault: Option<Fault>)
    modifies db
    ensures userActions.None? && !state.loaded ==>
      && notices == [] && fault == Some(NotLoaded)
      && db.Current() == old(db.Current()) && db.control == old(db.control) && db.saved == old(db.saved)
    ensures userActions.Some? || state.loaded ==>
            var actions := if userActions.Some? then userActions.value else ProcessPlan(state.table, state.migrations);
            var run := RunSteps(ClientClock, IndexByName(state.table), IndexByName(state.migrations), actions, old(db.Current()), db.broken);
      && notices == run.notices && fault == run.fault
      && db.Current() == (if fault.None? then run.contents else old(db.Current()))
    ensures userActions.Some? || state.loaded ==>
      db.control == old(db.control) + [Control.Begin] + [if fault.None? then Control.Commit else Control.Rollback] + [Control.Release]
    ensures userActions.Some? || state.loaded ==> db.saved == None
  {
    var actions, loadFault := ChooseActions(state, userActions);
    if loadFault.Some? {
      return [], loadFault;
    }
    notices, fault := Transact(state, db, actions);
  }

  /**
   * The actions `migrate` runs: the caller's list when one is given, otherwise the plan of
   * `inspect`, which first awaits `isReady` and rejects when the state did not load.
   */
  method ChooseActions(state: State, userActions: Option<seq<Step>>) returns (actions: seq<Step>, fault: Option<Fault>)
    ensures fault == if userActions.None? && !state.loaded then Some(NotLoaded) else None
    ensures fault.None? ==> actions == if userActions.Some? then userActions.value else ProcessPlan(state.table, state.migrations)
  {
    if userActions.Some? {
      actions, fault := userActions.value, None;
    } else {
      actions, fault := Inspect(state);
    }
  }

  /** The body of `migrate` once the actions are chosen: the action loop inside `transaction`. */
  method Transact(state: State, db: Store, actions: seq<Step>) returns (notices: seq<Notice>, fault: Option<Fault>)
    modifies db
    ensures var run := RunSteps(ClientClock, IndexByName(state.table), IndexByName(state.migrations), actions, old(db.Current()), db.broken);
      && notices == run.notices && fault == run.fault
      && db.Current() == (if fault.None? then run.contents else old(db.Current()))
    ensures db.control == old(db.control) + [Control.Begin] + [if fault.None? then Control.Commit else Control.Rollback] + [Control.Release]
    ensures db.saved == None
  {
    ghost var start, log := db.Current(), db.control;
    db.Begin();
    assert db.Current() == start && db.saved == Some(start);
    notices, fault := RunActions(state, db, actions);
    ghost var reached := db.Current();
    ghost var closing := if fault.None? then Control.Commit else Control.Rollback;
    if fault.None? {
      db.Commit();
    } else {
      db.Rollback();
    }
    assert db.Current() == (if fault.None? then reached else start);
    assert db.control == log + [Control.Begin] + [closing];
    db.Release();
  }
}
