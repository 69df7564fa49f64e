/**
 * What applying an action list means, as functions over the store's contents: the effects of
 * `remove`, `add` and `change` (identical in src/process.ts and src/migrator.ts except for where
 * the execution date comes from) and the `migrate` loop that reports each step and stops at the
 * first failure. The methods of modules Process and Migrator are proved against these.
 */
module Apply {
  import opened Wrappers
  import opened State
  import opened Actions
  import opened Db

  /** The row INSERT and UPDATE write for a migration: both scripts, both hashes, a date. */
  function RowOf(m: Migration, stamp: Stamp): Row {
    Row(m.Do().sql, m.Do().hash, m.Undo().sql, m.Undo().hash, stamp)
  }

  /** `remove`: the applied undo script when the record is known, then always the DELETE. */
  function RemoveEffect(tableByName: map<string, Migration>, name: string, c: Contents, broken: set<string>): (r: Result<Contents, Fault>)
    ensures r.Success? ==> r.value.rows.Keys == c.rows.Keys - {name}
    ensures r.Failure? ==> name in tableByName && r.error == ScriptFailed(tableByName[name].undoSql)
  {
    var c1 :- if name in tableByName then Exec(c, broken, tableByName[name].Sql().undoPart) else Success(c);
    Success(Delete(c1, name))
  }

  /**
   * `add`: the do script, then the INSERT. With no desired migration of that name the INSERT's
   * arguments read a property of `undefined`, which throws before any statement is sent.
   */
  function AddEffect(stamp: Stamp, migrationsByName: map<string, Migration>, name: string, c: Contents, broken: set<string>): (r: Result<Contents, Fault>)
    ensures r.Success? ==> name in migrationsByName && name !in c.rows && r.value.rows.Keys == c.rows.Keys + {name}
    ensures name !in migrationsByName ==> r == Failure(MissingMigration(name))
  {
    if name !in migrationsByName then Failure(MissingMigration(name))
    else
      var m := migrationsByName[name];
      var c1 :- Exec(c, broken, m.Sql().doPart);
      Insert(c1, name, RowOf(m, stamp))
  }

  /** `change`: the applied undo script, the desired do script, then the UPDATE in place. */
  function ChangeEffect(stamp: Stamp, tableByName: map<string, Migration>, migrationsByName: map<string, Migration>,
                        name: string, c: Contents, broken: set<string>): (r: Result<Contents, Fault>)
    ensures r.Success? ==> name in migrationsByName && r.value.rows.Keys == c.rows.Keys
  {
    var c1 :- if name in tableByName then Exec(c, broken, tableByName[name].Sql().undoPart) else Success(c);
    if name !in migrationsByName then Failure(MissingMigration(name))
    else
      var m := migrationsByName[name];
      var c2 :- Exec(c1, broken, m.Sql().doPart);
      Success(Update(c2, name, RowOf(m, stamp)))
  }

  /** The `switch` of `migrate`: Skip and Shrink have no case and touch nothing. */
  function StepEffect(stamp: Stamp, tableByName: map<string, Migration>, migrationsByName: map<string, Migration>,
                      step: Step, c: Contents, broken: set<string>): Result<Contents, Fault> {
    match step.action
    case Remove => RemoveEffect(tableByName, step.name, c, broken)
    case Add => AddEffect(stamp, migrationsByName, step.name, c, broken)
    case Change => ChangeEffect(stamp, tableByName, migrationsByName, step.name, c, broken)
    case Skip => Success(c)
    case Shrink => Success(c)
  }

  /** The outcome of the action loop: the contents it reached, the notices, the error thrown. */
  datatype Run = Run(contents: Contents, notices: seq<Notice>, fault: Option<Fault>)

  /**
   * The `for` loop of `migrate`: each step's effects, then a success notice; on the first failure
   * a failure notice, and the error ends the loop.
   */
  function RunSteps(stamp: Stamp, tableByName: map<string, Migration>, migrationsByName: map<string, Migration>,
                    steps: seq<Step>, c: Contents, broken: set<string>): (r: Run)
    decreases |steps|
  {
    if steps == [] then Run(c, [], None)
    else match StepEffect(stamp, tableByName, migrationsByName, steps[0], c, broken)
      case Failure(f) => Run(c, [Notice(steps[0].name, steps[0].action, false)], Some(f))
      case Success(c1) =>
        var rest := RunSteps(stamp, tableByName, migrationsByName, steps[1..], c1, broken);
        Run(rest.contents, [Notice(steps[0].name, steps[0].action, true)] + rest.notices, rest.fault)
  }

  /** One step of the loop: the run of a non-empty list, by the outcome of its first step. */
  lemma RunStepsStep(stamp: Stamp, tableByName: map<string, Migration>, migrationsByName: map<string, Migration>,
                     steps: seq<Step>, c: Contents, broken: set<string>)
    requires steps != []
    ensures var r := StepEffect(stamp, tableByName, migrationsByName, steps[0], c, broken);
            var run := RunSteps(stamp, tableByName, migrationsByName, steps, c, broken);
      && (r.Failure? ==> run == Run(c, [Notice(steps[0].name, steps[0].action, false)], Some(r.error)))
      && (r.Success? ==>
            var rest := RunSteps(stamp, tableByName, migrationsByName, steps[1..], r.value, broken);
            run == Run(rest.contents, [Notice(steps[0].name, steps[0].action, true)] + rest.notices, rest.fault))
  {
  }

  /** A method's fault and new contents agree with the effect that specifies it. */
  predicate Reflects(r: Result<Contents, Fault>, after: Contents, fault: Option<Fault>) {
    (r.Success? ==> fault.None? && after == r.value) && (r.Failure? ==> fault == Some(r.error))
  }

  // ---------------------------------------------------------------------------------------
  // Properties of the effects

  /**
   * A remove fails only when the applied undo script fails. Afterwards the row is gone, every
   * other row is as it was, and the undo script (if the record is known) ran before the DELETE.
   */
  lemma RemoveMeaning(tableByName: map<string, Migration>, name: string, c: Contents, broken: set<string>)
    ensures var r := RemoveEffect(tableByName, name, c, broken);
      && (r.Success? <==> (name !in tableByName || tableByName[name].undoSql !in broken))
      && (r.Failure? ==> r.error == ScriptFailed(tableByName[name].undoSql))
      && (r.Success? ==>
            && r.value.rows.Keys == c.rows.Keys - {name}
            && (forall n :: n in r.value.rows ==> r.value.rows[n] == c.rows[n])
            && r.value.journal == c.journal + (if name in tableByName then [Ran(tableByName[name].undoSql)] else []) + [Deleted(name)])
  {
  }

  /**
   * An add fails exactly when the migration is unknown, its do script fails, or its name is
   * already tracked; on success the new row carries the migration's scripts and hashes.
   */
  lemma AddMeaning(stamp: Stamp, migrationsByName: map<string, Migration>, name: string, c: Contents, broken: set<string>)
    ensures var r := AddEffect(stamp, migrationsByName, name, c, broken);
      && (r.Success? <==> name in migrationsByName && migrationsByName[name].doSql !in broken && name !in c.rows)
      && (name !in migrationsByName ==> r == Failure(MissingMigration(name)))
      && (r.Success? ==>
            var m := migrationsByName[name];
            && r.value.rows == c.rows[name := Row(m.doSql, m.doHash, m.undoSql, m.undoHash, stamp)]
            && r.value.journal == c.journal + [Ran(m.doSql), Inserted(name, RowOf(m, stamp))])
  {
  }

  /**
   * A change fails exactly when the known undo script fails, the migration is unknown or its do
   * script fails; on success only the row of that name changes, and only if it exists.
   */
  lemma ChangeMeaning(stamp: Stamp, tableByName: map<string, Migration>, migrationsByName: map<string, Migration>,
                      name: string, c: Contents, broken: set<string>)
    ensures var r := ChangeEffect(stamp, tableByName, migrationsByName, name, c, broken);
      && (r.Success? <==> (name !in tableByName || tableByName[name].undoSql !in broken)
                          && name in migrationsByName && migrationsByName[name].doSql !in broken)
      && (r.Success? ==>
            var row := RowOf(migrationsByName[name], stamp);
            && r.value.rows == (if name in c.rows then c.rows[name := row] else c.rows)
            && r.value.journal == c.journal + (if name in tableByName then [Ran(tableByName[name].undoSql)] else [])
                                  + [Ran(migrationsByName[name].doSql), Updated(name, row)])
  {
  }

  // ---------------------------------------------------------------------------------------
  // Properties of the run

  /**
   * The notify protocol: one notice per attempted step, in list order, carrying that step's name
   * and action; every notice but the last reports success; the run ends with no error exactly
   * when every step succeeded, and with an error exactly when the last notice reports failure.
   */
  lemma {:induction false} NotifyTrace(stamp: Stamp, tableByName: map<string, Migration>, migrationsByName: map<string, Migration>,
                                       steps: seq<Step>, c: Contents, broken: set<string>)
    ensures var r := RunSteps(stamp, tableByName, migrationsByName, steps, c, broken);
      && |r.notices| <= |steps|
      && (forall i :: 0 <= i < |r.notices| ==> r.notices[i].name == steps[i].name && r.notices[i].action == steps[i].action)
      && (forall i :: 0 <= i < |r.notices| - 1 ==> r.notices[i].success)
      && (r.fault.None? <==> |r.notices| == |steps| && forall i :: 0 <= i < |steps| ==> r.notices[i].success)
      && (r.fault.Some? <==> |r.notices| > 0 && !r.notices[|r.notices| - 1].success)
    decreases |steps|
  {
    if steps != [] {
      match StepEffect(stamp, tableByName, migrationsByName, steps[0], c, broken)
      case Failure(f) =>
      case Success(c1) =>
        NotifyTrace(stamp, tableByName, migrationsByName, steps[1..], c1, broken);
    }
  }

  /** The failing step is the first step whose effect fails, and none after it is attempted. */
  lemma {:induction false} FirstFailureStops(stamp: Stamp, tableByName: map<string, Migration>, migrationsByName: map<string, Migration>,
                                             steps: seq<Step>, c: Contents, broken: set<string>, k: nat)
    requires k < |steps|
    requires StepEffect(stamp, tableByName, migrationsByName, steps[k], RunSteps(stamp, tableByName, migrationsByName, steps[..k], c, broken).contents, broken).Failure?
    requires RunSteps(stamp, tableByName, migrationsByName, steps[..k], c, broken).fault.None?
    ensures var r := RunSteps(stamp, tableByName, migrationsByName, steps, c, broken);
      && |r.notices| == k + 1
      && r.fault == Some(StepEffect(stamp, tableByName, migrationsByName, steps[k], RunSteps(stamp, tableByName, migrationsByName, steps[..k], c, broken).contents, broken).error)
    decreases k
  {
    if k == 0 {
    } else {
      var e := StepEffect(stamp, tableByName, migrationsByName, steps[0], c, broken);
      assert steps[..k][0] == steps[0];
      assert steps[..k][1..] == steps[1..][..k - 1];
      match e
      case Failure(f) =>
      case Success(c1) =>
        FirstFailureStops(stamp, tableByName, migrationsByName, steps[1..], c1, broken, k - 1);
    }
  }

  /** The notices of a run in which every step succeeds: one success per step, in order. */
  function Successes(steps: seq<Step>): (notices: seq<Notice>)
    ensures |notices| == |steps|
    ensures forall i :: 0 <= i < |steps| ==> notices[i] == Notice(steps[i].name, steps[i].action, true)
  {
    seq(|steps|, i requires 0 <= i < |steps| => Notice(steps[i].name, steps[i].action, true))
  }

  /** A list of Skip and Shrink steps changes nothing and reports success for each step. */
  lemma {:induction false} PassiveRun(stamp: Stamp, tableByName: map<string, Migration>, migrationsByName: map<string, Migration>,
                                      steps: seq<Step>, c: Contents, broken: set<string>)
    requires forall i :: 0 <= i < |steps| ==> steps[i].action in {Skip, Shrink}
    ensures var r := RunSteps(stamp, tableByName, migrationsByName, steps, c, broken);
      r.contents == c && r.fault.None? && r.notices == Successes(steps)
    decreases |steps|
  {
    if steps != [] {
      PassiveRun(stamp, tableByName, migrationsByName, steps[1..], c, broken);
      assert Successes(steps) == [Notice(steps[0].name, steps[0].action, true)] + Successes(steps[1..]);
    }
  }

  /** Running `x + y` is running `x` and then, unless `x` failed, `y` from where `x` left the store. */
  lemma {:induction false} RunAppend(stamp: Stamp, tableByName: map<string, Migration>, migrationsByName: map<string, Migration>,
                                     x: seq<Step>, y: seq<Step>, c: Contents, broken: set<string>)
    ensures var rx := RunSteps(stamp, tableByName, migrationsByName, x, c, broken);
            var run := RunSteps(stamp, tableByName, migrationsByName, x + y, c, broken);
      && (rx.fault.Some? ==> run == rx)
      && (rx.fault.None? ==>
            var ry := RunSteps(stamp, tableByName, migrationsByName, y, rx.contents, broken);
            run == Run(ry.contents, rx.notices + ry.notices, ry.fault))
    decreases |x|
  {
    if x == [] {
      assert x + y == y;
    } else {
      assert (x + y)[0] == x[0] && (x + y)[1..] == x[1..] + y;
      RunStepsStep(stamp, tableByName, migrationsByName, x, c, broken);
      RunStepsStep(stamp, tableByName, migrationsByName, x + y, c, broken);
      match StepEffect(stamp, tableByName, migrationsByName, x[0], c, broken)
      case Failure(f) =>
      case Success(c1) =>
        RunAppend(stamp, tableByName, migrationsByName, x[1..], y, c1, broken);
    }
  }

  /** The success notices of two runs in a row. */
  lemma SuccessesAppend(x: seq<Step>, y: seq<Step>)
    ensures Successes(x + y) == Successes(x) + Successes(y)
  {
    assert forall i :: 0 <= i < |x| + |y| ==> (x + y)[i] == if i < |x| then x[i] else y[i - |x|];
  }

  /**
   * A run that ends by adding a name the store still tracks fails at that step, after the
   * earlier steps succeeded, with the duplicate name as the error.
   */
  lemma AddTrackedFails(stamp: Stamp, tableByName: map<string, Migration>, migrationsByName: map<string, Migration>,
                        x: seq<Step>, name: string, c: Contents, broken: set<string>)
    requires var rx := RunSteps(stamp, tableByName, migrationsByName, x, c, broken);
      rx.fault.None? && name in rx.contents.rows
    requires name in migrationsByName && migrationsByName[name].doSql !in broken
    ensures var rx := RunSteps(stamp, tableByName, migrationsByName, x, c, broken);
            var run := RunSteps(stamp, tableByName, migrationsByName, x + [Step(name, Add)], c, broken);
      && run.fault == Some(DuplicateName(name))
      && run.notices == rx.notices + [Notice(name, Add, false)]
  {
    RunAppend(stamp, tableByName, migrationsByName, x, [Step(name, Add)], c, broken);
    var c1 := RunSteps(stamp, tableByName, migrationsByName, x, c, broken).contents;
    RunStepsStep(stamp, tableByName, migrationsByName, [Step(name, Add)], c1, broken);
  }

  /**
   * A block of Removes whose undo scripts all run succeeds at every step and leaves the store
   * without the rows of those names (a name removed twice is deleted once, then not found).
   */
  lemma {:induction false} RunRemoves(stamp: Stamp, tableByName: map<string, Migration>, migrationsByName: map<string, Migration>,
                                      names: seq<string>, c: Contents, broken: set<string>)
    requires forall n :: n in tableByName ==> tableByName[n].undoSql !in broken
    ensures RunSteps(stamp, tableByName, migrationsByName, Tag(names, Remove), c, broken).fault.None?
    ensures RunSteps(stamp, tableByName, migrationsByName, Tag(names, Remove), c, broken).notices == Successes(Tag(names, Remove))
    ensures RunSteps(stamp, tableByName, migrationsByName, Tag(names, Remove), c, broken).contents.rows.Keys == c.rows.Keys - NameSet(names)
    decreases |names|
  {
    var steps := Tag(names, Remove);
    if names != [] {
      RemoveKeys(tableByName, names[0], c, broken);
      var c1 := RemoveEffect(tableByName, names[0], c, broken).value;
      TagCons(names, Remove);
      RunStepsStep(stamp, tableByName, migrationsByName, steps, c, broken);
      RunRemoves(stamp, tableByName, migrationsByName, names[1..], c1, broken);
      SuccessesCons(steps);
      NameSetCons(names);
    }
  }

  /**
   * A block of Adds of distinct, known migrations whose do scripts run and whose names are not yet
   * tracked succeeds at every step and leaves the store with a row for each of them.
   */
  lemma {:induction false} RunAdds(stamp: Stamp, tableByName: map<string, Migration>, migrationsByName: map<string, Migration>,
                                   names: seq<string>, c: Contents, broken: set<string>)
    requires Distinct(names)
    requires forall i :: 0 <= i < |names| ==> names[i] in migrationsByName && migrationsByName[names[i]].doSql !in broken
    requires forall i :: 0 <= i < |names| ==> names[i] !in c.rows
    ensures RunSteps(stamp, tableByName, migrationsByName, Tag(names, Add), c, broken).fault.None?
    ensures RunSteps(stamp, tableByName, migrationsByName, Tag(names, Add), c, broken).notices == Successes(Tag(names, Add))
    ensures RunSteps(stamp, tableByName, migrationsByName, Tag(names, Add), c, broken).contents.rows.Keys == c.rows.Keys + NameSet(names)
    decreases |names|
  {
    var steps := Tag(names, Add);
    if names != [] {
      AddKeys(stamp, migrationsByName, names[0], c, broken);
      var c1 := AddEffect(stamp, migrationsByName, names[0], c, broken).value;
      TagCons(names, Add);
      RunStepsStep(stamp, tableByName, migrationsByName, steps, c, broken);
      DistinctTail(names);
      RunAdds(stamp, tableByName, migrationsByName, names[1..], c1, broken);
      SuccessesCons(steps);
      NameSetCons(names);
    }
  }

  /** A remove whose undo script runs succeeds and untracks the name. */
  lemma RemoveKeys(tableByName: map<string, Migration>, name: string, c: Contents, broken: set<string>)
    requires forall n :: n in tableByName ==> tableByName[n].undoSql !in broken
    ensures RemoveEffect(tableByName, name, c, broken).Success?
    ensures RemoveEffect(tableByName, name, c, broken).value.rows.Keys == c.rows.Keys - {name}
  {
  }

  /** An add of a known, untracked migration whose do script runs succeeds and tracks the name. */
  lemma AddKeys(stamp: Stamp, migrationsByName: map<string, Migration>, name: string, c: Contents, broken: set<string>)
    requires name in migrationsByName && migrationsByName[name].doSql !in broken && name !in c.rows
    ensures AddEffect(stamp, migrationsByName, name, c, broken).Success?
    ensures AddEffect(stamp, migrationsByName, name, c, broken).value.rows.Keys == c.rows.Keys + {name}
  {
  }

  lemma SuccessesCons(steps: seq<Step>)
    requires steps != []
    ensures Successes(steps) == [Notice(steps[0].name, steps[0].action, true)] + Successes(steps[1..])
  {
    assert forall i :: 0 < i < |steps| ==> steps[1..][i - 1] == steps[i];
  }

  /**
   * A whole plan in the five-block shape succeeds at every step when every applied undo script
   * runs and the added migrations are distinct, known, with do scripts that run, and untracked
   * once the Removes are done. Afterwards the store tracks the names it tracked, less the
   * removed ones, plus the added ones.
   */
  lemma LayoutRun(stamp: Stamp, tableByName: map<string, Migration>, migrationsByName: map<string, Migration>,
                  front: seq<string>, dropped: seq<string>, skipped: seq<string>, removed: seq<string>, added: seq<string>,
                  c: Contents, broken: set<string>)
    requires forall n :: n in tableByName ==> tableByName[n].undoSql !in broken
    requires Distinct(added)
    requires forall i :: 0 <= i < |added| ==> added[i] in migrationsByName && migrationsByName[added[i]].doSql !in broken
    requires forall i :: 0 <= i < |added| ==> added[i] !in c.rows || added[i] in front || added[i] in removed
    ensures var p := Layout(front, dropped, skipped, removed, added);
            var r := RunSteps(stamp, tableByName, migrationsByName, p, c, broken);
      && r.fault.None? && r.notices == Successes(p)
      && r.contents.rows.Keys == c.rows.Keys - NameSet(front) - NameSet(removed) + NameSet(added)
  {
    var a, b, d := Tag(front, Remove), Tag(dropped, Shrink), Tag(skipped, Skip);
    var e, f := Tag(removed, Remove), Tag(added, Add);
    RunRemoves(stamp, tableByName, migrationsByName, front, c, broken);
    var c1 := RunSteps(stamp, tableByName, migrationsByName, a, c, broken).contents;
    PassiveRun(stamp, tableByName, migrationsByName, b, c1, broken);
    PassiveRun(stamp, tableByName, migrationsByName, d, c1, broken);
    RunRemoves(stamp, tableByName, migrationsByName, removed, c1, broken);
    var c2 := RunSteps(stamp, tableByName, migrationsByName, e, c1, broken).contents;
    RunAdds(stamp, tableByName, migrationsByName, added, c2, broken);
    RunAppend(stamp, tableByName, migrationsByName, a, b, c, broken);
    RunAppend(stamp, tableByName, migrationsByName, a + b, d, c, broken);
    RunAppend(stamp, tableByName, migrationsByName, a + b + d, e, c, broken);
    RunAppend(stamp, tableByName, migrationsByName, a + b + d + e, f, c, broken);
    SuccessesAppend(a, b);
    SuccessesAppend(a + b, d);
    SuccessesAppend(a + b + d, e);
    SuccessesAppend(a + b + d + e, f);
  }

  /**
   * A store that agrees with the state: it tracks exactly the applied names (the column is
   * UNIQUE, so they are distinct), the desired names are distinct, every applied undo script and
   * every desired do script runs, and no desired migration is among those the shrink pass drops.
   */
  predicate Consistent(table: seq<Migration>, migrations: seq<Migration>, c: Contents, broken: set<string>) {
    && Distinct(Names(table)) && Distinct(Names(migrations))
    && c.rows.Keys == NameSet(Names(table))
    && (forall i :: 0 <= i < |table| ==> table[i].undoSql !in broken)
    && (forall i :: 0 <= i < |migrations| ==> migrations[i].doSql !in broken)
    && (forall i :: 0 <= i < |migrations| ==> migrations[i].name !in Dropped(Names(table), Names(migrations)))
  }

  /** Through the indexes, every applied undo script and every desired do script still runs. */
  lemma IndexedScriptsRun(table: seq<Migration>, migrations: seq<Migration>, broken: set<string>)
    requires forall i :: 0 <= i < |table| ==> table[i].undoSql !in broken
    requires forall i :: 0 <= i < |migrations| ==> migrations[i].doSql !in broken
    ensures forall n :: n in IndexByName(table) ==> IndexByName(table)[n].undoSql !in broken
    ensures forall n :: n in IndexByName(migrations) ==> IndexByName(migrations)[n].doSql !in broken
  {
    IndexByNameKeys(table);
    IndexByNameKeys(migrations);
    forall n | n in IndexByName(table) ensures IndexByName(table)[n].undoSql !in broken {
      var i :| 0 <= i < |table| && table[i] == IndexByName(table)[n];
    }
    forall n | n in IndexByName(migrations) ensures IndexByName(migrations)[n].doSql !in broken {
      var i :| 0 <= i < |migrations| && migrations[i] == IndexByName(migrations)[n];
    }
  }

  /**
   * The applied names split as shrunk, skipped and the rest, with the skipped ones the first
   * desired names: each later desired name that is not a shrunk one and is tracked is in the rest.
   */
  lemma AddedUntracked(applied: seq<string>, dropped: seq<string>, skipped: seq<string>, rest: seq<string>, desired: seq<string>)
    requires applied == dropped + skipped + rest
    requires |skipped| <= |desired| && desired[..|skipped|] == skipped && Distinct(desired)
    requires forall i :: 0 <= i < |desired| ==> desired[i] !in dropped
    ensures var added := desired[|skipped|..];
      && Distinct(added)
      && (forall i :: 0 <= i < |added| ==> added[i] !in NameSet(applied) || added[i] in rest)
  {
    var k := |skipped|;
    var added := desired[k..];
    forall i, j | 0 <= i < j < |added| ensures added[i] != added[j] {
      assert added[i] == desired[k + i] && added[j] == desired[k + j];
    }
    forall i | 0 <= i < |added| ensures added[i] !in NameSet(applied) || added[i] in rest {
      var n := added[i];
      assert n == desired[k + i];
      assert n !in skipped by {
        forall j | 0 <= j < k ensures skipped[j] != n { assert skipped[j] == desired[j]; }
      }
    }
  }

  /**
   * Distinct names split as shrunk, skipped and the rest: deleting the rest (in any order) and
   * inserting the added names leaves the shrunk ones, the skipped ones and the added ones.
   */
  lemma KeysAfterRun(applied: seq<string>, dropped: seq<string>, skipped: seq<string>, rest: seq<string>,
                     removed: seq<string>, desired: seq<string>)
    requires applied == dropped + skipped + rest && Distinct(applied) && NameSet(removed) == NameSet(rest)
    requires |skipped| <= |desired| && desired[..|skipped|] == skipped
    ensures NameSet(applied) - NameSet([]) - NameSet(removed) + NameSet(desired[|skipped|..]) == NameSet(dropped) + NameSet(desired)
  {
    var added := desired[|skipped|..];
    assert desired == skipped + added;
    forall n | n in NameSet(rest) ensures n !in NameSet(dropped) + NameSet(skipped) {
      var x :| 0 <= x < |rest| && rest[x] == n;
      var z := |dropped| + |skipped| + x;
      assert applied[z] == n;
      forall y | 0 <= y < |dropped| ensures dropped[y] != n {
        assert applied[y] == dropped[y];
      }
      forall y | 0 <= y < |skipped| ensures skipped[y] != n {
        assert applied[|dropped| + y] == skipped[y];
      }
    }
    assert NameSet(applied) == NameSet(dropped) + NameSet(skipped) + NameSet(rest);
    assert NameSet(desired) == NameSet(skipped) + NameSet(added);
  }

  /** The applied names are the shrunk ones, then the kept ones up to the walk's end, then the rest. */
  lemma ThreeWay(applied: seq<string>, dropped: seq<string>, kept: seq<string>, k: nat)
    requires |dropped| <= |applied| && dropped == applied[..|dropped|] && kept == applied[|dropped|..] && k <= |kept|
    ensures applied == dropped + kept[..k] + kept[k..]
  {
    assert kept == kept[..k] + kept[k..];
    assert applied == applied[..|dropped|] + applied[|dropped|..];
  }

  /**
   * The Adds of a non-empty desired list past the walk: distinct, untracked once the rows of the
   * Removes are deleted, and leaving the store with the shrunk and the desired names.
   */
  lemma ReconciledTail(table: seq<Migration>, migrations: seq<Migration>, removed: seq<string>, c: Contents, broken: set<string>)
    requires Consistent(table, migrations, c, broken) && migrations != []
    requires NameSet(removed) == NameSet(Kept(Names(table), Names(migrations))[Matched(table, migrations)..])
    ensures var applied, desired := Names(table), Names(migrations);
            var added := desired[Matched(table, migrations)..];
      && Distinct(added)
      && (forall i :: 0 <= i < |added| ==> added[i] !in c.rows || added[i] in removed)
      && c.rows.Keys - NameSet([]) - NameSet(removed) + NameSet(added) == NameSet(Dropped(applied, desired)) + NameSet(desired)
  {
    var applied, desired := Names(table), Names(migrations);
    var kept, k, dropped := Kept(applied, desired), Matched(table, migrations), Dropped(applied, desired);
    PrefixCommon(kept, desired, IndexByName(table), IndexByName(migrations));
    ThreeWay(applied, dropped, kept, k);
    assert forall i :: 0 <= i < |desired| ==> desired[i] == migrations[i].name;
    AddedUntracked(applied, dropped, kept[..k], kept[k..], desired);
    KeysAfterRun(applied, dropped, kept[..k], kept[k..], removed, desired);
  }

  /** With nothing desired, removing every applied name (in any order, twice over) empties the store. */
  lemma EmptiedKeys(applied: seq<string>, removed: seq<string>, keys: set<string>)
    requires keys == NameSet(applied) && NameSet(removed) == NameSet(applied)
    ensures keys - NameSet(applied) - NameSet(removed) + NameSet([]) == NameSet([]) + NameSet([])
  {
  }

  /** The statements one `remove` issues when its undo script runs. */
  function RemoveOne(tableByName: map<string, Migration>, name: string): seq<Effect> {
    (if name in tableByName then [Ran(tableByName[name].undoSql)] else []) + [Deleted(name)]
  }

  /** The statements a block of Removes issues when each one runs. */
  function RemoveJournal(tableByName: map<string, Migration>, names: seq<string>): seq<Effect> {
    if names == [] then [] else RemoveOne(tableByName, names[0]) + RemoveJournal(tableByName, names[1..])
  }

  /** The journal of a block of Removes holds the undo script of every known name and a DELETE of every name. */
  lemma {:induction false} RemoveJournalHas(tableByName: map<string, Migration>, names: seq<string>, i: nat)
    requires i < |names|
    ensures names[i] in tableByName ==> Ran(tableByName[names[i]].undoSql) in RemoveJournal(tableByName, names)
    ensures Deleted(names[i]) in RemoveJournal(tableByName, names)
    decreases i
  {
    if i > 0 {
      RemoveJournalHas(tableByName, names[1..], i - 1);
    }
  }

  /** A block of Removes whose undo scripts all run journals exactly those statements. */
  lemma {:induction false} RemovesJournal(stamp: Stamp, tableByName: map<string, Migration>, migrationsByName: map<string, Migration>,
                                          names: seq<string>, c: Contents, broken: set<string>)
    requires forall n :: n in tableByName ==> tableByName[n].undoSql !in broken
    ensures RunSteps(stamp, tableByName, migrationsByName, Tag(names, Remove), c, broken).contents.journal
         == c.journal + RemoveJournal(tableByName, names)
    decreases |names|
  {
    if names == [] {
      assert Tag(names, Remove) == [];
    } else {
      var head := RemoveOne(tableByName, names[0]);
      RemoveJournalStep(tableByName, names[0], c, broken);
      var c1 := RemoveEffect(tableByName, names[0], c, broken).value;
      TagCons(names, Remove);
      RunSucceedsContents(stamp, tableByName, migrationsByName, Tag(names, Remove), c, broken);
      RemovesJournal(stamp, tableByName, migrationsByName, names[1..], c1, broken);
      assert RemoveJournal(tableByName, names) == head + RemoveJournal(tableByName, names[1..]);
      assert c1.journal == c.journal + head;
    }
  }

  /** When the first step succeeds, the run ends where the rest of the list, run from there, ends. */
  lemma RunSucceedsContents(stamp: Stamp, tableByName: map<string, Migration>, migrationsByName: map<string, Migration>,
                            steps: seq<Step>, c: Contents, broken: set<string>)
    requires steps != [] && StepEffect(stamp, tableByName, migrationsByName, steps[0], c, broken).Success?
    ensures RunSteps(stamp, tableByName, migrationsByName, steps, c, broken).contents
         == RunSteps(stamp, tableByName, migrationsByName, steps[1..], StepEffect(stamp, tableByName, migrationsByName, steps[0], c, broken).value, broken).contents
  {
  }

  /** One remove whose undo script runs journals that script (for a known name) and the DELETE. */
  lemma RemoveJournalStep(tableByName: map<string, Migration>, name: string, c: Contents, broken: set<string>)
    requires forall n :: n in tableByName ==> tableByName[n].undoSql !in broken
    ensures RemoveEffect(tableByName, name, c, broken).Success?
    ensures RemoveEffect(tableByName, name, c, broken).value.journal == c.journal + RemoveOne(tableByName, name)
  {
  }

  /**
   * The plan of an empty desired list, on a store that agrees with the table: the Removes of
   * every applied name, then the Removes of the same names in some order. Both blocks succeed,
   * and since the applied index does not change during the run, each applied undo script is
   * journalled in both.
   */
  lemma EmptyDesiredRun(stamp: Stamp, table: seq<Migration>, removed: seq<string>, c: Contents, broken: set<string>)
    requires Consistent(table, [], c, broken)
    requires NameSet(removed) == NameSet(Names(table))
    ensures var t := IndexByName(table);
            var r := RunSteps(stamp, t, IndexByName([]), Tag(Names(table), Remove) + Tag(removed, Remove), c, broken);
      && r.fault.None?
      && r.contents.journal == c.journal + RemoveJournal(t, Names(table)) + RemoveJournal(t, removed)
      && (forall i :: 0 <= i < |table| ==> Ran(table[i].undoSql) in RemoveJournal(t, Names(table)))
      && (forall i :: 0 <= i < |table| ==> Ran(table[i].undoSql) in RemoveJournal(t, removed))
  {
    var t, m := IndexByName(table), IndexByName([]);
    var applied := Names(table);
    IndexedScriptsRun(table, [], broken);
    RunRemoves(stamp, t, m, applied, c, broken);
    RemovesJournal(stamp, t, m, applied, c, broken);
    var c1 := RunSteps(stamp, t, m, Tag(applied, Remove), c, broken).contents;
    RunRemoves(stamp, t, m, removed, c1, broken);
    RemovesJournal(stamp, t, m, removed, c1, broken);
    RunAppend(stamp, t, m, Tag(applied, Remove), Tag(removed, Remove), c, broken);
    forall i | 0 <= i < |table|
      ensures Ran(table[i].undoSql) in RemoveJournal(t, applied)
      ensures Ran(table[i].undoSql) in RemoveJournal(t, removed)
    {
      IndexOfDistinct(table, i);
      assert applied[i] == table[i].name;
      RemoveJournalHas(t, applied, i);
      assert table[i].name in NameSet(removed);
      var j :| 0 <= j < |removed| && removed[j] == table[i].name;
      RemoveJournalHas(t, removed, j);
    }
  }

  /**
   * Either reconciler's plan, whatever the order of its Removes, runs on a consistent store with
   * success at every step, and the store ends up tracking the shrunk names and the desired ones.
   */
  lemma ReconciledRun(stamp: Stamp, table: seq<Migration>, migrations: seq<Migration>, removed: seq<string>,
                      c: Contents, broken: set<string>)
    requires Consistent(table, migrations, c, broken)
    requires NameSet(removed) == NameSet(Kept(Names(table), Names(migrations))[Matched(table, migrations)..])
    ensures var applied, desired := Names(table), Names(migrations);
            var kept, k := Kept(applied, desired), Matched(table, migrations);
            var p := Layout(if desired == [] then applied else [], Dropped(applied, desired), kept[..k], removed, desired[k..]);
            var r := RunSteps(stamp, IndexByName(table), IndexByName(migrations), p, c, broken);
      && r.fault.None? && r.notices == Successes(p)
      && r.contents.rows.Keys == NameSet(Dropped(applied, desired)) + NameSet(desired)
  {
    var applied, desired := Names(table), Names(migrations);
    var kept, k, dropped := Kept(applied, desired), Matched(table, migrations), Dropped(applied, desired);
    var t, m := IndexByName(table), IndexByName(migrations);
    IndexedScriptsRun(table, migrations, broken);
    if desired == [] {
      assert dropped == [] && kept == applied && k == 0 && kept[..k] == [] && kept[k..] == applied && desired[k..] == [];
      EmptiedKeys(applied, removed, c.rows.Keys);
      LayoutRun(stamp, t, m, applied, [], [], removed, [], c, broken);
    } else {
      NamesIndexed(migrations);
      IndexedSuffix(desired, m, k);
      assert migrations != [];
      ReconciledTail(table, migrations, removed, c, broken);
      LayoutRun(stamp, t, m, [], dropped, kept[..k], removed, desired[k..], c, broken);
    }
  }
}
