/**
 * The cases of test/process.test.ts, on concrete inputs. The tests build each migration from its
 * name and scripts, so both hashes are digests of the script text; here the digest is the text
 * itself, which separates distinct scripts as SHA-256 does on these inputs.
 */
module Scenarios {
  import opened Wrappers
  import opened State
  import opened Actions
  import opened Db
  import opened Apply
  import Process
  import Migrator

  /** `new Migration(name, do, undo)` with the stand-in digest. */
  function Mig(name: string, doSql: string, undoSql: string): Migration {
    Migration(name, doSql, undoSql, doSql, undoSql)
  }

  /**
   * With unique names the walk compares migrations position by position: the kept applied
   * migrations are `table[s..]`, they agree with the desired ones for `k` positions, and then
   * disagree or run out.
   */
  lemma MatchedAt(table: seq<Migration>, migrations: seq<Migration>, kept: seq<string>, s: nat, k: nat)
    requires Distinct(Names(table)) && Distinct(Names(migrations))
    requires kept == Kept(Names(table), Names(migrations))
    requires s + |kept| == |table| && forall i :: 0 <= i < |kept| ==> kept[i] == table[s + i].name
    requires k <= |kept| && k <= |migrations|
    requires forall i :: 0 <= i < k ==> table[s + i].name == migrations[i].name && table[s + i].doHash == migrations[i].doHash
    requires k < |kept| && k < |migrations| ==> table[s + k].name != migrations[k].name || table[s + k].doHash != migrations[k].doHash
    ensures Matched(table, migrations) == k
  {
    var desired := Names(migrations);
    var t, m := IndexByName(table), IndexByName(migrations);
    forall i | 0 <= i < k ensures Agree(t, m, kept[i], desired[i]) {
      IndexOfDistinct(table, s + i);
      IndexOfDistinct(migrations, i);
    }
    if k < |kept| && k < |migrations| {
      IndexOfDistinct(table, s + k);
      IndexOfDistinct(migrations, k);
    }
    PrefixExact(kept, desired, t, m, k);
  }

  /** The shrink search finds the first desired name at position `s` of the applied ones. */
  lemma KeptAt(table: seq<Migration>, migrations: seq<Migration>, s: nat)
    requires s < |table| && migrations != [] && table[s].name == migrations[0].name
    requires forall j :: 0 <= j < s ==> table[j].name != migrations[0].name
    ensures Dropped(Names(table), Names(migrations)) == Names(table)[..s]
    ensures Kept(Names(table), Names(migrations)) == Names(table)[s..]
  {
    assert Names(table)[s] == migrations[0].name == Names(migrations)[0];
    assert forall j :: 0 <= j < s ==> Names(table)[j] != Names(migrations)[0];
  }

  /** Both plans for a non-empty desired list, from the shrunk names, the walk's length and the blocks it splits. */
  lemma Pieces(table: seq<Migration>, migrations: seq<Migration>, dropped: seq<string>, k: nat,
               skipped: seq<string>, removed: seq<string>, added: seq<string>)
    requires migrations != [] && dropped == Dropped(Names(table), Names(migrations)) && k == Matched(table, migrations)
    requires skipped + removed == Kept(Names(table), Names(migrations)) && |skipped| == k
    requires Names(migrations) == skipped + added
    ensures Process.ProcessPlan(table, migrations) == Layout([], dropped, skipped, Reverse(removed), added)
    ensures Migrator.MigratorPlan(table, migrations) == Layout([], dropped, skipped, removed, added)
  {
    var kept, desired := Kept(Names(table), Names(migrations)), Names(migrations);
    assert kept[..k] == skipped && kept[k..] == removed && desired[k..] == added;
  }

  const Three: seq<Migration> := [Mig("1", "1", "1"), Mig("2", "2", "2"), Mig("3", "3", "3")]

  const Five: seq<Migration> := [Mig("1", "1", "1"), Mig("2", "2", "2"), Mig("3", "3", "3"), Mig("4", "4", "4"), Mig("5", "5", "5")]

  lemma ThreeNames()
    ensures Names(Three) == ["1", "2", "3"] && Distinct(Names(Three))
  {
    assert Names(Three) == ["1", "2", "3"];
  }

  lemma FiveNames()
    ensures Names(Five) == ["1", "2", "3", "4", "5"] && Distinct(Names(Five))
  {
    assert Names(Five) == ["1", "2", "3", "4", "5"];
  }

  /** "No changes": the same migrations on both sides are all skipped. */
  lemma NoChangesCase()
    ensures Process.ProcessPlan(Three, Three) == [Step("1", Skip), Step("2", Skip), Step("3", Skip)]
    ensures Migrator.MigratorPlan(Three, Three) == [Step("1", Skip), Step("2", Skip), Step("3", Skip)]
  {
    Process.ProcessNoChanges(Three, Three);
    Migrator.MigratorNoChanges(Three, Three);
    assert Names(Three) == ["1", "2", "3"];
  }

  const ShrinkDesired: seq<Migration> := [Mig("3", "3", "3"), Mig("4", "4", "4"), Mig("5", "5", "5")]

  lemma ShrinkSearch()
    ensures Dropped(Names(Five), Names(ShrinkDesired)) == ["1", "2"] && Kept(Names(Five), Names(ShrinkDesired)) == ["3", "4", "5"]
  {
    KeptAt(Five, ShrinkDesired, 2);
    var applied: seq<string> := ["1", "2", "3", "4", "5"];
    assert Names(Five) == applied;
    assert applied[..2] == ["1", "2"] && applied[2..] == ["3", "4", "5"];
  }

  lemma ShrinkWalk()
    ensures Matched(Five, ShrinkDesired) == 3
  {
    ShrinkSearch();
    FiveNames();
    assert Names(ShrinkDesired) == ["3", "4", "5"];
    MatchedAt(Five, ShrinkDesired, ["3", "4", "5"], 2, 3);
  }

  /** "Shrink": applied migrations before the first desired one are shrunk, the rest skipped. */
  lemma ShrinkCase()
    ensures Process.ProcessPlan(Five, ShrinkDesired) == Layout([], ["1", "2"], ["3", "4", "5"], [], [])
    ensures Migrator.MigratorPlan(Five, ShrinkDesired) == Layout([], ["1", "2"], ["3", "4", "5"], [], [])
  {
    ShrinkSearch();
    ShrinkWalk();
    Pieces(Five, ShrinkDesired, ["1", "2"], 3, ["3", "4", "5"], [], []);
  }

  const AddDesired: seq<Migration> := [Mig("3", "3", "3"), Mig("4", "4", "4"), Mig("5", "5", "5")]

  lemma AddSearch()
    ensures Dropped(Names(Three), Names(AddDesired)) == ["1", "2"] && Kept(Names(Three), Names(AddDesired)) == ["3"]
  {
    KeptAt(Three, AddDesired, 2);
    var applied: seq<string> := ["1", "2", "3"];
    assert Names(Three) == applied;
    assert applied[..2] == ["1", "2"] && applied[2..] == ["3"];
  }

  lemma AddWalk()
    ensures Matched(Three, AddDesired) == 1
  {
    AddSearch();
    ThreeNames();
    assert Names(AddDesired) == ["3", "4", "5"];
    MatchedAt(Three, AddDesired, ["3"], 2, 1);
  }

  /** "Add": 1 and 2 are shrunk, 3 is skipped, and 4 and 5, past the applied ones, are added. */
  lemma AddCase()
    ensures Process.ProcessPlan(Three, AddDesired) == Layout([], ["1", "2"], ["3"], [], ["4", "5"])
    ensures Migrator.MigratorPlan(Three, AddDesired) == Layout([], ["1", "2"], ["3"], [], ["4", "5"])
  {
    AddSearch();
    AddWalk();
    Pieces(Three, AddDesired, ["1", "2"], 1, ["3"], [], ["4", "5"]);
  }

  const ChangeSimpleDesired: seq<Migration> := [Mig("3", "3", "3"), Mig("4", "4", "4"), Mig("5", "5.1", "5")]

  lemma ChangeSimpleSearch()
    ensures Dropped(Names(Five), Names(ChangeSimpleDesired)) == ["1", "2"] && Kept(Names(Five), Names(ChangeSimpleDesired)) == ["3", "4", "5"]
  {
    KeptAt(Five, ChangeSimpleDesired, 2);
    var applied: seq<string> := ["1", "2", "3", "4", "5"];
    assert Names(Five) == applied;
    assert applied[..2] == ["1", "2"] && applied[2..] == ["3", "4", "5"];
  }

  lemma ChangeSimpleWalk()
    ensures Matched(Five, ChangeSimpleDesired) == 2
  {
    ChangeSimpleSearch();
    FiveNames();
    assert Names(ChangeSimpleDesired) == ["3", "4", "5"];
    MatchedAt(Five, ChangeSimpleDesired, ["3", "4", "5"], 2, 2);
  }

  /** "Change simple": the changed do-script of 5 ends the walk: 5 is removed and added again. */
  lemma ChangeSimpleCase()
    ensures Process.ProcessPlan(Five, ChangeSimpleDesired) == Layout([], ["1", "2"], ["3", "4"], ["5"], ["5"])
    ensures Migrator.MigratorPlan(Five, ChangeSimpleDesired) == Layout([], ["1", "2"], ["3", "4"], ["5"], ["5"])
  {
    ChangeSimpleSearch();
    ChangeSimpleWalk();
    Pieces(Five, ChangeSimpleDesired, ["1", "2"], 2, ["3", "4"], ["5"], ["5"]);
    assert Reverse(["5"]) == ["5"];
  }

  const ChangeCenterDesired: seq<Migration> := [Mig("1", "1", "1"), Mig("2", "2", "2"), Mig("3", "3.1", "3"), Mig("4", "4", "4"), Mig("5", "5", "5")]

  lemma ChangeCenterSearch()
    ensures Dropped(Names(Five), Names(ChangeCenterDesired)) == [] && Kept(Names(Five), Names(ChangeCenterDesired)) == ["1", "2", "3", "4", "5"]
  {
    KeptAt(Five, ChangeCenterDesired, 0);
    var applied: seq<string> := ["1", "2", "3", "4", "5"];
    assert Names(Five) == applied;
    assert applied[..0] == [] && applied[0..] == ["1", "2", "3", "4", "5"];
  }

  lemma ChangeCenterWalk()
    ensures Matched(Five, ChangeCenterDesired) == 2
  {
    ChangeCenterSearch();
    FiveNames();
    assert Names(ChangeCenterDesired) == ["1", "2", "3", "4", "5"];
    MatchedAt(Five, ChangeCenterDesired, ["1", "2", "3", "4", "5"], 0, 2);
  }

  /** "Change center": the changed do-script of 3 ends the walk: 3, 4 and 5 are removed, last first, and added again. */
  lemma ChangeCenterCase()
    ensures Process.ProcessPlan(Five, ChangeCenterDesired) == Layout([], [], ["1", "2"], ["5", "4", "3"], ["3", "4", "5"])
    ensures Migrator.MigratorPlan(Five, ChangeCenterDesired) == Layout([], [], ["1", "2"], ["3", "4", "5"], ["3", "4", "5"])
  {
    ChangeCenterSearch();
    ChangeCenterWalk();
    Pieces(Five, ChangeCenterDesired, [], 2, ["1", "2"], ["3", "4", "5"], ["3", "4", "5"]);
    assert Reverse(["3", "4", "5"]) == ["5", "4", "3"];
  }

  const AddCenterDesired: seq<Migration> := [Mig("2", "2", "2"), Mig("3", "3", "3"), Mig("6", "6", "6"), Mig("4", "4", "4"), Mig("5", "5", "5")]

  lemma AddCenterSearch()
    ensures Dropped(Names(Five), Names(AddCenterDesired)) == ["1"] && Kept(Names(Five), Names(AddCenterDesired)) == ["2", "3", "4", "5"]
  {
    KeptAt(Five, AddCenterDesired, 1);
    var applied: seq<string> := ["1", "2", "3", "4", "5"];
    assert Names(Five) == applied;
    assert applied[..1] == ["1"] && applied[1..] == ["2", "3", "4", "5"];
  }

  lemma AddCenterWalk()
    ensures Matched(Five, AddCenterDesired) == 2
  {
    AddCenterSearch();
    FiveNames();
    assert Names(AddCenterDesired) == ["2", "3", "6", "4", "5"];
    MatchedAt(Five, AddCenterDesired, ["2", "3", "4", "5"], 1, 2);
  }

  /** "Add center": a new migration 6 between 3 and 4 ends the walk: 4 and 5 are removed and added after 6. */
  lemma AddCenterCase()
    ensures Process.ProcessPlan(Five, AddCenterDesired) == Layout([], ["1"], ["2", "3"], ["5", "4"], ["6", "4", "5"])
    ensures Migrator.MigratorPlan(Five, AddCenterDesired) == Layout([], ["1"], ["2", "3"], ["4", "5"], ["6", "4", "5"])
  {
    AddCenterSearch();
    AddCenterWalk();
    Pieces(Five, AddCenterDesired, ["1"], 2, ["2", "3"], ["4", "5"], ["6", "4", "5"]);
    assert Reverse(["4", "5"]) == ["5", "4"];
  }

  const RemoveCenterDesired: seq<Migration> := [Mig("2", "2", "2"), Mig("4", "4", "4"), Mig("5", "5", "5")]

  lemma RemoveCenterSearch()
    ensures Dropped(Names(Five), Names(RemoveCenterDesired)) == ["1"] && Kept(Names(Five), Names(RemoveCenterDesired)) == ["2", "3", "4", "5"]
  {
    KeptAt(Five, RemoveCenterDesired, 1);
    var applied: seq<string> := ["1", "2", "3", "4", "5"];
    assert Names(Five) == applied;
    assert applied[..1] == ["1"] && applied[1..] == ["2", "3", "4", "5"];
  }

  lemma RemoveCenterWalk()
    ensures Matched(Five, RemoveCenterDesired) == 1
  {
    RemoveCenterSearch();
    FiveNames();
    assert Names(RemoveCenterDesired) == ["2", "4", "5"];
    MatchedAt(Five, RemoveCenterDesired, ["2", "3", "4", "5"], 1, 1);
  }

  /** "Remove center": dropping 3 ends the walk at 2: 3, 4 and 5 are removed and 4 and 5 added again. */
  lemma RemoveCenterCase()
    ensures Process.ProcessPlan(Five, RemoveCenterDesired) == Layout([], ["1"], ["2"], ["5", "4", "3"], ["4", "5"])
    ensures Migrator.MigratorPlan(Five, RemoveCenterDesired) == Layout([], ["1"], ["2"], ["3", "4", "5"], ["4", "5"])
  {
    RemoveCenterSearch();
    RemoveCenterWalk();
    Pieces(Five, RemoveCenterDesired, ["1"], 1, ["2"], ["3", "4", "5"], ["4", "5"]);
    assert Reverse(["3", "4", "5"]) == ["5", "4", "3"];
  }

  const SwapEndDesired: seq<Migration> := [Mig("2", "2", "2"), Mig("3", "3", "3"), Mig("5", "5", "5"), Mig("4", "4", "4")]

  lemma SwapEndSearch()
    ensures Dropped(Names(Five), Names(SwapEndDesired)) == ["1"] && Kept(Names(Five), Names(SwapEndDesired)) == ["2", "3", "4", "5"]
  {
    KeptAt(Five, SwapEndDesired, 1);
    var applied: seq<string> := ["1", "2", "3", "4", "5"];
    assert Names(Five) == applied;
    assert applied[..1] == ["1"] && applied[1..] == ["2", "3", "4", "5"];
  }

  lemma SwapEndWalk()
    ensures Matched(Five, SwapEndDesired) == 2
  {
    SwapEndSearch();
    FiveNames();
    assert Names(SwapEndDesired) == ["2", "3", "5", "4"];
    MatchedAt(Five, SwapEndDesired, ["2", "3", "4", "5"], 1, 2);
  }

  /** "Swap end": swapping 4 and 5 ends the walk at 3: both are removed and added in the new order. */
  lemma SwapEndCase()
    ensures Process.ProcessPlan(Five, SwapEndDesired) == Layout([], ["1"], ["2", "3"], ["5", "4"], ["5", "4"])
    ensures Migrator.MigratorPlan(Five, SwapEndDesired) == Layout([], ["1"], ["2", "3"], ["4", "5"], ["5", "4"])
  {
    SwapEndSearch();
    SwapEndWalk();
    Pieces(Five, SwapEndDesired, ["1"], 2, ["2", "3"], ["4", "5"], ["5", "4"]);
    assert Reverse(["4", "5"]) == ["5", "4"];
  }

  const SwapCenterDesired: seq<Migration> := [Mig("2", "2", "2"), Mig("4", "4", "4"), Mig("3", "3", "3"), Mig("5", "5", "5")]

  lemma SwapCenterSearch()
    ensures Dropped(Names(Five), Names(SwapCenterDesired)) == ["1"] && Kept(Names(Five), Names(SwapCenterDesired)) == ["2", "3", "4", "5"]
  {
    KeptAt(Five, SwapCenterDesired, 1);
    var applied: seq<string> := ["1", "2", "3", "4", "5"];
    assert Names(Five) == applied;
    assert applied[..1] == ["1"] && applied[1..] == ["2", "3", "4", "5"];
  }

  lemma SwapCenterWalk()
    ensures Matched(Five, SwapCenterDesired) == 1
  {
    SwapCenterSearch();
    FiveNames();
    assert Names(SwapCenterDesired) == ["2", "4", "3", "5"];
    MatchedAt(Five, SwapCenterDesired, ["2", "3", "4", "5"], 1, 1);
  }

  /** "Swap center": swapping 3 and 4 ends the walk at 2: 3, 4 and 5 are removed and added in the new order. */
  lemma SwapCenterCase()
    ensures Process.ProcessPlan(Five, SwapCenterDesired) == Layout([], ["1"], ["2"], ["5", "4", "3"], ["4", "3", "5"])
    ensures Migrator.MigratorPlan(Five, SwapCenterDesired) == Layout([], ["1"], ["2"], ["3", "4", "5"], ["4", "3", "5"])
  {
    SwapCenterSearch();
    SwapCenterWalk();
    Pieces(Five, SwapCenterDesired, ["1"], 1, ["2"], ["3", "4", "5"], ["4", "3", "5"]);
    assert Reverse(["3", "4", "5"]) == ["5", "4", "3"];
  }

  const MixedDesired: seq<Migration> := [Mig("2", "2", "2"), Mig("4", "4.1", "4.2"), Mig("5", "5", "5"), Mig("6", "6", "6")]

  lemma MixedSearch()
    ensures Dropped(Names(Five), Names(MixedDesired)) == ["1"] && Kept(Names(Five), Names(MixedDesired)) == ["2", "3", "4", "5"]
  {
    KeptAt(Five, MixedDesired, 1);
    var applied: seq<string> := ["1", "2", "3", "4", "5"];
    assert Names(Five) == applied;
    assert applied[..1] == ["1"] && applied[1..] == ["2", "3", "4", "5"];
  }

  lemma MixedWalk()
    ensures Matched(Five, MixedDesired) == 1
  {
    MixedSearch();
    FiveNames();
    assert Names(MixedDesired) == ["2", "4", "5", "6"];
    MatchedAt(Five, MixedDesired, ["2", "3", "4", "5"], 1, 1);
  }

  /** "Mixed": a changed 4, a dropped 3 and a new 6: the walk ends at 2, everything after it is removed and the new tail added. */
  lemma MixedCase()
    ensures Process.ProcessPlan(Five, MixedDesired) == Layout([], ["1"], ["2"], ["5", "4", "3"], ["4", "5", "6"])
    ensures Migrator.MigratorPlan(Five, MixedDesired) == Layout([], ["1"], ["2"], ["3", "4", "5"], ["4", "5", "6"])
  {
    MixedSearch();
    MixedWalk();
    Pieces(Five, MixedDesired, ["1"], 1, ["2"], ["3", "4", "5"], ["4", "5", "6"]);
    assert Reverse(["3", "4", "5"]) == ["5", "4", "3"];
  }

  // ---------------------------------------------------------------------------------------
  // migrate(): the "standard" test runs the plan of "Mixed" (its table names are test1 … test6)

  /**
   * On a store that tracks the five applied migrations and accepts every script, each step of
   * the "Mixed" plan is reported as a success, in plan order, and the transaction commits with
   * 1, 2, 4, 5 and 6 tracked.
   */
  lemma MixedMigrate(c: Contents)
    requires c.rows.Keys == {"1", "2", "3", "4", "5"}
    ensures var r := RunSteps(ClientClock, IndexByName(Five), IndexByName(MixedDesired),
                              Process.ProcessPlan(Five, MixedDesired), c, {});
      && r.fault.None?
      && r.notices == Successes(Layout([], ["1"], ["2"], ["5", "4", "3"], ["4", "5", "6"]))
      && r.contents.rows.Keys == {"1", "2", "4", "5", "6"}
  {
    MixedConsistent(c);
    MixedCase();
    Process.ProcessRunSucceeds(ClientClock, Five, MixedDesired, c, {});
    MixedKeys();
  }

  lemma MixedConsistent(c: Contents)
    requires c.rows.Keys == {"1", "2", "3", "4", "5"}
    ensures Consistent(Five, MixedDesired, c, {})
  {
    MixedSearch();
    MixedNames();
    assert NameSet(["1", "2", "3", "4", "5"]) == c.rows.Keys;
    forall i | 0 <= i < |MixedDesired| ensures MixedDesired[i].name !in ["1"] {
      assert Names(MixedDesired)[i] == MixedDesired[i].name;
    }
  }

  lemma MixedNames()
    ensures Names(Five) == ["1", "2", "3", "4", "5"] && Distinct(Names(Five))
    ensures Names(MixedDesired) == ["2", "4", "5", "6"] && Distinct(Names(MixedDesired))
  {
    assert Names(Five) == ["1", "2", "3", "4", "5"];
    assert Names(MixedDesired) == ["2", "4", "5", "6"];
  }

  lemma MixedKeys()
    ensures NameSet(Dropped(Names(Five), Names(MixedDesired))) + NameSet(Names(MixedDesired)) == {"1", "2", "4", "5", "6"}
  {
    MixedSearch();
    assert Names(MixedDesired) == ["2", "4", "5", "6"];
    assert NameSet(["1"]) + NameSet(["2", "4", "5", "6"]) == {"1", "2", "4", "5", "6"};
  }

  /** The notices of "standard" as the test lists them. */
  lemma MixedNotices()
    ensures Successes(Layout([], ["1"], ["2"], ["5", "4", "3"], ["4", "5", "6"]))
         == [Notice("1", Shrink, true), Notice("2", Skip, true), Notice("5", Remove, true),
             Notice("4", Remove, true), Notice("3", Remove, true), Notice("4", Add, true),
             Notice("5", Add, true), Notice("6", Add, true)]
  {
  }

  // ---------------------------------------------------------------------------------------
  // A shrunk name desired again

  /** Applied 1, 2, 3; desired 2, then 1 again. */
  const ReaddDesired: seq<Migration> := [Mig("2", "2", "2"), Mig("1", "1", "1")]

  lemma ReaddSearch()
    ensures Dropped(Names(Three), Names(ReaddDesired)) == ["1"] && Kept(Names(Three), Names(ReaddDesired)) == ["2", "3"]
  {
    KeptAt(Three, ReaddDesired, 1);
    var applied: seq<string> := ["1", "2", "3"];
    assert Names(Three) == applied;
    assert applied[..1] == ["1"] && applied[1..] == ["2", "3"];
  }

  lemma ReaddWalk()
    ensures Matched(Three, ReaddDesired) == 1
  {
    ReaddSearch();
    ThreeNames();
    assert Names(ReaddDesired) == ["2", "1"];
    MatchedAt(Three, ReaddDesired, ["2", "3"], 1, 1);
  }

  /** 1 is shrunk, 2 skipped, 3 removed, and 1 is added although its row was never deleted. */
  lemma ReaddCase()
    ensures Process.ProcessPlan(Three, ReaddDesired) == Layout([], ["1"], ["2"], ["3"], ["1"])
    ensures Migrator.MigratorPlan(Three, ReaddDesired) == Layout([], ["1"], ["2"], ["3"], ["1"])
  {
    ReaddSearch();
    ReaddWalk();
    Pieces(Three, ReaddDesired, ["1"], 1, ["2"], ["3"], ["1"]);
    assert Reverse(["3"]) == ["3"];
  }

  /**
   * That plan fails at its last step even when every script runs: the shrunk row of 1 is still
   * tracked, so the INSERT of the new 1 breaks the uniqueness of the name column, and the
   * transaction rolls back.
   */
  lemma ReaddFails(c: Contents)
    requires c.rows.Keys == {"1", "2", "3"}
    ensures var r := RunSteps(ClientClock, IndexByName(Three), IndexByName(ReaddDesired),
                              Process.ProcessPlan(Three, ReaddDesired), c, {});
      && r.fault == Some(DuplicateName("1"))
      && r.notices == Successes(Layout([], ["1"], ["2"], ["3"], [])) + [Notice("1", Add, false)]
  {
    ReaddCase();
    var t, m := IndexByName(Three), IndexByName(ReaddDesired);
    var x := Layout([], ["1"], ["2"], ["3"], []);
    ReaddSplit();
    ReaddPrefix(c);
    ReaddKnown();
    AddTrackedFails(ClientClock, t, m, x, "1", c, {});
  }

  lemma ReaddSplit()
    ensures Layout([], ["1"], ["2"], ["3"], ["1"]) == Layout([], ["1"], ["2"], ["3"], []) + [Step("1", Add)]
  {
  }

  /** Before the last step 1 is still tracked. */
  lemma ReaddPrefix(c: Contents)
    requires c.rows.Keys == {"1", "2", "3"}
    ensures var r := RunSteps(ClientClock, IndexByName(Three), IndexByName(ReaddDesired), Layout([], ["1"], ["2"], ["3"], []), c, {});
      r.fault.None? && r.notices == Successes(Layout([], ["1"], ["2"], ["3"], [])) && "1" in r.contents.rows
  {
    LayoutRun(ClientClock, IndexByName(Three), IndexByName(ReaddDesired), [], ["1"], ["2"], ["3"], [], c, {});
    assert NameSet(["3"]) == {"3"};
  }

  lemma ReaddKnown()
    ensures "1" in IndexByName(ReaddDesired) && IndexByName(ReaddDesired)["1"].doSql == "1"
  {
    assert Names(ReaddDesired) == ["2", "1"];
    IndexOfDistinct(ReaddDesired, 1);
  }
}
