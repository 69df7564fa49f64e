# do-migrate, modelled in Dafny

do-migrate keeps a PostgreSQL schema in step with an ordered list of SQL migrations. Each
migration is a name, a do script and an undo script. A tracking table records the migrations
already applied, with the SHA-256 digests of both scripts. An order file lists the migrations
wanted, in order. The model covers the core of the tool:

- the two **reconcilers**, `Process.inspect` (src/process.ts) and `Migrator.inspect`
  (src/migrator.ts). Each turns the applied list and the desired list into an ordered plan of
  Skip, Shrink, Remove, Add and Change steps. Each `inspect` is an imperative method with the
  source's loops, proved equal to a plan function (`ProcessPlan`, `MigratorPlan`). The shape of
  that plan is proved as lemmas: the shrink rule, the common prefix, the Remove order, the
  counts, the empty-desired case, and how the two reconcilers relate;
- the **applier**, `migrate` with its `remove`, `add` and `change` effects, in both files.
  The action loop runs inside one transaction, reports each step through `notify`, and stops
  at the first failure. The methods work on a `Store` object and are proved against the
  functions `RunSteps`, `RemoveEffect`, `AddEffect` and `ChangeEffect`. Lemmas give the notify
  trace, the first-failure rule, and success on a consistent store;
- the `Migration` value and the pure parts of `State` (src/state.ts): the hash defaults, the
  name indexes (last occurrence wins), the quoted table name, order-file splitting, and the
  mapping of rows and order lines to migrations;
- the small logic of src/db.ts: the `sql` template builder, the argument normalisation of `q`
  and `r`, the BEGIN / COMMIT / ROLLBACK protocol of `transaction`, and the refusal of nested
  transactions;
- the cases of test/process.test.ts, as lemmas on concrete inputs (module `Scenarios`).

Files, one module each: `wrappers.dfy` (Option / Result), `state.dfy`, `db.dfy`, `actions.dfy`
(the `Action` enum and the list functions both reconcilers share), `apply.dfy` (what running a
plan means), `process.dfy`, `migrator.dfy`, `scenarios.dfy`.

Modelling decisions:

- `hash` is a parameter `h: string -> string`, deterministic and otherwise unknown. The
  scenarios use the script text as its own digest, which separates distinct scripts as
  SHA-256 does on those inputs. They are worked examples for that stand-in hasher; the
  general lemmas hold for every `h`.
- The database is a `Store`: a map from name to tracking row, a journal of the statements that
  took effect, a log of the transaction-control statements, and the snapshot BEGIN takes. A
  set `broken` of scripts injects failure: running a broken script fails.
- The name column is UNIQUE (src/state.ts:116), so an INSERT of a name that is already tracked
  fails.
- `exec_date` is a `Stamp`. It is `ClientClock` for the `new Date()` of src/process.ts and
  `ServerNow` for the column default and `now()` of src/migrator.ts.
- `migrate`'s optional `notify` callback becomes the returned list of notices. Errors become a
  `Fault`, returned instead of thrown.
- `isReady`, the promise of the three loaders, is the `loaded` flag of `State`. `Init` runs the
  loaders in order on the rows and files it is given, and sets the flag only when all three
  succeed. `inspect` rejects with `NotLoaded` when the flag is down.

The empty desired list, as the code handles it:

- With an empty desired list, both `inspect`s fall through the `if` branch. The shrink pass
  finds nothing. The later loops then remove every applied name a second time.
- So src/process.ts yields each applied name as Remove forward and then reversed.
- src/migrator.ts yields each applied name as Remove forward twice.
- Every applied name is therefore removed twice (`ProcessEmptyDesired`,
  `MigratorEmptyDesired`), and running that plan runs each applied undo script twice
  (`ProcessEmptyRun`, `MigratorEmptyRun`).

A behaviour the proofs bring out (not claimed as a defect, since the intent is unclear):
Shrink drops a name from the comparison but leaves its tracking row. A desired list that names
a shrunk migration again, as in applied 1, 2, 3 and desired 2, 1, plans `Add 1`. That INSERT
breaks the uniqueness of the name column, and the whole transaction rolls back
(`Scenarios.ReaddFails`). `Apply.Consistent` therefore asks that no desired name is among the
shrunk ones.

## Model

| member | source | states |
|---|---|---|
| State.NewMigration | src/state.ts:33-39 | The name and scripts are kept. A given non-empty hash is kept. A missing or empty hash is the digest of its script. The `do`/`undo` getters return the same script and hash as `sql`/`hash`. |
| State.ComputedHashes | src/state.ts:37-38 | Built from name and scripts alone, the hashes are the digests of the do and undo scripts. |
| State.ExplicitHashesKept | test/state.test.ts:116-122 | Explicit non-empty hashes are stored unchanged, not recomputed. |
| State.StoreAndReload | src/state.ts:127-129 | A migration rebuilt from its stored row (name, scripts, both hashes) is equal to the original. |
| State.IndexByName | src/state.ts:80-91 | Every key of the name index maps to a migration of that name. |
| State.IndexByNameKeys | src/state.ts:80-91 | The index of `tableByName`/`migrationsByName` has exactly the names of the list as keys. Each key maps to a list member of that name. |
| State.LastOccurrenceWins | src/state.ts:81-84 | With duplicate names, the index holds the last migration of that name. |
| State.TableName | src/state.ts:93-96 | The quoted name is `"`, the schema, `"."`, the table and `"`: it opens with the quoted schema, closes with the quoted table, and is five characters longer than the two. |
| State.TableNameAmbiguous | src/state.ts:93-96 | Nothing is escaped: two different schema/table pairs render to the same quoted name. |
| State.TableNameInjective | src/state.ts:93-96 | When the schemas contain no double quote, equal table names come from equal schema and table. |
| State.SplitLines | src/state.ts:134 | `split('\n')` yields at least one part, and no part contains a newline. |
| State.NonEmpty | src/state.ts:134 | The filter keeps only non-empty entries of the input. It keeps everything when no entry is empty. A single entry is kept exactly when it is not empty. |
| State.NonEmptyAppend | src/state.ts:134 | The filter works entry by entry: filtering a concatenation is filtering each part, in order. With the single-entry case this determines the filter on every list. |
| State.OrderLines | src/state.ts:134 | Each order line is non-empty and free of newlines. |
| State.SplitAppend | src/state.ts:134 | Splitting at a newline gives the parts before it followed by the parts after it. |
| State.OrderLinesAppend | src/state.ts:134 | The order lines of two texts joined by a newline are those of the first, then those of the second. |
| State.OrderLinesLine | src/state.ts:134 | A text without newlines is one order line, or none when it is empty. |
| State.OrderTrailingNewline | src/state.ts:134 | A newline after the last name adds no order line. |
| State.OrderBlankLine | src/state.ts:134 | A blank line between two groups of names is dropped; the lines are the two groups in order. |
| State.JoinSplit | src/state.ts:134 | Joining the parts of a split with newlines gives back the text. |
| State.SplitJoin | src/state.ts:134 | Splitting newline-free parts joined with newlines gives back the parts. |
| State.OrderRoundTrip | src/state.ts:134 | An order file written one non-empty name per line is read back as exactly those names, in order. |
| State.FromRows | src/state.ts:127-129 | One migration per row, in order, with the row's name and scripts. Non-empty stored hashes are carried over. |
| State.FromOrder | src/state.ts:137-150 | Fails exactly when a script file of some order line is missing. Otherwise it yields one migration per order line, in order, with the file contents and computed hashes. |
| State.State.Init | src/state.ts:98-111 | `init` runs the three loaders in order and stops at the first failure. The state is loaded exactly when the rows were selected, the order file was read, and every script file of the order was found. Each field is the loader's result when its loader ran. |
| State.State.InitTable | src/state.ts:113-130 | `table` becomes the migrations of the selected rows, and nothing else changes. |
| State.State.InitOrder | src/state.ts:132-135 | `order` becomes the non-empty lines of the order file. |
| State.State.InitMigrations | src/state.ts:137-150 | On success `migrations` is the order-line mapping. On a missing file, `migrations` is unchanged. |
| State.State.TableByName | src/state.ts:80-85 | The `reduce` over `table` builds the name index. |
| State.State.MigrationsByName | src/state.ts:86-91 | The `reduce` over `migrations` builds the name index. |
| State.ByName | src/state.ts:81-84 | The accumulating loop of `reduce` writes `mem[name] = migration` for each migration and returns the name index. |
| Db.Sql | src/db.ts:101-114 | The built query is the template parts in order, with `$k` after part k-1 exactly when an argument follows it, numbered 1, 2, … consecutively. There are min(parts, arguments) values, and each one is the `values` array itself. |
| Db.PiecesParams | src/db.ts:105-111 | The placeholder numbers are exactly 1, 2, …, min(\|parts\|, \|vars\|). |
| Db.Range | src/db.ts:108-109 | The consecutive numbers from lo to hi. |
| Db.SqlDropsArgument | src/db.ts:108 | For the template `a = ${7}` the query is `a = $1`, but the bound value is the values array, not 7. |
| Db.SqlIntended | src/db.ts:101-114 | The intended builder gives the same query text and binds placeholder `$k` to argument k. |
| Db.Normalize | src/db.ts:46-57 | An object argument supplies the text and, when truthy, its own values. Otherwise the positional values are used. Any non-array becomes the empty list. |
| Db.RRequest | src/db.ts:59-64 | The request `r` sends: a text query goes as `q` would send it; an object query goes with its own text and its own values only when they are an array, and never with positional values. |
| Db.Rows | src/db.ts:61-66 | `r` answers with the `rows` of the result `q` gets: for a text query, the rows of `q(query, values)`; for an object query, the rows of `q(query)`. |
| Db.RDropsPositionalValues | src/db.ts:59-67 | `r` called with an object never forwards positional values, where `q` would. |
| Db.Exec | src/db.ts:56 | A script fails exactly when it is broken. Otherwise it is journalled and the rows are unchanged. |
| Db.Insert | src/state.ts:116 | The INSERT fails with the duplicate name exactly when the name is tracked. Otherwise that row is added. |
| Db.Update | src/process.ts:140-154 | The UPDATE replaces the row of that name if there is one, and otherwise changes no row. |
| Db.Delete | src/process.ts:110 | The DELETE removes that name's row and keeps every other row. |
| Db.NestedTransaction | src/db.ts:93-98 | `transaction` on a transaction handle always rejects with the nesting error. |
| Db.Store.Begin | src/db.ts:75 | BEGIN snapshots the contents and logs the statement. |
| Db.Store.Commit | src/db.ts:81 | COMMIT keeps the contents and drops the snapshot. |
| Db.Store.Rollback | src/db.ts:86 | ROLLBACK restores the snapshot. |
| Db.Store.Release | src/db.ts:82 | Release only logs. |
| Db.Store.Run | src/db.ts:46-57 | A script runs as `Exec` says, and a failure leaves the store as it was. |
| Db.Store.InsertRow | src/process.ts:119-127 | The INSERT runs as `Insert` says. |
| Db.Store.UpdateRow | src/process.ts:140-154 | The UPDATE runs as `Update` says. |
| Db.Store.DeleteRow | src/process.ts:110 | The DELETE runs as `Delete` says. |
| Actions.Tag | src/process.ts:34-36 | Tagging pairs each name, in order, with one action. |
| Actions.Reverse | src/process.ts:61-63 | The reversal of a list, position by position. |
| Actions.TagReverse | src/process.ts:61-63 | Reversing a tagged block equals tagging the reversed names. |
| Actions.Of | src/process.ts:69 | The names of the steps carrying one action, in order. |
| Actions.Names | src/process.ts:28-29 | The `map` to names: one name per migration, and position i holds the name of migration i. |
| Actions.NamesIndexed | src/process.ts:53 | Every name of the list is a key of its own index, and maps to a migration of that name, so `tableByName[table[i]]` never misses. |
| Actions.IndexOfDistinct | src/state.ts:80-91 | With distinct names, the index maps each migration's name to that migration. |
| Actions.NameSetReverse | src/process.ts:61-63 | Reversing a list keeps its set of names. |
| Actions.IndexOf | src/process.ts:39 | `indexOf`: the first position of the name, or -1 when it is absent. |
| Actions.Dropped | src/process.ts:39-44 | The names the shrink pass drops are a prefix of the applied names. They are non-empty only when `desired[0]` occurs later, and `desired[0]` is not among them. |
| Actions.Kept | src/process.ts:42 | What the `splice` leaves is the rest of the applied names. When `desired[0]` is applied, the rest starts with it. |
| Actions.PrefixLength | src/process.ts:51-59 | The lockstep walk stops at k. The first k positions agree on name and do-hash. Position k disagrees, unless a list ran out. |
| Actions.PrefixCommon | src/process.ts:51-59 | The skipped names are a common prefix of the kept and the desired names. |
| Actions.PrefixExact | src/process.ts:51-59 | Any d with agreement before it and disagreement at it is the walk's length. |
| Actions.PrefixFull | src/process.ts:51-59 | When the lists agree at every position, the walk covers them entirely. |
| Actions.SameDoHashes | src/process.ts:53 | Lists with the same names and do-hashes, position by position, give the same do-hash lookups. |
| Actions.PrefixSameHashes | src/process.ts:51-59 | The walk depends on the indexes only through their do-hashes. |
| Actions.SameMatched | src/process.ts:28-29 | Two tables and two desired lists that agree, position by position, on name and do-hash have the same names and the same walk length. |
| Actions.LayoutOf | src/process.ts:69 | Reading a five-block plan back by action gives its blocks. |
| Actions.LayoutShrinkFirst | src/process.ts:41-44 | The Shrinks open the plan, in applied order. |
| Actions.LayoutReverseRemoved | src/migrator.ts:61-64 | Reversing the second Remove block of a plan reverses those names and leaves the other blocks. |
| Actions.LayoutPositions | src/process.ts:69 | The Skips sit between the Shrinks and the Removes. The Removes sit before the Shrinks or right after the Skips. |
| Actions.LayoutLatch | src/migrator.ts:42-59 | Without both leading Removes and Skips, no Skip follows a Remove. |
| Actions.PushTagged | src/process.ts:34-36 | The `forEach` that pushes a tagged step per name appends exactly the tagged names. |
| Process.UnshiftTagged | src/process.ts:61-63 | Unshifting a Remove per name yields the names tagged in reverse order. |
| Process.SkipWalk | src/process.ts:49-59 | The `while` loop ends at the walk's length, with one Skip per agreeing name. |
| Process.Inspect | src/process.ts:25-70 | `inspect` rejects with `NotLoaded` when the state is not loaded. Otherwise it returns `ProcessPlan` of the state's table and migrations. |
| Process.ProcessBlocks | src/process.ts:33-69 | Every plan reads as blocks. Shrink is the dropped names and Skip the common prefix. Remove is, for empty desired, the applied names, then the rest of the kept names reversed. Add is the rest of the desired names. There is no Change. |
| Process.ProcessCounts | src/process.ts:39-67 | For non-empty desired: #Shrink + #Skip + #Remove = \|applied\|, #Skip + #Add = \|desired\|, and #Change = 0. |
| Process.ProcessRemoveBlock | src/process.ts:61-69 | For non-empty desired, the Removes are one contiguous block ending at position \|applied\|. |
| Process.ProcessNeverChanges | src/process.ts:39-67 | No step of any plan is a Change. |
| Process.ProcessShrinkRule | src/process.ts:39-44 | Let s be the first applied position of `desired[0]`. The plan opens with Shrink for `applied[..s]`, and these are all the Shrinks. There are none when `desired[0]` is absent. |
| Process.ProcessSkipPrefix | src/process.ts:51-59 | The Skips are a common prefix of the kept and the desired names. They agree on name and do-hash, and the next position disagrees. |
| Process.ProcessIgnoresUndo | src/process.ts:28-69 | Changing only the undo scripts, undo hashes or do scripts, of the applied list and of the desired list alike, while keeping names and do-hashes, leaves the plan unchanged. |
| Process.ProcessNoChanges | src/process.ts:51-59 | With the same names and do-hashes on both sides, the plan is one Skip per name, in order. |
| Process.ProcessEmptyDesired | src/process.ts:33-37 | With nothing desired, every applied name is removed forward and then again in reverse. |
| Process.ProcessEmptyRun | src/process.ts:104-111 | On a consistent store with nothing desired, running the plan journals each applied name's undo script and DELETE forward, and then the same again in reverse order: every undo script runs twice. |
| Process.ProcessRunSucceeds | src/process.ts:72-101 | Take a store that tracks the applied names, unique names, scripts that all run, and no desired name among the shrunk ones. Every step of the plan then succeeds, the notices are one success per step, and the store ends up tracking the shrunk and the desired names. With nothing desired this rests on scripts whose outcome ignores earlier statements (see Left out). |
| Process.RemoveStep | src/process.ts:104-111 | `remove` has the effect `RemoveEffect` describes, and a failure leaves the store as it was. |
| Process.AddStep | src/process.ts:113-128 | `add` has the effect `AddEffect` describes, stamped with the client clock. |
| Process.ChangeStep | src/process.ts:130-155 | `change` has the effect `ChangeEffect` describes. |
| Process.ApplyStep | src/process.ts:83-93 | The `switch` has the effect `StepEffect` describes. Skip and Shrink do nothing. |
| Process.RunActions | src/process.ts:79-100 | The notices and error of the loop are those of `RunSteps`, and so are the reached contents. |
| Process.ChooseActions | src/process.ts:76 | The caller's actions when given. Otherwise `inspect`'s plan, or `NotLoaded` when the state is not loaded. |
| Process.Transact | src/db.ts:69-90 | BEGIN, the loop, then COMMIT on success or ROLLBACK to the start on failure, then release. |
| Process.Migrate | src/process.ts:72-102 | Without caller actions on an unloaded state, `migrate` rejects with `NotLoaded` before BEGIN and changes nothing. Otherwise it returns the notices and error of running the chosen actions. The store ends with the run's contents on success, or its old contents on failure. The control log is BEGIN, COMMIT or ROLLBACK, then release. |
| Migrator.LatchWalk | src/migrator.ts:42-59 | At the end of the first `while`, `iNew` is the walk's length. The steps are Skip for the agreeing prefix, then Remove for every later name visited. |
| Migrator.Inspect | src/migrator.ts:21-71 | `inspect` rejects with `NotLoaded` when the state is not loaded. Otherwise it returns `MigratorPlan` of the state's table and migrations. |
| Migrator.MigratorBlocks | src/migrator.ts:29-68 | The blocks are as for src/process.ts, except that the Removes after the prefix are in applied order. |
| Migrator.MigratorReversesProcess | src/migrator.ts:21-71 | For all inputs, this plan is the plan of src/process.ts with the Removes after the common prefix reversed. |
| Migrator.ProcessReversesMigrator | src/process.ts:61-63 | Conversely, reversing that block of this plan gives the plan of src/process.ts. |
| Migrator.TailBounds | src/migrator.ts:46-64 | For non-empty desired, the reversed block starts after the Shrinks and Skips and ends at \|applied\|. |
| Migrator.MigratorCounts | src/migrator.ts:35-68 | For non-empty desired: #Shrink + #Skip + #Remove = \|applied\|, #Skip + #Add = \|desired\|, and #Change = 0. |
| Migrator.MigratorNeverChanges | src/migrator.ts:35-68 | No step of any plan is a Change. |
| Migrator.MigratorLatch | src/migrator.ts:42-59 | Once a Remove appears, no Skip follows. The Adds are the desired names from the number of Skips on, because `iNew` stopped at the first difference. |
| Migrator.MigratorShrinkRule | src/migrator.ts:35-40 | Same shrink rule as src/process.ts. |
| Migrator.MigratorEmptyDesired | src/migrator.ts:29-33 | With nothing desired, every applied name is removed twice, both times forward. |
| Migrator.MigratorEmptyRun | src/migrator.ts:103-110 | On a consistent store with nothing desired, running the plan journals each applied name's undo script and DELETE forward, twice over: every undo script runs twice. |
| Migrator.MigratorRunSucceeds | src/migrator.ts:73-101 | On a consistent store every step succeeds, and the store ends up tracking the shrunk and the desired names. With nothing desired this rests on scripts whose outcome ignores earlier statements (see Left out). |
| Migrator.MigratorIgnoresUndo | src/migrator.ts:24-68 | Changing anything but names and do-hashes, on either side, leaves the plan unchanged. |
| Migrator.MigratorNoChanges | src/migrator.ts:46-59 | With the same names and do-hashes on both sides, the plan is one Skip per name, in order. |
| Migrator.RemoveStep | src/migrator.ts:103-110 | `remove` has the effect `RemoveEffect` describes. |
| Migrator.AddStep | src/migrator.ts:112-126 | `add` has the effect `AddEffect` describes, stamped by the server default. |
| Migrator.ChangeStep | src/migrator.ts:128-140 | `change` has the effect `ChangeEffect` describes, stamped `now()`. |
| Migrator.ApplyStep | src/migrator.ts:82-92 | The `switch` has the effect `StepEffect` describes. |
| Migrator.RunActions | src/migrator.ts:80-99 | The loop follows `RunSteps` with server stamps. |
| Migrator.ChooseActions | src/migrator.ts:77 | The caller's actions when given. Otherwise `inspect`'s plan, or `NotLoaded` when the state is not loaded. |
| Migrator.Transact | src/db.ts:69-90 | The transaction protocol around the loop. |
| Migrator.Migrate | src/migrator.ts:73-101 | `migrate`: `NotLoaded` before BEGIN when it has to inspect an unloaded state; otherwise commit with the run's contents on success, roll back to the old contents on failure. |
| Apply.RemoveEffect | src/process.ts:104-111 | On success the tracked names lose exactly that name. A failure is the known record's undo script failing. |
| Apply.AddEffect | src/process.ts:113-128 | Success needs a known, untracked migration, and adds exactly that name. An unknown name fails with `MissingMigration`. |
| Apply.ChangeEffect | src/process.ts:130-155 | Success needs a known migration and keeps the set of tracked names. |
| Apply.RunStepsStep | src/process.ts:79-100 | One iteration of the loop: one notice for the first step, then either stop with its error or continue. |
| Apply.RemoveMeaning | src/process.ts:104-111 | A remove fails exactly when the known record's undo script fails. Otherwise that row is deleted, the others are kept, and the undo script is journalled before the DELETE. |
| Apply.AddMeaning | src/process.ts:113-128 | An add succeeds exactly when the migration is known, its do script runs, and the name is untracked. An unknown name fails before anything runs. The new row carries both scripts and hashes. |
| Apply.ChangeMeaning | src/process.ts:130-155 | A change succeeds exactly when the known undo script and the desired do script run. Only that row is updated, undo first, then do, then UPDATE. |
| Apply.NotifyTrace | src/process.ts:79-100 | There is one notice per attempted step, in order, with that step's name and action. All notices but the last are successes. There is no error exactly when every step succeeded, and an error exactly when the last notice is a failure. |
| Apply.FirstFailureStops | src/process.ts:96-98 | The first failing step k ends the run with k+1 notices and its error. Nothing after it runs. |
| Apply.Successes | src/process.ts:95 | One success notice per step, in order. |
| Apply.PassiveRun | src/process.ts:83-93 | Skips and Shrinks change nothing and each report success. |
| Apply.RunAppend | src/process.ts:79-100 | Running two lists in a row is the first run, followed by the second when the first succeeded. |
| Apply.AddTrackedFails | src/state.ts:116 | A run that ends by adding a still-tracked name fails there, with that name as the error, after the earlier steps succeeded. |
| Apply.RunRemoves | src/process.ts:104-111 | Removes whose undo scripts run all succeed, and untrack their names. |
| Apply.RunAdds | src/process.ts:113-128 | Adds of distinct, known, untracked migrations whose do scripts run all succeed, and track their names. |
| Apply.LayoutRun | src/process.ts:69 | A five-block plan whose scripts run, and whose added names are untracked once the Removes are done, succeeds at every step. It leaves the tracked names minus the removed ones plus the added ones. |
| Apply.RemoveJournalHas | src/process.ts:104-111 | The journal of a remove block holds a DELETE for every name, and the undo script of every known name. |
| Apply.RemovesJournal | src/process.ts:104-111 | Removes whose undo scripts run succeed and journal, name by name, the undo script (when known) and then the DELETE. |
| Apply.EmptyDesiredRun | src/process.ts:33-37 | Removing every applied name and then the same names again, in any order, succeeds on a consistent store. The journal is both remove journals in turn, so each undo script appears in both. |
| Apply.ReconciledRun | src/process.ts:61-69 | On a consistent store, both reconcilers' plans (for either order of the Remove block) succeed. They leave the shrunk and the desired names tracked. With nothing desired this rests on scripts whose outcome ignores earlier statements (see Left out). |
| Scenarios.NoChangesCase | test/process.test.ts:18-43 | "No changes": Skip 1, 2, 3 for both reconcilers. |
| Scenarios.ShrinkCase | test/process.test.ts:45-74 | "Shrink": Shrink 1, 2, then Skip 3, 4, 5. |
| Scenarios.AddCase | test/process.test.ts:76-103 | "Add": Shrink 1, 2, Skip 3, Add 4, 5. |
| Scenarios.ChangeSimpleCase | test/process.test.ts:105-135 | "Change simple": Shrink 1, 2, Skip 3, 4, Remove 5, Add 5. |
| Scenarios.ChangeCenterCase | test/process.test.ts:137-171 | "Change center": Skip 1, 2, Remove 5, 4, 3, Add 3, 4, 5. src/migrator.ts removes 3, 4, 5. |
| Scenarios.AddCenterCase | test/process.test.ts:173-207 | "Add center": Shrink 1, Skip 2, 3, Remove 5, 4, Add 6, 4, 5; src/migrator.ts removes 4, 5. |
| Scenarios.RemoveCenterCase | test/process.test.ts:209-240 | "Remove center": Shrink 1, Skip 2, Remove 5, 4, 3, Add 4, 5; src/migrator.ts removes 3, 4, 5. |
| Scenarios.SwapEndCase | test/process.test.ts:242-274 | "Swap end": Shrink 1, Skip 2, 3, Remove 5, 4, Add 5, 4; src/migrator.ts removes 4, 5. |
| Scenarios.SwapCenterCase | test/process.test.ts:276-309 | "Swap center": Shrink 1, Skip 2, Remove 5, 4, 3, Add 4, 3, 5; src/migrator.ts removes 3, 4, 5. |
| Scenarios.MixedCase | test/process.test.ts:311-345 | "Mixed": Shrink 1, Skip 2, Remove 5, 4, 3, Add 4, 5, 6; src/migrator.ts removes 3, 4, 5. |
| Scenarios.MixedMigrate | test/process.test.ts:348-383 | `migrate()` "standard", whose inputs have the shape of "Mixed". On a store tracking the five applied names with scripts that all run, every step succeeds, and 1, 2, 4, 5, 6 end up tracked. |
| Scenarios.MixedNotices | test/process.test.ts:372-381 | The notices are the eight successes the test expects, in its order. |
| Scenarios.ReaddCase | src/process.ts:39-69 | Applied 1, 2, 3 and desired 2, 1: Shrink 1, Skip 2, Remove 3, Add 1. |
| Scenarios.ReaddFails | src/process.ts:113-128 | For that plan, the Add of 1 hits the UNIQUE name and the run fails with `DuplicateName("1")` after three successes. |

## Left out

- I/O: reading the order and script files, the CREATE TABLE bootstrap and the SELECT of
  src/state.ts. The model takes rows and file contents as parameters. The `Promise.all` of
  `initMigrations` is left out; only its order-preserving result is modelled.
- src/cli.ts, src/config.ts and src/index.ts: argument parsing, environment reading, and a
  facade that exports `Migrator` under the name `Process`. These are not part of this model.
- SHA-256 (FIPS 180-4) is an uninterpreted hash function, so no property depends on its values.
- The pg Pool and PoolClient, and the real SQL meaning of the do and undo scripts. A script
  either runs, and is journalled, or is rejected, when it is in `broken`.
- Dates: `new Date()` and `now()` are the two `Stamp` values. The `sleep(100)` before each
  action of src/process.ts is left out, since it only spaces out the timestamps.
- Db.Exec: a script's outcome depends only on `broken`, not on the statements run before it.
  So the empty-desired plan, which runs each applied undo script twice (`Process.ProcessEmptyRun`,
  `Migrator.MigratorEmptyRun`), succeeds in the model, where a second DROP of the same object
  would fail on a server.
- Process.ProcessRunSucceeds, Migrator.MigratorRunSucceeds, Apply.ReconciledRun: with nothing
  desired, their success rests on the `Db.Exec` simplification above.
- `migrate` with caller-given actions does not await `isReady` in the source; the model runs
  them on the state's fields as they stand.
- BEGIN, COMMIT, ROLLBACK and the client release never fail in the model. A failure of COMMIT
  itself, which would trigger a ROLLBACK and a rethrow, is not modelled.
- A `notify` callback that throws: the callback is modelled as the returned notice list.
- JavaScript lookups of inherited property names are not modelled; the name indexes are maps.
  The hazard is a lookup of a name missing from an accumulator: a caller-given
  `remove("constructor")` reads `.sql.undo` of `Object.prototype.constructor` and throws, where
  the model skips the undo and succeeds.
- Db.NestedTransaction: only the rejection is modelled. No caller in the core can reach a
  nested transaction, since `migrate` hands the runner a `DBTransaction`.
- In the process tests, the mocks of test/mocks.ts answer every query with no rows (they can
  be configured with rows), and their `transaction` does not roll back. The scenarios use the real protocol on a store that tracks the applied
  migrations.

## Findings

| source | as written | input that shows it | evidently intended | confidence | as-written member | corrected member |
|---|---|---|---|---|---|---|
| src/db.ts:108 | `values.push(values)` stores the `values` array itself for each interpolated argument | the template `a = ${7}`: the query is `a = $1` and the values are `[values]`, not `[7]` | push the argument, `values.push(vars[index])`, so `$k` is bound to argument k | not executed | Db.SqlDropsArgument | Db.SqlIntended |
