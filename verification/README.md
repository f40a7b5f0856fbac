# LemonDB, verified

A Dafny 4.11 model of LemonDB's table store, its queries on both execution paths, its thread pool, its dump format, its query
grammar and its LISTEN stack. `dafny verify dfyconfig.toml` checks everything.

## What is modelled

- **Tables** (`Tables`): `Table` keeps the row vector, the key index and the field index as fields that its methods reassign.
  The invariant is that vector and index are exact inverses; the plain meaning of a table is a finite map from key to values.
- **Queries** (`Conditions`, `Queries`, `Rewrites`, `Aggregates`, `Selects`, `Changes`, `Commands`): every `execute()` is a method
  with the source's loops. Each is proved against a specification on rows and index.
- **The pool** (`Pool`): a step system with any number of workers and any data that tasks step over. A step is one critical
  section of `lockx`, one atomic update of `idleThreadNum`, or one step of a task body.
- **The parallel paths** (`Partition`, `ParallelRewrites`, `ParallelScans`): the tasks of ADD, SUB and SWAP take one step per
  condition or cell access on the shared table; the tasks of the reading queries take one step per row and one for the
  mutex-guarded merge. `Paths` states which table and answer any complete run of the pool may leave, and proves that they are
  those of the sequential loop.
- **Whole runs** (`PlainMap`, `Store`): any sequence of queries, each on either path, on vector and index together, against a
  plain key-to-values map.
- **Promises** (`Laws`, with the parts in `Conditions`, `Queries`, `Rewrites`, `Aggregates` and `Selects`): what each query does,
  said on cells, keys and the conditions as written, without any function that computes it. `Laws.StepObeys` proves it for both
  paths.
- **Dump and load** (`Text`, `DumpLoad`, `RoundTrip`, `TableText`), **printed answers** (`Listings`), **grammar** (`Grammar`),
  **LISTEN** (`Listen`).

## Conventions

- `int` is 32-bit two's complement: `Values.Int32` with `Values.Wrap` after each addition and subtraction. In C++ such an
  overflow is undefined; `ParallelScans.SumNeverOverflows` and `Aggregates.SequentialAdditionFits` say when none happens.
  Counters are taken to stay in range, as they do for tables of fewer than 2^31 rows.
- An exception that `execute()` turns into an error message is the answer `Failed`; a null result is `Null`. Which message it
  is is not modelled.
- Condition values and inserted values come with the integer that `strtol` reads in them (`QueryCondition.number`, the
  parameter `numbers`).
- Where a statement says so (`Conditions.KeysNamed`), the values of KEY conditions are not empty, as no token is.
- Files are character sequences, results are values, and a SELECT queue holds row positions instead of iterators.
- `std::priority_queue::top` is "an element that precedes all others"; which one among several candidates is left open.
  `notify_one` releases any one waiter, or none exactly when nobody waits; waits may end spuriously.

## What the code assumes without checking

- Every row has one value per field (`Table.Rectangular`), and no two rows come to have one key. INSERT with the wrong number
  of values breaks the first, UPDATE of KEY to a key that is held breaks the second (`Changes.ExecuteUpdateKey` states exactly
  when, `Changes.RenameCollides` names a case). `Commands.Execute` takes every query and
  states exactly when either survives it; a run (`Store.IsRun`) asks of each query that it is harmless where it is asked
  (`Commands.Orderly`).
- The SELECT queue is empty on entry. It is empty again unless printing met an unknown operand, which leaves all its entries
  behind; `Commands.Execute` states exactly when, and `Commands.Orderly` excludes it.
- On the pool's path every operand of ADD, SUB, SUM, MIN and MAX is a field of the table. Otherwise a task throws and the other
  tasks outlive the query.
- `done` stays false while queries run.
- DUPLICATE on the pool with a false flag adds up counters that nobody set. `Paths.DuplicateCountExact` shows that the count
  is right for every content of those counters if and only if the flag was true.
- The tokens `op (` make the parser read past the end of its list, and a table header that says 0 fields makes the loader look
  at the front of an empty list. The first is excluded by a precondition for the texts that reach that parser, the second is the result `Undefined`.

## Findings

- The constructor of the pool already starts one worker and `pool_set(temp)` starts `temp` more, while `idleThreadNum` is set
  to `temp`. With all workers busy the counter is -1, which `Thread_count()` callers convert to a large unsigned number
  (`Pool.PoolSafety`); `Pool.IdleGoesNegative` constructs a run that gets there.
- The dump of a table loads back if and only if all field names have at most 9 characters, all values are at most 999999999,
  and the first value of each row is at least -99999999. Later values may be any negative number, since a minus sign separates
  columns that touch. A dump that does not come back does not load at all (`RoundTrip.DumpLoadRoundTrip`);
  `RoundTrip.TenDigitsLost` names one.
- The comparator of the SELECT queue is not irreflexive. On distinct rows of a table it is a strict total order
  (`Selects.PrioritizeStrict`), and no row is ever in the queue twice.
- Any query text that contains LISTEN anywhere is taken for a LISTEN (`Listen.MainLoop`).

## Model

| member | source | states |
|---|---|---|
| `Values.WrapIsCongruent` | src/db/Table.h:43-47 | the stored number is in the range of a 32-bit int and differs from the exact one by a multiple of 2^32 |
| `Values.KeyLessIsBefore` | src/query/data/SelectQuery.cpp:12-14 | a key is less than another exactly if it is a proper prefix of it or smaller at the first character where they differ |
| `Tables.ExactIffSizes` | src/db/Table.h:87-92 | every row indexed at its own position together with an index of the same size is the same as vector and index being exact inverses |
| `Tables.LookUp` | src/db/Table.cpp:36-47 | the index has a key exactly if some row has it, and then leads to that row |
| `Tables.DeleteExact` | src/db/Table.h:296-302 | moving the last row into the gap, pointing its entry there and erasing the key keeps the pair exact, also when the deleted row is the last |
| `Tables.DeleteFromMap` | src/db/Table.h:296-302 | swap-with-last removes exactly one key from the plain map and changes no other entry |
| `Tables.DeleteKeeps` | src/db/Table.h:296-302 | the looked-up position is that of the row, and the swap keeps the pair exact, the rows wide and all other entries of the plain map |
| `Tables.RenameExact` | src/db/Table.h:132-138 | renaming one row keeps the pair exact if and only if no other row holds the new key |
| `Tables.Table.Create` | src/db/Table.h:417-427 | a field called KEY is refused; otherwise an empty table whose field index gives each name its first position |
| `Tables.Table.Copy` | src/db/Table.h:273-275 | a copy with the same rows, index and fields under a new name |
| `Tables.Table.Lookup` | src/db/Table.cpp:36-47 | the position of the row with the key, or none exactly when no row has it |
| `Tables.Table.InsertByKey` | src/db/Table.cpp:25-34 | appends the row, or refuses and changes nothing exactly when the key is held; the pair stays exact |
| `Tables.Table.DeleteDatum` | src/db/Table.h:296-302 | the last row takes the place of the deleted one, the plain map loses that key alone, the pair stays exact |
| `Tables.Table.SetKey` | src/db/Table.h:132-138 | erases the old entry, adds one for the new key unless there is one already, and renames the row |
| `Tables.Table.EvalDuplicate` | src/db/Table.h:317-322 | true exactly when no row holds the key with `_copy` appended |
| `Tables.Table.DuplicateByKey` | src/db/Table.h:328-332 | appends a row under the copied key with the values of the original, or refuses exactly when that key is held |
| `Tables.Table.Clear` | src/db/Table.h:375-380 | empties the table and returns how many rows it had |
| `Conditions.ComplexQuery.InitCondition` | src/query/Query.cpp:9-57 | prepares the conditions in place with the early return and the key of the KEY conditions; it throws exactly if the query must be refused, and otherwise flag and prepared conditions pick exactly the rows that satisfy the conditions as written |
| `Conditions.ComplexQuery.EvalCondition` | src/query/Query.cpp:59-69 | true exactly when every KEY condition names the row's key and every other prepared comparison, spelled out as one of >, <, =, >=, <= between integers, holds of its cell |
| `Conditions.InitSound` | src/query/Query.cpp:14-56 | a false flag means that no row satisfies the conditions as written; with a true flag the prepared conditions hold of exactly the rows whose key is the named one and whose cells compare, by the operator's text, with the given number |
| `Conditions.InitThrows` | src/query/Query.cpp:14-35 | initCondition throws if and only if, before any two KEY conditions contradict each other, a KEY condition says anything but =, a field is unknown, or an operator is none of the five |
| `Queries.WherePicks` | src/query/Query.cpp:9-69 | a WHERE is refused exactly as stated above, and otherwise the matching rows and their count are those that satisfy every condition as written |
| `Conditions.FlagExact` | src/query/Query.cpp:15-23 | with non-empty KEY values the flag is false exactly when two KEY conditions name different keys |
| `Conditions.InitInitialised` | src/query/Query.cpp:25-53 | with a true flag every non-KEY condition has a comparison and a field inside the row |
| `Conditions.InitIdempotent` | src/query/data/SwapQuery.cpp:43-48 | running initCondition on its own output changes neither conditions nor result |
| `Queries.TestKeyCondition` | src/query/Query.cpp:71-88 | the index short-cut hands over the one row that a full scan finds, or none exactly when the scan finds none |
| `Partition.RangesTile` | src/query/data/CountQuery.cpp:18-21 | each range lies in the table, starts where the one before it stops, and the last stops at the end |
| `Partition.RangesDisjoint` | src/query/data/CountQuery.cpp:18-21 | ranges of different tasks share no row |
| `Partition.RangesCover` | src/query/data/CountQuery.cpp:54-60 | every row belongs to exactly one task |
| `Partition.SizesFit` | src/query/data/CountQuery.cpp:54-57 | from 2000 rows on there are at least two tasks, 1000 to 1999 rows a range, the exact size of the last range, and no head beyond the table size |
| `Pool.StartInv` | src/multithreads/MultiThread.hpp:65-75 | a pool with an empty queue and no task in hand satisfies the invariant |
| `Pool.StepInv` | src/multithreads/MultiThread.hpp:33-62 | every step of submitter or worker keeps FIFO order, conservation, the wakeup bound, the idle counter and the record of task steps |
| `Pool.PoolSafety` | src/multithreads/MultiThread.hpp:33-62 | in every reachable state: tasks are taken in submit order, submitted = queued + held + finished, no two workers hold one task, a sleeping worker implies as many awake free workers as queued tasks, and the idle counter is its set value minus the counted workers, between -1 and that value, and negative exactly if more workers are counted than were asked for |
| `Pool.IdleGoesNegative` | src/multithreads/MultiThread.hpp:53-75 | with more tasks than workers asked for, a run of the pool as pool_set leaves it takes the idle counter to -1 |
| `Pool.Completed` | src/multithreads/MultiThread.hpp:109-120 | once every future is collected each task has run to its end, and the data is an interleaving of task steps alone |
| `Pool.NoDeadlock` | src/multithreads/MultiThread.hpp:39-62 | with at least one worker some non-spurious step is possible until all results are collected, even with more tasks than workers |
| `Pool.StepMeasure` | src/multithreads/MultiThread.hpp:33-62 | a weighted sum of unsubmitted, queued, awake, running and uncollected work falls with every step but a spurious wakeup, which adds one |
| `Pool.RunsAreBounded` | src/query/data/CountQuery.cpp:58-62 | a run has at most as many steps as that sum plus two for each spurious wakeup |
| `Pool.StuckMeansDone` | src/multithreads/MultiThread.hpp:39-43 | where only spurious wakeups are left, every result is collected, the queue is empty and every worker sleeps |
| `Pool.CompletingRun` | src/query/data/CountQuery.cpp:58-62 | from every reachable state some run collects every future |
| `Pool.PoolSetStarts` | src/multithreads/MultiThread.hpp:65-75 | constructor and pool_set leave a startable pool with one worker more than asked for |
| `Pool.NextQueryStarts` | src/multithreads/MultiThread.hpp:53-62 | when a query has its results the pool can start the next one, though workers may still be on their way back |
| `Rewrites.CodeMeaning` | src/query/data/AddQuery.cpp:24-30 | the cell-by-cell instructions of ADD, SUB and SWAP leave the exact sum, difference or exchange, wrapped once |
| `Rewrites.SwapExchanges` | src/query/data/SwapQuery.cpp:24-26 | SWAP exchanges two cells, leaves all others, and undoes itself, also for one column twice |
| `Rewrites.RewritingKept` | src/query/data/SubQuery.cpp:53-65 | on the specification that both paths meet: in every row that satisfies the conditions as written ADD leaves in the last operand the wrapped sum of the others, SUB the wrapped first minus those between, SWAP the two cells exchanged; all other cells and rows are as before, the count is that of those rows, and unknown operands fail as in the source |
| `Rewrites.SumOperands` | src/query/data/AddQuery.cpp:55-59 | the sum of all operands but the last, or an exception exactly when one of them is unknown |
| `Rewrites.SubtractOperands` | src/query/data/SubQuery.cpp:57-60 | the first operand minus those between it and the last, or an exception exactly when one of them is unknown |
| `Rewrites.FoldLoop` | src/query/data/SubQuery.cpp:53-65 | the sequential loop rewrites exactly the matching rows and counts them; with an unknown operand it fails at the first matching row and has written nothing |
| `Rewrites.ExecuteAdd` | src/query/data/AddQuery.cpp:37-76 | the sequential path of ADD keeps that promise, cell by cell, with all its failures |
| `Rewrites.ExecuteSub` | src/query/data/SubQuery.cpp:40-78 | the sequential path of SUB keeps that promise, cell by cell, with all its failures |
| `Rewrites.ExecuteSwap` | src/query/data/SwapQuery.cpp:34-71 | the sequential path of SWAP keeps that promise, cell by cell, with all its failures, although it prepares its conditions twice |
| `ParallelRewrites.MicroOk` | src/query/data/SubQuery.cpp:25-35 | one cell access of a task keeps its rows before the cursor rewritten, those after it untouched and the current one as if the task were alone |
| `ParallelRewrites.OthersKept` | src/query/data/AddQuery.cpp:16-35 | a step of one task leaves the range and variables of every other task alone |
| `ParallelRewrites.ParallelRewrite` | src/query/data/AddQuery.cpp:66-76 | for any number of workers and any interleaving of cell accesses, a run that has collected every future leaves exactly the table and count of the sequential loop |
| `ParallelRewrites.RunExists` | src/query/data/SwapQuery.cpp:61-71 | such a run exists from every start with at least one worker |
| `Aggregates.ColumnBest` | src/query/data/MaxQuery.cpp:66-75 | MAX is the cell of some matching row and at least, MIN the cell of some matching row and at most, that of every matching row |
| `Aggregates.AggregatingKept` | src/query/data/MaxQuery.cpp:64-91 | on the specification that both paths meet: the answers of SUM, MAX and MIN are, operand by operand, the wrapped sum, the greatest and the least value of that field over the rows that satisfy the conditions as written |
| `Aggregates.MergeExact` | src/query/data/SumQuery.cpp:36-38 | merging wrapped partial results is wrapping the joined exact ones |
| `Aggregates.CountLoop` | src/query/data/CountQuery.cpp:48-52 | the loop counts the matching rows |
| `Aggregates.ExecuteCount` | src/query/data/CountQuery.cpp:33-64 | COUNT answers how many rows satisfy the conditions as written, or fails |
| `Aggregates.ExecuteSum` | src/query/data/SumQuery.cpp:43-81 | SUM answers the wrapped sums over the rows that satisfy the conditions, zeros when there are none, and fails at the first such row if an operand is unknown |
| `Aggregates.ExecuteMax` | src/query/data/MaxQuery.cpp:47-91 | each answered number is the value of the operand in some row that satisfies the conditions and >= its value in all of them; nothing is answered exactly when there is no such row |
| `Aggregates.ExecuteMin` | src/query/data/MinQuery.cpp:47-91 | each answered number is the value of the operand in some row that satisfies the conditions and <= its value in all of them; nothing is answered exactly when there is no such row |
| `Aggregates.SequentialAdditionFits` | src/query/data/SumQuery.cpp:60-68 | if the absolute values of the matched cells add up to at most 2^31-1, no addition of the sequential loop overflows |
| `Aggregates.AbsColumnIsSum` | src/query/data/SumQuery.cpp:60-68 | the bound is on the sum of the matched cells without their signs |
| `ParallelScans.StepOk` | src/query/data/SumQuery.cpp:18-41 | every step of a reading task keeps what all tasks, the merged array, the found flag and the shared queue must hold |
| `ParallelScans.ParallelCount` | src/query/data/CountQuery.cpp:54-64 | the sum of the futures is the sequential count |
| `ParallelScans.ParallelAggregate` | src/query/data/MinQuery.cpp:19-91 | for any completion order the mutex-merged array is that of the sequential scan, and found holds exactly when some row matches |
| `ParallelScans.ParallelSelect` | src/query/data/SelectQuery.cpp:29-42 | for any interleaving of pushes the shared queue holds every matching row exactly once and nothing else |
| `ParallelScans.ParallelDuplicate` | src/query/data/DuplicateQuery.cpp:20-39 | the joined futures are the keys of the sequential loop in its order; so is the count when the flag is true |
| `ParallelScans.SumNeverOverflows` | src/query/data/SumQuery.cpp:26-40 | under the same bound no addition in any state of any run overflows, neither in a task nor in a merge |
| `Selects.PrioritizeStrict` | src/query/data/SelectQuery.cpp:10-16 | on distinct rows of a table the comparator is a strict total order; on a row and itself it is not |
| `Selects.TopExists` | src/query/data/SelectQuery.cpp:76-76 | a non-empty queue of table rows has a top |
| `Selects.PoppedAscends` | src/query/data/SelectQuery.cpp:75-89 | what successive top and pop take out ascends strictly in key |
| `Selects.AscendingUnique` | src/query/data/SelectQuery.cpp:75-89 | rows in ascending key order are determined by which rows they are |
| `Selects.DrainSelects` | src/query/data/SelectQuery.cpp:75-89 | emptying a queue of all matching rows gives exactly the matching entries of the plain map, each key a proper prefix of the next or smaller at the first difference |
| `Selects.SelectingKept` | src/query/data/SelectQuery.cpp:53-90 | on the specification that both paths meet: the listed rows are exactly those that satisfy the conditions as written, in that order of their keys |
| `Selects.DrainOrder` | src/query/data/SelectQuery.cpp:75-89 | any queue of distinct rows can be emptied by taking a top each time |
| `Selects.PrintRow` | src/query/data/SelectQuery.cpp:77-85 | the operands' texts in order, or an exception exactly when one is neither KEY nor a field |
| `Selects.Drain` | src/query/data/SelectQuery.cpp:75-89 | prints one line a row without a final newline and empties the queue; an unknown operand throws at the first row and leaves every entry |
| `Selects.ExecuteSelect` | src/query/data/SelectQuery.cpp:44-90 | the answer is a function of the plain map alone, lists in key order the rows that satisfy the conditions as written, and leaves the queue empty exactly as stated |
| `Listings.ListingReadsBack` | src/query/data/SelectQuery.cpp:75-89 | cut at newlines and blanks, a listing has one line a row between parentheses and one word an operand: the key itself, or a number that stands for the value of the field |
| `Changes.ExecuteInsert` | src/query/data/InsertQuery.cpp:14-30 | appends one row, or fails and changes nothing exactly when there is no operand or the key is held; the table stays rectangular exactly when the number of values is right |
| `Changes.ExecuteUpdateField` | src/query/data/UpdateQuery.cpp:24-41 | UPDATE of a field sets it in exactly the matching rows and counts them |
| `Changes.ExecuteUpdate` | src/query/data/UpdateQuery.cpp:11-41 | the whole query, with the exact condition under which the index survives |
| `Changes.RenameUnsafe` | src/db/Table.h:132-138 | if renaming is not safe, no index of the renamed rows is exact |
| `Changes.RenamingExact` | src/query/data/UpdateQuery.cpp:28-40 | the loop over setKey renames every matching row and no other, and the index is exact afterwards if and only if the renaming was safe |
| `Changes.RenameCollides` | src/db/Table.h:132-138 | two rows, and an UPDATE of KEY that spoils their index |
| `Changes.ExecuteUpdateKey` | src/query/data/UpdateQuery.cpp:28-41 | UPDATE of KEY renames exactly the matching rows, no lookup in the loop misses, and the index is exact afterwards if and only if no row matches, or one does and no other row holds the new key |
| `Changes.RenameByKey` | src/query/data/UpdateQuery.cpp:28-40 | a KEY condition matches at most one row, so the renaming is safe exactly when no row matches or no other row holds the new key |
| `Changes.CountSwapDelete` | src/db/Table.h:296-302 | swap-delete takes out the row that was asked for, once, and keeps the others as often as they were |
| `Changes.DeleteNext` | src/query/data/DeleteQuery.cpp:21-26 | deleting at the cursor without moving it, or moving on, keeps that no row in front of the cursor matches and that all deleted rows did |
| `Changes.DeletedExact` | src/query/data/DeleteQuery.cpp:21-26 | what the loop leaves has an exact index and, as often as before, exactly the rows that do not match |
| `Changes.DeleteLoop` | src/query/data/DeleteQuery.cpp:21-26 | the loop ends, leaves every row that does not match as often as before and no other, counts the deleted ones, and keeps the index exact |
| `Changes.ExecuteDelete` | src/query/data/DeleteQuery.cpp:5-29 | the same for the whole query, with the clear short-cut and the failures |
| `Changes.CopyInjective` | src/db/Table.h:317-318 | different keys have different copies |
| `Changes.CopyKeysCopyable` | src/query/data/DuplicateQuery.cpp:57-64 | the collected keys are distinct keys of the table whose copies are all free |
| `Changes.NextCopy` | src/query/data/DuplicateQuery.cpp:83-84 | with some copies in place the next original is still there and its copy still free |
| `Changes.CopyAllExact` | src/db/Table.h:328-332 | inserting the copies of such keys one by one meets no conflict and no missing row, appends the copies in order and keeps the index exact |
| `Changes.InsertCopies` | src/query/data/DuplicateQuery.cpp:83-84 | the insert phase meets no conflict: the old rows stay in front, followed by the copies in the order of their originals with equal values |
| `Changes.ExecuteDuplicate` | src/query/data/DuplicateQuery.cpp:41-85 | table and answer of DUPLICATE on the sequential path |
| `Commands.Execute` | src/main.cpp:151-153 | every query's own code does to vector and index what is specified for it; afterwards the index is exact, the rows wide and the SELECT queue empty exactly if the query was harmless in that respect |
| `Paths.RewritePathsAgree` | src/query/data/SwapQuery.cpp:49-71 | ADD, SUB and SWAP: whatever the pool does is what the loop does |
| `Paths.CountPathsAgree` | src/query/data/CountQuery.cpp:47-64 | COUNT: the same |
| `Paths.AggregatePathsAgree` | src/query/data/MaxQuery.cpp:64-91 | SUM, MIN and MAX: the same |
| `Paths.SelectPathsAgree` | src/query/data/SelectQuery.cpp:53-90 | SELECT: the same, whatever the order of pushes and of ties in the queue, also when printing fails |
| `Paths.DuplicatePathsAgree` | src/query/data/DuplicateQuery.cpp:55-85 | DUPLICATE with a true flag: after every complete run the collected keys can be copied without a conflict, and table, index and count are those of the loop |
| `Paths.PathsAgree` | src/multithreads/MultiThread.hpp:104-107 | whichever path the idle counter selects, table, index and answer are the same |
| `Paths.EveryRunFinishes` | src/query/data/DuplicateQuery.cpp:71-85 | whatever state a complete run of reading tasks ends in, execute() makes a step of it, so the agreement of the paths leaves no run out |
| `Paths.PoolAlwaysSteps` | src/query/data/CountQuery.cpp:54-64 | every query that the pool may get has a complete run and so a step |
| `Paths.DuplicateCountExact` | src/query/data/DuplicateQuery.cpp:24-38 | DUPLICATE's count on the pool is right for every content of the unset counters if and only if the flag was true |
| `PlainMap.TableIsPermutation` | src/db/Table.h:87-92 | the rows of a table are the entries of its plain map, each once, in some order |
| `PlainMap.ColumnPermutes` | src/query/data/SumQuery.cpp:60-68 | SUM, MIN and MAX do not depend on the order of the rows |
| `PlainMap.DeleteRefines` | src/query/data/DeleteQuery.cpp:21-26 | DELETE takes exactly the matching entries out of the plain map |
| `PlainMap.DuplicateRefines` | src/query/data/DuplicateQuery.cpp:57-84 | DUPLICATE adds exactly the free copies of matching entries to the plain map, as many as it counts |
| `PlainMap.RenameRefines` | src/query/data/UpdateQuery.cpp:28-40 | a safe UPDATE of KEY moves the one matching entry to the new key in the plain map |
| `PlainMap.StepRefines` | src/query/data/AddQuery.cpp:51-65 | each harmless query keeps the index exact and the rows wide, does to the table's map what it does to a plain map, and answers the same |
| `Store.RunRefinesPlainMap` | src/main.cpp:151-153 | over every sequence of harmless queries, each on either path, the index is exact and the rows are wide at all times, and the table is the plain map and gives its answers |
| `Store.OrderUnobservable` | src/db/Table.h:296-302 | two runs of the same queries from tables with the same entries in different orders give the same answers and the same entries throughout, whatever paths they take |
| `Laws.InsertingKept` | src/query/data/InsertQuery.cpp:16-30 | INSERT appends a row of the first operand and the other numbers, or changes nothing and fails exactly when there is no operand or a row has the key |
| `Laws.UpdatingKept` | src/query/data/UpdateQuery.cpp:21-41 | UPDATE writes the value into the named field, or the key, of exactly the rows that satisfy the conditions as written, keeps all else and counts them |
| `Laws.DeletingKept` | src/query/data/DeleteQuery.cpp:13-29 | DELETE leaves every row that does not satisfy the conditions as written as often as it was and no other, and counts those that do |
| `Laws.DuplicatingKept` | src/query/data/DuplicateQuery.cpp:55-85 | DUPLICATE appends, in table order, one row for each that satisfies the conditions as written and has no copy yet, under its key with _copy behind it and with its values, and counts them |
| `Laws.StepObeys` | src/main.cpp:151-153 | every query on either path keeps its promise as stated in these rows |
| `DumpLoad.PrintTable` | src/db/Table.cpp:49-67 | the printer's loops write the header, the right-aligned names and one right-aligned line a row |
| `DumpLoad.Database.RegisterTable` | src/db/Database.cpp:17-30 | adds the table, or refuses and changes nothing exactly when the name is taken |
| `DumpLoad.Database.LoadTableFromStream` | src/db/Database.cpp:104-176 | a text that loads adds exactly one table, with the image the text has and an exact index; any other fails with the error of the first faulty line and changes nothing |
| `TableText.PadMeans` | src/db/Table.cpp:50-56 | a column is right-aligned in ten characters with blanks in front, and never cut |
| `TableText.DumpLines` | src/db/Table.cpp:49-67 | line by line, a dump has the name and the number of columns, the aligned names after KEY, and one line a row in the order of the rows with the aligned key and values |
| `TableText.HeadMeans` | src/db/Database.cpp:116-150 | a header loads if its name is free and exactly its first field is called KEY, with the errors in the order in which they are found |
| `TableText.RowsMean` | src/db/Database.cpp:152-173 | rows are read up to the first empty line or the end of the text, and a key that comes twice is refused |
| `TableText.ReadIntMeans` | src/db/Database.cpp:165-169 | a value is an optional sign and digits up to the first other character, and is refused if it leaves the range of int |
| `TableText.ReadCountMeans` | src/db/Database.cpp:121-125 | the number of columns is an optional sign and digits below 2^64; a minus sign takes it from 2^64 |
| `TableText.BlankRow` | src/db/Database.cpp:153-162 | a line of blanks alone does not end the table but is a row without a key |
| `TableText.EmptyText` | src/db/Database.cpp:116-118 | an empty text has no metadata |
| `RoundTrip.RowRoundTrip` | src/db/Table.cpp:60-64 | a printed row reads back if and only if its columns stay apart, and does not read at all otherwise |
| `RoundTrip.WordsRoundTrip` | src/db/Table.cpp:53-57 | padded names read back if and only if all but the first leave room for a blank |
| `RoundTrip.DumpLoadRoundTrip` | src/db/Database.cpp:104-176 | a dump loads back to the same name, fields, row order and values if and only if its columns stay apart, and fails to load otherwise |
| `RoundTrip.TenDigitsLost` | src/db/Table.cpp:60-64 | a table with a ten-digit value in its second column, whose dump does not load |
| `RoundTrip.NineCharactersSuffice` | src/db/Table.cpp:49-67 | names and printed values of at most nine characters always come back, whatever the length of the keys |
| `Text.NumberOfDigits` | src/db/Database.cpp:166-167 | decimal printing and reading of a natural number are inverse |
| `Text.DecimalMeans` | src/db/Table.cpp:62-62 | a number is printed as its decimal digits by their places, most significant first and without leading zeros, after a minus sign if it is negative |
| `Text.WordsOfMixed` | src/query/QueryParser.cpp:33-42 | tokenizing finds exactly the words, whatever blanks, tabs, line feeds, form feeds and carriage returns stand between and around them |
| `Grammar.ParseExact` | src/query/QueryBuilders.cpp:88-143 | parseToken accepts exactly the sentences of the grammar with no operand `)`, each as exactly one query |
| `Grammar.OneConditionSays` | src/query/QueryBuilders.cpp:88-143 | op ( a b ) FROM t WHERE ( f o v ) is a sentence of the grammar, and says so |
| `Grammar.OperationWords` | src/query/QueryBuilders.cpp:152-197 | a sentence of the grammar is a query exactly if it begins with one of the twelve operations, written out |
| `Grammar.ManagementWords` | src/query/QueryBuilders.cpp:49-86 | the words of the management commands, written out, each with its number of tokens |
| `Grammar.ComplexQueryBuilder.ParseToken` | src/query/QueryBuilders.cpp:88-143 | accepts what the grammar accepts and appends the operands and conditions to those already collected |
| `Grammar.ComplexQueryBuilder.Clear` | src/query/QueryBuilders.cpp:216-221 | empties all that parseToken collects |
| `Grammar.QueryParser.TokenizeQueryString` | src/query/QueryParser.cpp:33-42 | the blank-separated words of the text |
| `Grammar.QueryParser.ParseQuery` | src/query/QueryParser.cpp:10-18 | the result depends on the text alone, whatever queries the builders saw before |
| `Grammar.PrintParse` | src/query/QueryBuilders.cpp:145-214 | printing a query in any of its spellings, tokenizing and parsing it gives the query back |
| `Listen.ExtractQueryString` | src/main.cpp:42-52 | the text is the query, a semicolon and the rest, with no semicolon in the query; the end-of-input exception exactly if there is no semicolon |
| `Listen.QueriesOfScript` | src/main.cpp:113-118 | texts each followed by a semicolon, and then a tail without one, are executed as exactly these texts in order; the tail is dropped |
| `Listen.ContainsMeans` | src/main.cpp:119-119 | a query is a LISTEN exactly if the six letters stand somewhere in it |
| `Listen.PathIsThirdWord` | src/main.cpp:121-125 | LISTEN ( path ) is a LISTEN and names path |
| `Listen.ListenInlines` | src/main.cpp:119-149 | after LISTEN ( path ) comes the whole of that file and then the rest; a file that does not exist ends the program |
| `Listen.NumberedIsSize` | src/main.cpp:146-155 | the counter is the number of LISTENs and accepted queries so far |
| `Listen.ListenTurn` | src/main.cpp:119-149 | a LISTEN puts the named file on top of the rest of its input, which is what inlining it there means |
| `Listen.EndTurn` | src/main.cpp:166-174 | at the end of an input the one around it goes on; unterminated text is dropped |
| `Listen.MainLoop` | src/main.cpp:110-179 | with existing ranks the loop ends at any nesting depth, and what it has executed is the recursive inlining of the listened files, up to the first file that does not open; every LISTEN and every accepted query gets one number |

## Left out

- ParallelRewrites.ParallelRewrite: the bodies of the `Sub_` tasks are step functions, not methods with loops, because their steps interleave; in-place update by several tasks is therefore shown on values.
- ParallelRewrites.ParallelRewrite: assumes that all operands are fields; an unknown one throws through a future while other tasks still run.
- Store.RunRefinesPlainMap: a run ends where a query is not harmless; what the program does with a spoiled index, a short row or stale entries in the SELECT queue is not followed further.
- Paths.DuplicatePathsAgree: only for a true flag; with a false one the count is arbitrary.
- Grammar.QueryParser.ParseQuery: the chain of builders is fixed as `main` registers it; `registerQueryBuilder`'s relinking is left out, and so is the exception for an empty chain.
- Listen.MainLoop: the contents of the files stay the same during a run, although a DUMP among the queries could rewrite a file that is listened to later.
- Listen.MainLoop: whether a text is accepted by a builder is a parameter, and closing of streams is left out.
- Aggregates.ExecuteSum: the arrays that the program never frees are plain sequences here.
- The C++ memory model: racy writes of `found` are atomic, and a step sees all earlier ones.
- `std::unordered_map`, `std::priority_queue`, `std::future`, mutex and condition variable are taken at their contracts.
- Shutdown: `closed`, `start`, the destructor, QUIT and `pthread_exit`.
- Timing: which path a query takes is open, so both are covered; why 2000 rows is a good bound is not.
- LIST, DROP, SHOWTABLE, COPYTABLE, DUMP and LOAD as queries, the file-name cache and the lookup of the table by name.
- `strtol` with overflow or without digits.
- Messages, `std::cout` and `std::cerr`, argument parsing.
- `SafeQueue`, `forwardKeyMap`, `dataAfterDelete` and `FakeQueryBuilder`, which nothing uses.
