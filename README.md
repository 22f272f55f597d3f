# unittest.h scheduling core, modelled in Dafny

`unittest.h` is a single-header C unit-test framework. A test program finds
its own tests by reading the symbol table of its executable: it runs `nm`,
parses the printed text into symbol records, and calls every accessor whose
name starts with `unittest_get_info_` (tests) or `unittest_get_config_`
(group configurations). It then sorts tests and configurations, cuts the
tests into groups, and synthesises a default configuration for every group
without one. It orders the tests of each group and then the groups
themselves by their `depends_on` names, using Kahn's algorithm. Finally it
runs every group with its setup and teardown callbacks, counts the checks
that passed and failed, and prints the totals.

This project models that pipeline on values, arrays and loops, one module
per stage:

- `Base`: ranges, permutations of index ranges, picking by an index sequence.
- `Strings`: `strcmp` and the NULL-aware `unittest_strcmp`; `unittest_startswith`.
- `Records`: `struct unittest_s` and `struct unittest_config_s`, the comparators and `unittest_match`.
- `NmParse`: `unittest_parse_nm_output`, as a specification function (`ParseFrom`) and the loop proved against it.
- `NmRender`: a well-formed `nm` text rendered from records. It is here to phrase what the parser recovers.
- `Registry`: the two discovery walks of `unittest_get_unittest` and `unittest_get_unittest_config`.
- `Grouping`: the sentinel-terminated counts, `unittest_build_file_index` and `unittest_compensate_config`.
- `Dag`: the dependency graphs both topological sorts build.
- `Kahn`: the shared mark, select and overwrite loop of both topological sorts.
- `Toposort`: `unittest_toposort_by_tag` and `unittest_toposort_by_group` on arrays, with their write-back loops.
- `Runner`: the run loop of `unittest_main`, `unittest_assert` and the sums of `unittest_print_results`.
- `Scheduler`: `unittest_main` from the sorted arrays on: both sort stages, the run and the totals.
- `Scenario`: the three-test, one-group example program run end to end.

Modelling choices:

- A NULL `char const *` is `None`.
- A C string is a `seq<char>`; its terminating NUL sits at position `|s|`.
- Each `char` stands for one byte of the C string, with the value `strcmp`
  compares it by (an `unsigned char`). File and symbol names are taken to be
  single-byte text. So the name limit counts bytes, and `StrCmp` orders bytes
  as unsigned values.
- Callbacks (`fn`, `init`, `clean`) are opaque identities.
- A test body is the sequence of check outcomes it produces.
- Each callback invocation is an event of the trace the run loop returns.
- Where the C code would read past a NUL, the model returns `None` rather than requiring the case away.

`unittest_strcmp` is modelled as the code has it: an absent string sorts
before every present one (`b == NULL` gives 1, `a == NULL` gives -1).

## Model

| member | source | states |
|---|---|---|
| Strings.StrCmp | unittest.h:318 | `strcmp` of two strings is -1, 0 or 1, and 0 only for strings of equal length |
| Strings.StrCmpZeroIff | unittest.h:318 | `strcmp` is 0 exactly when the two strings are equal |
| Strings.StrCmpAntisymmetric | unittest.h:318 | swapping the arguments negates the result |
| Strings.StrCmpTransitive | unittest.h:318 | the order is transitive |
| Strings.StrCmpProperPrefix | unittest.h:318 | a proper prefix sorts strictly first |
| Strings.StrCmpFirstDifference | unittest.h:318 | at the first differing position, the smaller character decides |
| Strings.NullStrCmpIsThreeWay | unittest.h:302-319 | `unittest_strcmp` is -1, 0 or 1; it is 0 exactly on equal values (both absent, or equal strings); it is negative exactly when the first value is smaller in the order where absent is least |
| Strings.NullStrCmpTransitive | unittest.h:302-319 | `unittest_strcmp` is transitive |
| Strings.StartsWith | unittest.h:471-478 | returns 0 exactly when `prefix` is a prefix of `str`, 1 otherwise |
| Records.Match | unittest.h:630-638 | 0 exactly when the two nodes have the same `(file, unique_id)`, else 1 |
| Records.DepNames | unittest.h:782-793 | the names the `while(*d != NULL)` scan visits: the slots before the first NULL, none of them NULL |
| Records.ToInt32 | unittest.h:617 | the C conversion to `int` lands in the 32-bit signed range |
| Records.LineDiffIsDifference | unittest.h:617 | for line numbers below 2^31, `(int)(a->line - b->line)` is the true difference |
| Records.LineDiffWrapsAtTwo32 | unittest.h:617 | line numbers 2^32 apart compare as a tie |
| Records.TestCompareIsLexicographic | unittest.h:597-618 | for bounded line numbers `unittest_compare` is 0 exactly on equal (file, name, line) keys; it is negative exactly when the first key is lexicographically smaller, and positive exactly when the second is |
| Records.TestCompareTransitive | unittest.h:597-618 | for bounded line numbers `unittest_compare` is transitive |
| Records.ConfigCompareByFile | unittest.h:620-628 | `unittest_config_compare` is 0 exactly on equal files, negative exactly when the first file sorts before the second, positive exactly when it sorts after |
| Records.ConfigCompareTransitive | unittest.h:620-628 | `unittest_config_compare` is transitive |
| Records.SortedFilesContiguous | unittest.h:687-694 | in a sequence sorted by the comparator, the tests of one file are contiguous |
| NmParse.SkipSpaces | unittest.h:427 | ends at or after `p` on a character that is not white space |
| NmParse.SkipSpacesPassed | unittest.h:427 | every character passed over is white space |
| NmParse.SkipEols | unittest.h:444 | ends on a character that is neither `'\r'` nor `'\n'` |
| NmParse.HexEnd | unittest.h:414 | ends on a character that is not a hexadecimal digit |
| NmParse.HexEndPassed | unittest.h:414 | every character passed over is a hexadecimal digit |
| NmParse.StrToLL16 | unittest.h:414 | `(uint64_t)strtoll(p, &np, 16)` is below 2^64, and `np` stays inside the string |
| NmParse.NameScan | unittest.h:435-438 | the name copy stops at a `'\n'` or after 254 characters, or reports running past the NUL |
| NmParse.ParseRecord | unittest.h:411-447 | one line gives a record whose name has at most 254 characters; its address is 0 (NULL) when the line starts with white space; the next line starts past this one |
| NmParse.ParseFrom | unittest.h:402-451 | a successful parse ends with the all-zero terminator, and every name fits the buffer |
| NmParse.ParseFromStep | unittest.h:402-448 | a non-empty line contributes its record ahead of the records of the lines after it |
| NmParse.ParseFromLine | unittest.h:402-448 | a malformed first line fails the whole parse; otherwise its record precedes the rest |
| NmParse.ParseNmOutput | unittest.h:394-453 | the loop returns exactly `ParseFrom(s, 0)` |
| NmParse.LineEnd | unittest.h:406-407 | the scan to the end of the visible line stays put exactly when the line is empty |
| NmParse.ParseLine | unittest.h:411-447 | the loop body on a non-empty line computes `ParseRecord` |
| NmParse.PassSpaces | unittest.h:427 | the loop computes `SkipSpaces` |
| NmParse.PassEols | unittest.h:444 | the loop computes `SkipEols` |
| NmParse.CopyName | unittest.h:435-439 | the copy loop stops where `NameScan` says |
| NmRender.StrToLL16OfHex | unittest.h:414 | a run of hex digits followed by a blank converts to its value and ends at the blank |
| NmRender.RecordOfLine | unittest.h:411-447 | a well-formed line parses as its address (0 when blank), its type character and its name without one leading `_`; the parse resumes at the next line, past the whole run of `'\r'`/`'\n'` |
| NmRender.ParseLineStep | unittest.h:402-448 | a well-formed line contributes its record ahead of those of the text after it |
| NmRender.ParseRendered | unittest.h:402-451 | the lines from position `p` on yield exactly their records, then the terminator |
| NmRender.ParseOfRender | unittest.h:394-453 | every well-formed line yields exactly one record, in order, and the output ends with the all-zero terminator |
| NmRender.LongNameTruncated | unittest.h:436-444 | a name longer than 254 characters is cut after 254, and the next record is parsed from the uncopied tail of the same line |
| NmRender.TruncatedScan | unittest.h:436-444 | the copy of a long name stops after 254 characters, on a character that is not a line break, so no line break is skipped |
| Registry.FirstZero | unittest.h:507 | both walks stop at the first record of type 0, which exists when the table has a terminator |
| Registry.LastMainIsLast | unittest.h:487-492 | the offset comes from the last record named `main`; there is none exactly when no record before the terminator is named `main` |
| Registry.FindMainOffset | unittest.h:484-492 | the first walk leaves the offset of the last `main`, or `(uint64_t)-1` |
| Registry.Selected | unittest.h:507-513 | the selection has at most as many records as were visited |
| Registry.SelectedMembers | unittest.h:507-513 | the selection holds exactly the visited records whose name starts with the prefix |
| Registry.SelectedConcat | unittest.h:507-513 | the selection keeps table order |
| Registry.CallAll | unittest.h:509-510 | one descriptor per selected record, from calling the accessor at its relocated address |
| Registry.CollectByPrefix | unittest.h:505-516 | the second walk returns the accessor results of the selected records, in table order, then a zero terminator |
| Registry.GetUnittest | unittest.h:480-518 | `unittest_get_unittest`: NULL while the offset is the sentinel, else the collected tests |
| Registry.GetUnittestConfig | unittest.h:520-558 | `unittest_get_unittest_config` in the same way, for the config prefix |
| Registry.NoMainNoTests | unittest.h:494-496 | without a record named `main`, discovery returns NULL |
| Registry.DiscoveredTests | unittest.h:485-517 | with a `main` record (and an offset other than the sentinel), discovery returns one test per matching record, in order, then the zero test |
| Registry.CalledSymbols | unittest.h:505-513 | the walk calls exactly the accessors with the prefix that lie before the terminator |
| Grouping.FirstNullFile | unittest.h:646 | the first NULL file position: every entry before it has a file |
| Grouping.GetTotalTestCount | unittest.h:640-648 | the count is the position of the first NULL-file test |
| Grouping.GetTotalConfigCount | unittest.h:650-658 | the count is the position of the first NULL-file config |
| Grouping.CountToNull | unittest.h:644-647 | the shared loop stops at the first NULL file |
| Grouping.GetTotalFileCount | unittest.h:660-679 | the loop's count is the number of maximal runs of equal `(file, unique_id)` |
| Grouping.CutsMembers | unittest.h:716-723 | the interior boundaries are exactly the positions where neighbouring tests differ in `(file, unique_id)` |
| Grouping.CutsIncreasing | unittest.h:716-723 | the interior boundaries increase strictly |
| Grouping.CutsCount | unittest.h:671-677 | there is one interior boundary per key change the file count counts |
| Grouping.FileIndex | unittest.h:700-728 | the boundary array holds the file count plus two entries |
| Grouping.BuildFileIndex | unittest.h:700-728 | the loop returns exactly `FileIndex` |
| Grouping.FileIndexShape | unittest.h:700-728 | `[0, -1]` without tests; otherwise it starts at 0 and increases strictly to the test count, then -1, with a boundary exactly where the key changes |
| Grouping.RunsHomogeneous | unittest.h:716-723 | every test of a run has the key of the run's first test |
| Grouping.GroupFirst | unittest.h:747-759 | entry `g` points at the first test of group `g`, and past the last group at the terminator |
| Grouping.CompensateConfig | unittest.h:730-764 | the lockstep walk returns exactly `Compensate` of the group keys and the live configs, whenever the walk stays inside the boundary array, including configs left over after the last group and no tests at all |
| Grouping.CompensateShape | unittest.h:745-760 | entry `g` belongs to group `g`; the configs the walk consumes, a prefix of the live ones, are each used once, unchanged, in order, at a group with their key; each other entry is the default config of its group (only `file` set); the output stops after the last consumed config; the walk consumes every config or reaches the last group, and configs past that are dropped |
| Grouping.CompensateComplete | unittest.h:745-760 | when every group has its config, compensation returns the configs unchanged |
| Dag.DagOf | unittest.h:780-794 | one edge list per node; row `i` is built from the names `i` depends on |
| Dag.EdgeIff | unittest.h:780-794 | an edge from `j` into `i` exists exactly when `j` is another node whose name `i` depends on; self-matches, absent names and unknown names add none |
| Dag.DagOfIsGraph | unittest.h:786-789 | every edge comes from another node |
| Dag.AppendSources | unittest.h:785-791 | the innermost loop appends the other nodes named `d` |
| Dag.BuildRow | unittest.h:783-793 | the `depends_on` loop builds row `i` |
| Dag.BuildDag | unittest.h:780-794 | the build loops return exactly `DagOf` |
| Kahn.FirstReady | unittest.h:808-814 | the lowest ready node at or after `j`, or none |
| Kahn.InitMarks | unittest.h:796-802 | each mark is its node's in-degree |
| Kahn.FindReady | unittest.h:808-819 | the first node with mark 0, or -1 when every mark is nonzero |
| Kahn.DeleteRow | unittest.h:832-839 | one row has every `x` overwritten with -1, and its mark drops by that many |
| Kahn.DeleteEdges | unittest.h:829-840 | every row except `x`'s loses its `x` entries, and the marks drop to match |
| Kahn.MarkZeroIffReady | unittest.h:811 | under the sort state, a mark is 0 exactly for a ready node |
| Kahn.SortStep | unittest.h:823-840 | one round keeps the sort state for the placed prefix extended by the chosen node |
| Kahn.KahnSchedule | unittest.h:796-851 | the loop returns exactly `KahnFrom(dag, [])`: the placement order, or `None` for the -1 a cycle returns |
| Kahn.KahnIsTopological | unittest.h:807-846 | a completed sort lists every node once, each after all of its sources |
| Kahn.KahnSucceedsIff | unittest.h:807-846 | the sort fails exactly when the graph has no topological order; its result is one |
| Kahn.KahnForward | unittest.h:808-814 | when every edge leads from a lower node to a higher one, the order is unchanged (lowest-index tie-break) |
| Kahn.CycleHasNoOrder | unittest.h:816-819 | no order of a graph with a cycle is topological |
| Kahn.CycleFails | unittest.h:816-819 | a dependency cycle makes the sort fail |
| Toposort.Order | unittest.h:807-846 | a successful order is a permutation of the node indices |
| Toposort.OrderIsTopological | unittest.h:807-846 | a successful order is topological |
| Toposort.SortByTag | unittest.h:766-862 | a successful tag sort keeps the slice length |
| Toposort.ToposortByTag | unittest.h:766-862 | on a cycle returns -1 and leaves the array as it was; otherwise returns 0 and replaces exactly the slice by `SortByTag` of it |
| Toposort.WriteBack | unittest.h:849-851 | the result is copied over the slice; the rest of the array is unchanged |
| Toposort.ToposortByGroup | unittest.h:864-976 | on a cycle returns -1 and writes nothing; otherwise returns 0 and writes `SortByGroup` of the live tests and configs |
| Toposort.WriteBackGroups | unittest.h:958-964 | the buffers are copied over the front of both arrays; the rest is unchanged |
| Toposort.GroupOrder | unittest.h:880-951 | the dag and sort loops of the group sort compute `KahnFrom` of the config graph |
| Toposort.GroupBuffers | unittest.h:930-933 | the config buffer holds the configs in the found order, and the test buffer each group's original block in that order |
| Toposort.AppendBlock | unittest.h:931-933 | one group's block is appended in original order |
| Toposort.OrderRespectsDeps | unittest.h:780-846 | in a topological order a node comes after every other node its `depends_on` names |
| Toposort.SortByTagIsTopological | unittest.h:766-862 | a successful tag sort permutes the slice, and every test follows every other test named in its `depends_on` |
| Toposort.TagCycleFails | unittest.h:816-819 | a cycle of test dependencies makes the tag sort fail |
| Toposort.SortByTagKeepsOrder | unittest.h:808-814 | when dependencies only name earlier tests, the tag sort keeps the slice as it is |
| Toposort.BlockIndicesPermutation | unittest.h:930-933 | the blocks of the groups in any group order cover every test position exactly once |
| Toposort.BlocksDisjoint | unittest.h:930-933 | different groups' blocks are disjoint |
| Toposort.SortByGroupIsTopological | unittest.h:864-976 | a successful group sort permutes the tests and the configs; a config comes after every other config its `depends_on` names |
| Toposort.SortByGroupLengths | unittest.h:953-964 | a successful group sort keeps one entry per test and one per config |
| Toposort.GroupCycleFails | unittest.h:921-924 | a cycle of group dependencies makes the group sort fail |
| Runner.Assert | unittest.h:279-287 | a check bumps exactly one counter: `succ` when it holds, `fail` otherwise |
| Runner.TallyCounts | unittest.h:279-287 | after a sequence of checks, `succ` grew by the number that held and `fail` by the rest |
| Runner.RunGroups | unittest.h:1043-1070 | the run loop returns one result per group and the trace of all groups in order |
| Runner.RunGroup | unittest.h:1047-1069 | a group's counters start at zero; group `init`/`clean` run around its tests only when both are set |
| Runner.RunTests | unittest.h:1054-1063 | the inner loop runs the group's tests `lo..hi-1` and counts their checks |
| Runner.RunTest | unittest.h:1055-1061 | a test with both callbacks runs with its own context between `init` and `clean`; otherwise `fn` gets a NULL context |
| Runner.RunResults | unittest.h:1046-1070 | one result per group run |
| Runner.PrintResults | unittest.h:984-996 | the totals are the sums of the per-group counters |
| Runner.TotalsCountAllChecks | unittest.h:984-996 | the reported successes are the checks that held; the failures are all the others |
| Runner.TestsRunInOrder | unittest.h:1054-1063 | a group's tests run once each, in array order |
| Runner.RunsOfGroup | unittest.h:1047-1068 | a group runs its tests `lo..hi-1` once each, in order |
| Runner.EveryTestRunsOnce | unittest.h:1046-1070 | every test before `idx[g]` runs exactly once, in array order |
| Runner.TraceRunsWhereIndexed | unittest.h:1054 | each test runs as part of the group whose range of the boundary array holds it, with its own context exactly when it has both callbacks |
| Runner.GroupBracketed | unittest.h:1049-1067 | a group's `init` opens and its `clean` closes its events when it has both; otherwise it has no setup events |
| Runner.RegroupedPairsConfigs | unittest.h:958-964 | the group sort lays the groups' original blocks out in the new config order: by a boundary array rebuilt for that order, block `k` of the sorted tests is exactly the block of the group whose config stands at `k` |
| Runner.StaleIndexMisgroups | unittest.h:1021-1054 | an example: after the group sort moves a two-test group first, the boundary array from before the sort runs its second test as part of the other group |
| Runner.RegroupedSample | unittest.h:958-964 | the same example with a rebuilt boundary array keeps both tests in their group |
| Scheduler.FileIndexBounds | unittest.h:1020-1022 | the boundary array of a terminated test array bounds its live tests |
| Scheduler.Padded | unittest.h:49 | `compd_config` as the later loops read it: the compensated configs, then zeroed slots up to one per group |
| Scheduler.TagSorted | unittest.h:1026-1033 | the tag sorts keep the array length |
| Scheduler.TagSortGroups | unittest.h:1026-1033 | 1 at the first group whose tag sort finds a cycle; otherwise 0, with every group's range tag-sorted in place |
| Scheduler.SortBlock | unittest.h:1028-1032 | one round sorts group `i`'s range in place, or reports the cycle |
| Scheduler.TagSortedPermutes | unittest.h:1026-1033 | the tag sorts permute the test array |
| Scheduler.TagSortedBlock | unittest.h:1026-1033 | after the tag sorts, each group's range holds the tag sort of its original block |
| Scheduler.TagSortedTail | unittest.h:1026-1033 | the tag sorts leave the rest of the array untouched |
| Scheduler.ScheduleFailsOnTestCycle | unittest.h:1029-1031 | a test dependency cycle in any one group makes `unittest_main` fail |
| Scheduler.ScheduleFailsOnGroupCycle | unittest.h:1038-1040 | a group dependency cycle makes `unittest_main` fail |
| Scheduler.SchedulePermutes | unittest.h:1026-1041 | a successful schedule permutes the test array and the padded configs |
| Scheduler.ScheduleShape | unittest.h:1020-1041 | a successful schedule keeps the array length and one config per group; the boundary array from before still bounds the tests |
| Scheduler.SortGroupStage | unittest.h:1037-1041 | returns 1 exactly when the group sort reports a cycle; otherwise the arrays hold the group sort's result |
| Scheduler.ScheduleOfTagged | unittest.h:1026-1041 | once the tag sorts succeed, the schedule is the group sort of their result |
| Scheduler.SortStages | unittest.h:1026-1041 | 1 exactly when a sort reports a cycle; otherwise the arrays hold the schedule |
| Scheduler.UnittestMain | unittest.h:1018-1079 | returns 1 exactly when a sort reports a cycle, with no test run; otherwise returns 0 with one result per group, the run trace of the schedule by the boundary array built before it, and totals that are the sums over groups |
| Scheduler.RunStage | unittest.h:1043-1079 | the run of the scheduled arrays gives the results and the trace of the schedule, one result per group, and totals that are the sums over groups |
| Scheduler.MainRunsEveryTestOnce | unittest.h:1043-1070 | every live test runs exactly once, in array order |
| Scheduler.MainRunsByStaleIndex | unittest.h:1021-1054 | the tests run as part of group `g` are those at the positions the boundary array from before the group sort gives `g` |
| Scheduler.MainTotals | unittest.h:984-996 | the totals count the passed and the failed checks of all live tests |
| Scenario.OneGroup | unittest.h:640-728 | the three example tests form one group with boundary array `[0, 3, -1]` |
| Scenario.FooCompensated | unittest.h:730-764 | the example's config is used as is |
| Scenario.StrayDropped | unittest.h:745-760 | a config of a file with no tests, left after the last group, is accepted and dropped |
| Scenario.NoTests | unittest.h:745-760 | with no tests there is no group, the walk ends at once, and nothing is compensated |
| Scenario.TestEdges | unittest.h:780-794 | the example's tests form the chain first, second, third |
| Scenario.MissingGroupAddsNoEdge | unittest.h:881-895 | a group depending on a name no group has gets no edge |
| Scenario.Scheduled | unittest.h:1026-1041 | the example schedules to its declared order |
| Scenario.RunsInDeclaredOrder | unittest.h:1043-1070 | the example runs "first test", "second test", "third test" in that order, without setup events |

## Left out

- Running `nm` (`popen`, `getc`, `pclose`) and building its command line (unittest.h:321-392, 455-469) are process I/O. The model starts from the text `nm` prints.
- Calling the discovered accessors, and the pointer arithmetic that relocates them (unittest.h:498-500, 509, 538-540, 549), are foreign calls. They are an abstract `call` function on the relocated address.
- `qsort` in `unittest_sort` (unittest.h:681-698) is a library sort. The model of `unittest_main` starts from the arrays after the sort; `TestsSorted` states the order the sort leaves for the tests. The configs' order matters only through `Walks`, the condition under which the compensation walk is defined.
- All report output is left out: `unittest_print_assertion_failed`, `unittest_dump`, `unittest_dump_test`/`unittest_dump_config`, and the formatting of the report lines (unittest.h:213-271, 560-595, 988-999). `PrintResults` keeps only the sums.
- The growable-vector macros `utkv_*` (unittest.h:41-92) are memory management. Vectors are sequences. The one effect of their growth kept here is that `calloc`'d slots read as zero: `PaddingDefined` requires the padded configs to fit in the first 64-slot block, beyond which `realloc`'d memory is undefined.
- The declaration macros `unittest`/`unittest_config` (unittest.h:171-208) and the `UNITTEST == 0` stub (unittest.h:1085-1090) are declaration sugar.
- Test bodies and `init`/`clean` callbacks are user code. A body is the list of its check outcomes; callbacks are trace events; contexts are not values.
- Discovery failure is not chained into `unittest_main`: `UnittestMain` starts from the discovered arrays, as the code never checks the NULL returns of `unittest_nm`, `unittest_get_unittest` or `unittest_get_unittest_config` (unittest.h:1010-1014).
- Freeing memory (unittest.h:853-859, 966-973, 1075-1079) has no observable effect in the model.
- Strings.StrCmp: models only the sign of `strcmp`, not its magnitude. Every caller tests only the sign or zero.
- Runner.Assert: counters are unbounded integers; the `int64_t` overflow of `succ`/`fail` is not modelled.
- Records.TestCompareIsLexicographic: stated only for line numbers below 2^31, where `(int)(a->line - b->line)` does not wrap. `LineDiffWrapsAtTwo32` shows the tie beyond that.
- Kahn.KahnSchedule: requires every in-degree to fit the `int8_t` mark (at most 127). Wider in-degrees wrap in C.
- Dag.BuildRow: requires a NULL among the 16 `depends_on` slots. Without one, the C loop reads past the array.
- Grouping.CompensateConfig: requires `Walks`: whenever the walk looks for a config's key, the key turns up before the groups run out. Otherwise the C walk compares the config with the terminator, never matches, and indexes through the -1 sentinel. That case is undefined behaviour and is not modelled.
- Registry.DiscoveredTests: excludes the case where a real `main` record yields the offset `(uint64_t)-1`, which the code cannot tell apart from "no main".
