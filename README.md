# GLITCH parser, tracer and repair cores in Dafny

GLITCH is a polyglot smell detector for infrastructure-as-code scripts. It
parses Dockerfiles, Ansible playbooks and Chef recipes into one intermediate
representation (unit blocks of atomic units, attributes, variables and
comments). It also has an interactive repair component. That component
traces a script's system calls and looks for the smallest change to a
Delta-P program that reaches a target file-system state.

This project models the deterministic core of these parts and proves what
they promise:

- `wrappers.dfy`, `text.dfy`, `dicts.dfy`: `Option`/`Result`; Python string
  helpers (`split`, `strip` with Python's whitespace set, negative
  indexing, slicing); and Python's insertion-ordered `dict`.
- `docker_ir.dfy`, `docker_parser.dfy`, `command_parser.dfy`,
  `docker_merge.dfy`, `docker_stage.dfy`: the `DockerParser` helpers and
  `CommandParser` of `glitch/parsers/docker_parser.py`. They cover:
  - downloadable file names;
  - the default `USER root`;
  - stages of a multi-stage file;
  - variables from `ENV`/`ARG`/`USER`/`LABEL`;
  - shell command splitting and option scanning;
  - the merge of verification commands into downloads;
  - the per-instruction fill of a `UnitBlock` (a class with sequence fields).
- `ansible_parser.dfy`: the `AnsibleParser` helpers of
  `thesis/parsers/cmof.py`. They cover comment-token flattening, the comment
  filter, the task loop and the nested-variable flattening, all over YAML
  values given as a datatype.
- `chef_node.dfy`, `chef_checker.dfy`: the Chef `Node` helpers of the same
  file (`check_id`/`check_node`, source spans, text extraction) and the
  `Checker` stack machine, whose tests are abstract predicates.
- `tracer.dfy`: the line loop of `STrace.run` in
  `glitch/repair/interactive/tracer/tracer.py`.
- `delta_p.dfy`, `patch_scenario.dfy`: the Delta-P statements of
  `glitch/tests/repair/interactive/test_patch_solver.py`. The evaluator is
  last-write-wins over a file-system map. The repair predicate and cost are
  the quantity the solver maximises. The lemmas pin the optimum that
  `test_patch_solver_mode` asserts and show that it is unique.

The loops of the source are methods whose `ensures` ties their result, or
the object's new state, to a specification function. The lemmas beside each
function state what the source promises about it. Where the source computes
something odd, the model computes it as written:

- a right bracket after `i` spaces widens a Chef span by `2*i+1` columns,
  because the loop adds `i + 1` and the code after the loop adds `i` again;
- `"a.tar.gz"` is not recognised as a download, because only the last
  `.`-segment is compared with the extension list.

## Model

| member | source | states |
|---|---|---|
| Text.JoinSplit | glitch/parsers/docker_parser.py:148 | joining the parts of `split(c)` with `c` gives the string back |
| Text.LastSplitSegment | glitch/parsers/docker_parser.py:202-203 | `split(c)[-1]` is the text after the last `c`, and it holds no `c` |
| Text.StripKeeps | thesis/parsers/cmof.py:51 | a non-whitespace character occurs in the stripped text exactly when it occurs in the original |
| Dicts.PutLookup | glitch/parsers/docker_parser.py:133 | after `d[k] = v`, `d[k]` is `v` and every other key keeps its value |
| Dicts.PutKeys | glitch/parsers/docker_parser.py:220 | assigning a key keeps the old key order and appends a new key last |
| Dicts.PutAllLastWins | glitch/parsers/docker_parser.py:129-133 | after a run of assignments, a key holds the value of its last assignment |
| DockerParser.AtomicFileNameShape | glitch/parsers/docker_parser.py:201-205 | a returned name is the text after the last `/`, and its last `.`-segment is a listed extension |
| DockerParser.AtomicFileNameSpec | glitch/parsers/docker_parser.py:22-23 | the result is that name exactly when its last `.`-segment is in the extension list, otherwise None |
| DockerParser.TarGzNotRecognised | glitch/parsers/docker_parser.py:22-23 | `a.tar.gz` gives None, since only `gz` is compared |
| DockerParser.FirstFrom | glitch/parsers/docker_parser.py:173-178 | the index of the first FROM, or -1 when there is none |
| DockerParser.WithUserTagSpec | glitch/parsers/docker_parser.py:169-179 | with a USER present the list is unchanged; otherwise exactly one USER root record is inserted right after the first FROM (at 0 without one) and removing it gives the input back |
| DockerParser.WithUserTagOneUser | glitch/parsers/docker_parser.py:169-179 | without a USER, the result holds exactly one USER record, the inserted one |
| DockerParser.AddUserTag | glitch/parsers/docker_parser.py:169-179 | the list-insert loop computes `WithUserTag` |
| DockerParser.StageEnd | glitch/parsers/docker_parser.py:131-132 | a stage ends at the next stage index or at the length, never before its start |
| DockerParser.GetStages | glitch/parsers/docker_parser.py:127-140 | the loop assigns, in order, each stage's image to its copied range with a default user added |
| DockerParser.StagesKeys | glitch/parsers/docker_parser.py:127-134 | the keys of the result are exactly the stages' images |
| DockerParser.StagesLastWins | glitch/parsers/docker_parser.py:129-133 | an image maps to the records of the last stage that names it |
| DockerParser.StagesCover | glitch/parsers/docker_parser.py:129-132 | consecutive stage ranges abut and together are the whole structure |
| DockerParser.StageRangesPrefix | glitch/parsers/docker_parser.py:131-132 | the first m stage ranges concatenate to the structure up to the end of stage m-1 |
| DockerParser.ArgVariable | glitch/parsers/docker_parser.py:147-151 | an ARG is named by its first `,`-segment and takes the second segment as default, or `"ARG"` when there is no non-empty second of exactly two |
| DockerParser.ArgDefault | glitch/parsers/docker_parser.py:148-151 | of two segments, the second is empty exactly when the value ends in `,` |
| DockerParser.SplitPair | glitch/parsers/docker_parser.py:153-158 | splitting into exactly two parts succeeds exactly when the separator occurs once, and the parts rebuild the value |
| DockerParser.CreateVariableBlock | glitch/parsers/docker_parser.py:143-162 | USER gives `user`; ARG as above; ENV splits on `=` if present else space, fails unless exactly two parts, and marks `$` values; LABEL splits on `=`; the line is the start line + 1 |
| ShellCommands.SubCommands | glitch/parsers/docker_parser.py:283-293 | there is always at least one group |
| ShellCommands.SubCommandsSpec | glitch/parsers/docker_parser.py:283-293 | groups = separators + 1, no group holds `&&`, `&` or `\|`, and interleaving the groups with the separators gives the tokens back |
| ShellCommands.GetSubCommands | glitch/parsers/docker_parser.py:283-293 | the loop computes `SubCommands` |
| ShellCommands.ScanOptionsKeys | glitch/parsers/docker_parser.py:268-281 | a key is present exactly when some dash token sets it, with leading dashes stripped and the text before `=` as the key |
| ShellCommands.ScanOptionsLastWins | glitch/parsers/docker_parser.py:268-281 | a key holds the value of its last setting token: the second `=`-segment, True before the end or another dash token, else the next token |
| ShellCommands.ParseGeneralCommand | glitch/parsers/docker_parser.py:261-281 | without arguments the indexing fails; otherwise the main argument is removed and the rest is scanned for options |
| ShellCommands.ToAtomicUnit | glitch/parsers/docker_parser.py:216-223 | the unit is named by the main argument and typed by the command, with `sudo` first when set, then one attribute per option in order, marking string values holding `$` |
| ShellCommands.SingleCommandUnit | glitch/parsers/docker_parser.py:244-258 | no unit exactly when indexing fails (empty, bare `sudo`, no argument); chmod takes the last argument as name and the first as `mode`; others take the main argument |
| ShellCommands.ParseSingleCommand | glitch/parsers/docker_parser.py:244-250 | the method computes `SingleCommandUnit` |
| ShellCommands.CommandUnitsBound | glitch/parsers/docker_parser.py:233-241 | at most one unit per sub-command |
| ShellCommands.ParseCommand | glitch/parsers/docker_parser.py:233-241 | the loop keeps the units of the sub-commands that do not raise, in order |
| DownloadMerge.Kept | glitch/parsers/docker_parser.py:188-193 | removal never adds units: the kept units are at most as many as the units |
| DownloadMerge.KeptFlagsCount | glitch/parsers/docker_parser.py:190-193 | every unit is either kept or turned into one `<type>=true` flag |
| DownloadMerge.FlagsAreFlags | glitch/parsers/docker_parser.py:191-192 | every added flag is `gpg`, `checksum` or `md5sum` set to `"true"` |
| DownloadMerge.KeptPreserves | glitch/parsers/docker_parser.py:190-193 | units that are not verification commands all stay, in order |
| DownloadMerge.MergedUnitSpec | glitch/parsers/docker_parser.py:184-192 | a download gets a `url` attribute holding its old name, an empty name, and one flag per removed unit |
| DownloadMerge.MergeOneDownloads | glitch/parsers/docker_parser.py:184-193 | merging one download replaces only that download and keeps every other non-verification unit |
| DownloadMerge.MergeOneAttrs | glitch/parsers/docker_parser.py:184-193 | merging one download adds its `url` attribute and moves each removed unit into one flag: attributes plus units grow by exactly one |
| DownloadMerge.MergeFromDownloads | glitch/parsers/docker_parser.py:182-193 | once the first downloads are merged, the remaining turns of the loop merge every other download, each in its own place |
| DownloadMerge.MergeFromOthers | glitch/parsers/docker_parser.py:182-193 | the loop leaves the units that are neither downloads nor verifications as they were, in order |
| DownloadMerge.MergeFromAttrs | glitch/parsers/docker_parser.py:182-193 | each remaining turn of the loop adds exactly one to attributes plus units |
| DownloadMerge.MergedEach | glitch/parsers/docker_parser.py:182-193 | the `j`-th download ends with an empty name, its old attributes, its `url`, then one flag per verification unit of its own file among the units the first `j` turns left |
| DownloadMerge.MergedSpec | glitch/parsers/docker_parser.py:182-193 | every download is merged in order; each download's attributes become its old ones, its `url`, then the flags of the verification units of its own file still present at its turn; other non-verification units are untouched; no unit is added; and in total one flag is added per removed unit |
| DownloadMerge.AttrTotalGrows | glitch/parsers/docker_parser.py:186 | every download gains at least its `url` attribute |
| DockerStage.CommandEffect | glitch/parsers/docker_parser.py:102-107 | RUN/CMD/ENTRYPOINT raise exactly when `literal_eval`, the join or `bashlex.split` raises; otherwise they add at most one unit per sub-command, each at the start line, and no variable or comment |
| DockerStage.CopyEffect | glitch/parsers/docker_parser.py:113-118 | COPY succeeds exactly when two non-`--` operands remain, and adds one `copy` unit with `src` and `dest` |
| DockerStage.InstructionEffect | glitch/parsers/docker_parser.py:90-124 | variables for ENV/USER/ARG/LABEL; an `image` unit named by FROM's first word at line + 1; ignored instructions add nothing; RUN/CMD/ENTRYPOINT raise exactly when their library calls raise; only ENV, LABEL, COPY, ONBUILD, RUN, CMD and ENTRYPOINT can raise |
| DockerStage.StageEffectErr | glitch/parsers/docker_parser.py:83-84 | once an instruction raises, the stage fails |
| DockerStage.UnitBlock.ParseInstruction | glitch/parsers/docker_parser.py:90-124 | the block gains exactly the instruction's units, variables and comments, or stays as it was when it raises |
| DockerStage.UnitBlock.MergeDownloadCommands | glitch/parsers/docker_parser.py:182-193 | the block's units become `Merged` of the old ones and nothing else changes |
| DockerStage.MergeAll | glitch/parsers/docker_parser.py:183-193 | the loop over the downloads computes `Merged` |
| DockerStage.MergeAt | glitch/parsers/docker_parser.py:185-193 | one iteration computes `MergeOne` |
| DockerStage.FileManipulations | glitch/parsers/docker_parser.py:188-193 | the inner loop splits the units into kept ones and flags |
| DockerStage.ParseStage | glitch/parsers/docker_parser.py:80-87 | the stage's block holds the merged units and the variables and comments of its instructions in order, or the stage fails |
| AnsibleParser.UnitBlock.constructor | thesis/parsers/cmof.py:55 | a new block is empty |
| AnsibleParser.ExtractConcat | thesis/parsers/cmof.py:13-22 | flattening a concatenation is the concatenation of the flattenings |
| AnsibleParser.ExtractOne | thesis/parsers/cmof.py:13-22 | None is dropped, a token gives its (line, value), and a nested list is flattened in place |
| AnsibleParser.YamlComments | thesis/parsers/cmof.py:50-51 | the filter never adds entries |
| AnsibleParser.YamlCommentsSpec | thesis/parsers/cmof.py:50-51 | an entry is in the result exactly when it is some raw entry holding `#`, with its line + 1 and its text stripped |
| AnsibleParser.YamlCommentsConcat | thesis/parsers/cmof.py:50-51 | the filter keeps order: it distributes over concatenation |
| AnsibleParser.AddComments | thesis/parsers/cmof.py:84-85 | the block's comments gain one comment per entry, in order; its name, units, variables and dependencies are unchanged |
| AnsibleParser.MapAttributes | thesis/parsers/cmof.py:76-78 | a mapping value gives one attribute per entry, in order, with `str` of its value |
| AnsibleParser.IncludeIndex | thesis/parsers/cmof.py:66-68 | the position of the first `include` key, or the length |
| AnsibleParser.ScanSpec | thesis/parsers/cmof.py:64-78 | the scan succeeds exactly when every module key before the first `include` has a string, list or mapping value; the unit name is the first key other than `name`; `include` adds its value as the one dependency and stops the scan |
| AnsibleParser.ScanSettled | thesis/parsers/cmof.py:66-68 | after `include` or an error, later keys change nothing |
| AnsibleParser.ScanTask | thesis/parsers/cmof.py:62-78 | the loop computes `ScanEntries` |
| AnsibleParser.TasksOutcome | thesis/parsers/cmof.py:61-82 | at most one unit per task, and no unit has an empty name |
| AnsibleParser.TasksOk | thesis/parsers/cmof.py:61-82 | the task list succeeds exactly when every task does |
| AnsibleParser.TasksSnoc | thesis/parsers/cmof.py:61-82 | a task adds its unit when its name is non-empty, and its dependencies |
| AnsibleParser.TasksSettled | thesis/parsers/cmof.py:61-82 | after an error, later tasks change nothing |
| AnsibleParser.RunTasks | thesis/parsers/cmof.py:61-82 | the loop computes `TasksOutcome` |
| AnsibleParser.ParseTasks | thesis/parsers/cmof.py:53-87 | a None file gives an empty block; otherwise the block holds the tasks' units, dependencies and filtered comments, or the parse raises |
| AnsibleParser.Leaves | thesis/parsers/cmof.py:91-95 | every leaf has a non-empty key path and a non-mapping value |
| AnsibleParser.FlattenLeaves | thesis/parsers/cmof.py:90-95 | the variables are exactly one per non-mapping leaf, depth-first in key order, named by its dotted key path and valued `str(leaf)` |
| AnsibleParser.FlattenConcat | thesis/parsers/cmof.py:91-95 | flattening follows the key order of the mapping |
| AnsibleParser.ParseVar | thesis/parsers/cmof.py:90-95 | the block gains exactly the flattened variables, and nothing else changes |
| AnsibleParser.ParseVars | thesis/parsers/cmof.py:89-105 | a None file gives an empty block, a mapping gives its flattened variables, anything else raises |
| ChefNode.MinE | thesis/parsers/cmof.py:177-180 | the minimum over integers and infinity is below both and is one of them |
| ChefNode.LeafBounds | thesis/parsers/cmof.py:163-172 | a positioned node starts at its trailing pair and ends on that line at col + len(content) - 1; an `@ident` after `:` starts exactly one column earlier, any other node at its column; it raises exactly when the content argument is missing or has no length, or an `@ident`'s preceding character is out of range |
| ChefNode.LeadingSpacesSpec | thesis/parsers/cmof.py:192-199 | the count of leading whitespace characters: every character before it is whitespace and the one at it, if any, is not |
| ChefNode.ExtendRight | thesis/parsers/cmof.py:191-200 | the right loop adds `2*i+1` after `i` spaces and a closing bracket, else `i` |
| ChefNode.ShiftLeft | thesis/parsers/cmof.py:204-213 | the left loop moves the start `i+1` left when an opening bracket precedes `i` spaces, else not at all |
| ChefNode.WithBrackets | thesis/parsers/cmof.py:188-218 | bracket adjustment keeps the lines and leaves a finite start column |
| ChefNode.TakeInBrackets | thesis/parsers/cmof.py:188-218 | the method gives `WithBrackets` of the end line's text and the start column that the left loop and the `#{` test compute; a missing end line raises before the start is looked at |
| ChefNode.Adjust | thesis/parsers/cmof.py:186-223 | adjusting keeps the lines and well-formedness |
| ChefNode.AdjustBounds | thesis/parsers/cmof.py:186-223 | the method computes `Adjust` |
| ChefNode.BoundsOf | thesis/parsers/cmof.py:153-225 | bounds are well formed: start line finite exactly when start column is, and infinite only as (inf, inf, 0, 0) |
| ChefNode.ChildrenBoundsOk | thesis/parsers/cmof.py:174-184 | combining children fails exactly when some child fails |
| ChefNode.ChildrenBoundsExtremes | thesis/parsers/cmof.py:174-184 | start line and column are independently the minima, and end line and column the maxima, over the children, each attained or at its initial value |
| ChefNode.ChildrenUnbounded | thesis/parsers/cmof.py:157-184 | unbounded children give (inf, inf, 0, 0) |
| ChefNode.UnboundedWithoutPositions | thesis/parsers/cmof.py:153-225 | a tree with no position pair anywhere is (inf, inf, 0, 0) |
| ChefNode.ChildrenSettled | thesis/parsers/cmof.py:175-184 | after a child raises, later children change nothing |
| ChefNode.CombineChildren | thesis/parsers/cmof.py:174-184 | the min/max loop computes `ChildrenBounds` |
| ChefNode.GetContentBounds | thesis/parsers/cmof.py:153-225 | the method computes `BoundsOf` |
| ChefNode.SpanPrefix | thesis/parsers/cmof.py:246-254 | before the last line, the text is the first line from the start column plus the whole lines between |
| ChefNode.SpanSpec | thesis/parsers/cmof.py:246-254 | one line gives `line[sc:ec+1]`; several give the first line from sc, the middle lines, and the last line up to ec |
| ChefNode.SpanSettled | thesis/parsers/cmof.py:246-254 | after an index error, later lines change nothing |
| ChefNode.CollectSpan | thesis/parsers/cmof.py:246-254 | the accumulation loop computes `SpanText` |
| ChefNode.ContentFixed | thesis/parsers/cmof.py:229-244 | empty string literal, hash and array give `''`, `{}` and `[]`; an unbounded tree gives the empty text |
| ChefNode.GetContent | thesis/parsers/cmof.py:229-259 | the method computes `Content`: the span, plus `end` for a `do_block`, stripped |
| ChefChecker.RemainingSpec | thesis/parsers/cmof.py:277-281 | `check_all` empties the stack when every entry passes; otherwise it stops at the topmost failing entry, which is popped, and every entry above it passed |
| ChefChecker.Checker.constructor | thesis/parsers/cmof.py:265-267 | a checker starts with an empty stack |
| ChefChecker.Checker.Push | thesis/parsers/cmof.py:283-284 | push appends one (tests, ast) entry |
| ChefChecker.Checker.Pop | thesis/parsers/cmof.py:286-287 | pop removes and returns the top entry, and raises on an empty stack |
| ChefChecker.Checker.Check | thesis/parsers/cmof.py:269-275 | check pops exactly one entry and is true exactly when one of its tests passes |
| ChefChecker.Checker.CheckAll | thesis/parsers/cmof.py:277-281 | the result is true exactly when every entry passes, and the stack left is `Remaining` |
| Tracer.UntilSentinelSpec | glitch/repair/interactive/tracer/tracer.py:33-35 | the calls kept are a prefix cut exactly at the first sentinel call, and none of them touches the sentinel |
| Tracer.ScanRecorded | glitch/repair/interactive/tracer/tracer.py:25-36 | the loop records the non-banner lines, parsed, up to the first sentinel call, and stops exactly when one exists |
| Tracer.RecordedSpec | glitch/repair/interactive/tracer/tracer.py:32-36 | recorded calls follow the non-banner lines in order, one each, none holds the sentinel, and the next one does |
| Tracer.BannersIgnored | glitch/repair/interactive/tracer/tracer.py:26-31 | banner lines are never parsed: dropping them changes nothing |
| Tracer.ScanSettled | glitch/repair/interactive/tracer/tracer.py:33-35 | after the sentinel, later lines change nothing |
| Tracer.STrace.constructor | glitch/repair/interactive/tracer/tracer.py:12-13 | a tracer starts with no calls |
| Tracer.STrace.Run | glitch/repair/interactive/tracer/tracer.py:25-38 | `run` appends the recorded calls to the instance's list and returns that list |
| DeltaP.EvalExpr | glitch/tests/repair/interactive/test_patch_solver.py:17-18 | a constant gives its string; a variable gives its binding, or fails when unbound |
| DeltaP.ClosedNeverUnbound | glitch/tests/repair/interactive/test_patch_solver.py:4-42 | a statement whose variables are all bound can only fail on a chmod or chown of a missing file |
| DeltaP.Cost | glitch/tests/repair/interactive/test_patch_solver.py:56 | the cost never exceeds the number of bindings |
| DeltaP.UnchangedCount | glitch/tests/repair/interactive/test_patch_solver.py:56-60 | the count is full exactly when every binding is unchanged |
| DeltaP.NoOverrideFullCost | glitch/tests/repair/interactive/test_patch_solver.py:56-60 | keeping every literal has the full cost |
| DeltaP.Solved | glitch/tests/repair/interactive/test_patch_solver.py:61-63 | a solved value belongs to a binding of that name |
| DeltaP.CreateLast | glitch/tests/repair/interactive/test_patch_solver.py:16-19 | the last write wins: a create leaves a fresh file with its content at its path and every other path as it was |
| PatchScenario.FixtureShape | glitch/tests/repair/interactive/test_patch_solver.py:4-42 | the fixture binds tags 1 to 4, once each, to constants, and every variable is bound by an enclosing let |
| PatchScenario.FixtureEffect | glitch/tests/repair/interactive/test_patch_solver.py:4-42 | under any assignment the fixture leaves one file, with the content, mode and owner its bindings take |
| PatchScenario.LiteralsNotRepair | glitch/tests/repair/interactive/test_patch_solver.py:47-51 | keeping every literal is not a repair, as "0755" is not "0777" |
| PatchScenario.RepairIff | glitch/tests/repair/interactive/test_patch_solver.py:47-55 | an assignment is a repair exactly when mode-3 is "0777" and content-1 and owner-4 match the target |
| PatchScenario.FixtureCost | glitch/tests/repair/interactive/test_patch_solver.py:56-60 | the cost is the number of the four bindings left unchanged |
| PatchScenario.FixtureSolved | glitch/tests/repair/interactive/test_patch_solver.py:61-63 | the solved value of each name is its override or its literal |
| PatchScenario.SolutionIsRepair | glitch/tests/repair/interactive/test_patch_solver.py:53-56 | the test's values form a repair of cost 3 |
| PatchScenario.CostAtMostThree | glitch/tests/repair/interactive/test_patch_solver.py:56-59 | every repair changes mode-3, so no repair costs more than 3 |
| PatchScenario.OptimumUnique | glitch/tests/repair/interactive/test_patch_solver.py:56-63 | a repair of cost 3 keeps bindings 1, 2 and 4, changes 3, and has content-1 = the page, mode-3 = "0777", owner-4 = "web_admin" |

## Left out

- Reading files, walking folders and the `parse_file` dispatch between the single- and multi-stage cases: these are I/O, and the dispatch only composes `GetStages`, `AddUserTag` and `ParseStage`.
- `DockerfileParser`, `bashlex.split`, `ast.literal_eval`, ruamel.yaml loading and the Ruby ripper subprocess are library calls. Their outputs (structure records, token lists, YAML values, trees) are inputs or function parameters. For `ast.literal_eval` (with the `" ".join` after it) and `bashlex.split`, the parameter also says whether the call raises, so the Dockerfile model covers their exceptions.
- DownloadMerge.MergedSpec: takes `unit_block.atomic_units.remove(au)` to remove the verification unit `au` itself. Python's `remove` drops the first element equal to `au`, and `AtomicUnit.__eq__` is defined in glitch/repr/inter.py, which is not part of this model. Under an equality coarser than identity (for example one on positions), an earlier unit equal to `au` would be removed instead.
- DockerStage.InstructionEffect: requires that re-parsing an ONBUILD body yields a shorter value, which holds for a body without its instruction word; this bounds the recursion.
- DockerParser.GetStages: requires the stage indexes to be strictly increasing positions of the structure, which is how the FROM positions are computed.
- The recursive `yaml_comments` walk in thesis/parsers/cmof.py:23-48 over the `ca.comment` and `ca.items` attachments of ruamel's mappings and lists: these attachments are ruamel internals. The (line, text) pairs the walk collects are an input. The token flattening it applies to each attachment is modelled by `ExtractFromToken`, and the `#` filter applied to its result by `YamlComments`.
- Python `str()` of lists and mappings, and `repr` escaping, are a `show` parameter.
- ruamel mapping keys are taken to be strings, and duplicate keys are not modelled.
- `Comment(comment[1])` discards the line; the model does the same and keeps no line.
- `create_ast`/`transverse_ast` and the resource, variable and include checkers: the checker tests are pure predicates. So the order in which `check` tries its tests is not observable, and tests do not push entries.
- The tracer's thread, the `sudo strace` subprocess, the `pwdx` call and printing. `parse_tracer_output` and `get_syscall_with_type` are one uninterpreted `parse` parameter.
- glitch/repair/interactive/delta_p.py and solver.py are not part of this model. The evaluator does only what the fixture exercises, and chmod or chown of a path without a file is taken to fail. The Z3 optimisation is replaced by lemmas about the repair predicate and cost.
- The delete-file test (a `Nil` target): the source marks it as not yet handled.
- `__has_user_tag`: unused.
- glitch/server/server.py and glitch/exceptions.py: only messages and printing.
- glitch/tests/security/docker/test_security.py and glitch/tests/design/terraform/test_design.py: they exercise visitors and parsers that are not part of this model.
- `float('inf')` in the Chef bounds is the `Inf` case of an extended integer, not a float.
