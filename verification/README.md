# FOEDAG build-flow core, modelled in Dafny

This project models the core of FOEDAG, an FPGA design-flow front end:

- **Task execution engine** (`TaskEngine`, `task_manager.dfy`). The registry of the forty pipeline tasks and the fixed execution queue. It starts a whole flow or a single task through the run stack. `runNext` reacts to a task's status change: it advances, aborts or finishes the run. Downstream tasks are invalidated, and running tasks are stopped. Tasks live in an array indexed by id. The Qt signals `started`, `progress`, `done` and the status changes are appended to an event log.
- **OpenFPGA compiler stages** (`OpenFPGA`, `compiler_openfpga.dfy`). The incremental-rebuild check `DesignChanged`, run over an abstract map of file modification times. The `m_state` machine of the synthesis and back-end stages. The builders of the synthesis script and of the VPR command line.
- **Action to task mapping** (`CompilerDefines`, `compiler_defines.dfy`): `toTaskId`.
- **Custom device layouts** (`CustomLayout`, `custom_layout.dfy`). The resource arithmetic of `CustomDeviceResources`, and the template expansion of `generateCustomLayout` with its `buildLines` helper.
- **Device modeller commands** (`DeviceModeling`, `device_modeler.dfy`). The argument scanners and the `{name,value}` parser. The device registry with `add_device`, `get_device` and `device_name`. `define_block`, `define_ports` and `define_constraint`, including constraint-name generation.
- **Tcl option codecs** (`TclArgs`, `tcl_args.dfy`). `separateArg`. The option-name tables. The get/set pairs for synthesis, placement, timing and packing options. The argument walk of the simulation options.

`strings.dfy` gives the Qt and C++ string operations the code relies on: `indexOf`, `mid`, `replace`, `split` with and without empty parts, `trimmed` and `std::to_string`. `trimmed` strips only ASCII whitespace (space, tab, line feed, carriage return, vertical tab, form feed). `QString::trimmed` also strips the other Unicode spaces, such as U+0085, U+00A0, U+2000–U+200A and U+3000; the model does not. `wrappers.dfy` holds `Option` and `Result`.

Several inputs become parameters of the model:
- subprocess results: found or not, and the exit status;
- file modification times;
- whether a template file could be opened, and its lines;
- the saved synthesis script;
- the integer conversion of `convert_string_to_integer`;
- the simulator-name conversion `Simulator::ToSimulatorType`.

## Model

| member | source | states |
|---|---|---|
| TaskEngine.QueueWellFormed | src/Compiler/TaskManager.cpp:139-157 | Every id of the execution queue is a registered task, and the queue lists each id once, in ascending order. |
| TaskEngine.TopLevelStagesWellFormed | src/Compiler/TaskManager.cpp:202-211 | The ten stages startAll appends are registered ids, in strictly ascending order. |
| TaskEngine.TopLevelStagesAreQueuedStages | src/Compiler/TaskManager.cpp:202-211 | Every stage startAll appends is a Regular task and sits in the execution queue. |
| TaskEngine.TaskManager.constructor | src/Compiler/TaskManager.cpp:35-81 | All forty tasks are registered with their titles, status None, not valid and enabled. The queue is the declared execution queue. The run stack, counters and event log start empty. |
| TaskEngine.TaskManager.TaskAt | src/Compiler/TaskManager.cpp:181 | `task(id)` returns a task exactly for a registered id, and that id's task. |
| TaskEngine.TaskManager.TaskId | src/Compiler/TaskManager.cpp:183 | `taskId` gives a registered task's own id, and `invalid_id` for a task that is not registered. |
| TaskEngine.TaskManager.Status | src/Compiler/TaskManager.cpp:192-198 | The result is InProgress iff some task is InProgress; otherwise it is None. |
| TaskEngine.TaskManager.BindTaskCommand | src/Compiler/TaskManager.cpp:233-240 | A registered task becomes valid and nothing else changes; an unknown id changes nothing. |
| TaskEngine.TaskManager.Reset | src/Compiler/TaskManager.cpp:284-288 | Every task's status becomes None, with one status-change event per task in id order. |
| TaskEngine.TaskManager.FindInQueue | src/Compiler/TaskManager.cpp:291-292 | The position found is the first queue position holding the task, or -1 when it is not queued. |
| TaskEngine.TaskManager.CleanAll | src/Compiler/TaskManager.cpp:296-298 | Each listed task is set to None with one event, in order, and every other task is unchanged. |
| TaskEngine.TaskManager.CleanDownStreamStatus | src/Compiler/TaskManager.cpp:290-302 | The tasks set to None are exactly `Downstream(queue, t)`, with one event each, and no other task changes. |
| TaskEngine.DownstreamShape | src/Compiler/TaskManager.cpp:290-302 | `Downstream` is the queue suffix from t's position, or from one earlier when t is a Clean task not at the head. It is empty when t is not queued. |
| TaskEngine.DownstreamOfClean | src/Compiler/TaskManager.cpp:294-295 | An instance of `DownstreamShape`: cleaning synthesis restarts invalidation at the synthesis stage itself. |
| TaskEngine.DownstreamOfUnqueued | src/Compiler/TaskManager.cpp:290-302 | Tasks outside the queue (simulation, views) invalidate nothing. |
| TaskEngine.CleanedAppend | src/Compiler/TaskManager.cpp:297-299 | Cleaning one more id sets exactly that task to None and adds its one event. |
| TaskEngine.TaskManager.Trigger | src/Compiler/TaskManager.cpp:280 | A valid, enabled task goes InProgress, with its status event and progress message. Any other task is left as it is. |
| TaskEngine.TaskManager.Run | src/Compiler/TaskManager.cpp:276-282 | With a non-empty run stack, the head's downstream is invalidated and then the head is triggered. An empty stack changes nothing. |
| TaskEngine.TaskManager.SetEnabled | src/Compiler/TaskManager.cpp:308-310 | `Task::setEnable` sets the enabled flag that `appendTask` and `trigger` read. Only that task's flag changes. Task.cpp is not part of this model. |
| TaskEngine.TaskManager.AppendTask | src/Compiler/TaskManager.cpp:308-310 | The task joins the end of the run stack iff it is enabled. |
| TaskEngine.TaskManager.WriteStatus | src/Compiler/TaskManager.cpp:248-252 | A None or InProgress status is written. The "Running" progress is emitted only for InProgress while counter is 0 and the task count is not 0. The run stack and counter do not change. |
| TaskEngine.TaskManager.FailTask | src/Compiler/TaskManager.cpp:254-273 | A failure counts once, reports "Failed", empties the run stack and emits `done`. |
| TaskEngine.Without | src/Compiler/TaskManager.cpp:265 | `removeAll` keeps exactly the entries that differ from the task and never grows the stack. A stack without the task is returned unchanged. |
| TaskEngine.WithoutAppend | src/Compiler/TaskManager.cpp:265 | Removing from a concatenation removes from each part, so the kept entries stay in their order. |
| TaskEngine.WithoutHead | src/Compiler/TaskManager.cpp:264-266 | After the finished head task is removed, the next head that `run()` starts is the first stack entry holding a different task. |
| TaskEngine.TaskManager.CompleteTask | src/Compiler/TaskManager.cpp:254-273 | A success counts once, reports "Complete" and removes the task from the run stack. If tasks remain, the next head runs; otherwise `done` is emitted. |
| TaskEngine.TaskManager.SetStatus | src/Compiler/TaskManager.cpp:244-274 | Counter and run stack: unchanged for None and InProgress; +1 and cleared for Fail; +1 and the task removed for Success. |
| TaskEngine.TaskManager.StopIfInProgress | src/Compiler/TaskManager.cpp:186-188 | One iteration: task i fails through the abort path iff it was InProgress. |
| TaskEngine.TaskManager.StopCurrentTask | src/Compiler/TaskManager.cpp:185-190 | Exactly the InProgress tasks become Fail and every other status is kept. Each failure is counted and reported in id order. The run stack empties iff some task was stopped. |
| TaskEngine.FailInProgressStops | src/Compiler/TaskManager.cpp:185-190 | After stopping, no task is InProgress, and tasks that were not in progress are untouched. |
| TaskEngine.InProgressIdsExact | src/Compiler/TaskManager.cpp:185-190 | The stopped ids are exactly the InProgress ones, ascending. |
| TaskEngine.TaskManager.AppendTopLevelStages | src/Compiler/TaskManager.cpp:202-211 | The ten appendTask calls add the enabled top-level stages, in pipeline order. |
| TaskEngine.EnabledOnlyMembers | src/Compiler/TaskManager.cpp:308-310 | An id is kept iff it was listed and its task is enabled. |
| TaskEngine.EnabledOnlyReset | src/Compiler/TaskManager.cpp:202-203 | Resetting statuses does not change which stages are enabled. |
| TaskEngine.StartAllStack | src/Compiler/TaskManager.cpp:202-211 | The startAll stack holds exactly the enabled top-level stages, strictly ascending, at most ten. |
| TaskEngine.TaskManager.Launch | src/Compiler/TaskManager.cpp:212-215 | The task count becomes the stack size, the counter restarts at 0, `started` is emitted and the head runs. |
| TaskEngine.TaskManager.StartAll | src/Compiler/TaskManager.cpp:200-217 | While a run is active it changes nothing and emits nothing. Otherwise every task is reset and the stack becomes the enabled top-level stages in order. The count equals its length, the counter is 0, and `started` and the head's run follow. |
| TaskEngine.TaskManager.StartTask | src/Compiler/TaskManager.cpp:219-231 | An active run, an unknown id, or a task that is not valid or not enabled changes nothing. Otherwise the task alone forms the run, with count 1 and counter 0. |
| CompilerDefines.ToTaskId | src/Compiler/CompilerDefines.cpp:48-73 | The result is a top-level stage id, or `invalid_id` exactly for NoAction, Batch and any unlisted value. |
| CompilerDefines.ToTaskIdRoundTrip | src/Compiler/CompilerDefines.cpp:49-67 | Each of the nine pipeline actions maps to its own stage: reading the table backwards from the id gives the action again. |
| CompilerDefines.ToTaskIdInjective | src/Compiler/CompilerDefines.cpp:49-67 | Distinct pipeline actions map to distinct stage ids. |
| CompilerDefines.ToTaskIdIsStage | src/Compiler/CompilerDefines.cpp:48-73 | A valid result is a registered Regular task in the execution queue, never a Clean or other sub-task. |
| OpenFPGA.MtimeOf | src/Compiler/CompilerOpenFPGA.cpp:461-465 | A file without a recorded time counts as missing (-1). |
| OpenFPGA.CompilerOpenFPGA.ScanEntry | src/Compiler/CompilerOpenFPGA.cpp:467-478 | The token loop with its early break reports a hit iff some non-empty trimmed token of the entry names a file that is missing or newer than the netlist. |
| OpenFPGA.CompilerOpenFPGA.ScanInputs | src/Compiler/CompilerOpenFPGA.cpp:466-507 | Each of the three loops finds an outdated entry iff some entry has such a token. |
| OpenFPGA.NotOutdatedIffFresh | src/Compiler/CompilerOpenFPGA.cpp:466-507 | No outdated entry iff every non-empty trimmed token exists and is no newer than the netlist. |
| OpenFPGA.CompilerOpenFPGA.DesignChanged | src/Compiler/CompilerOpenFPGA.cpp:454-520 | The method's answer is `NeedsResynthesis` of the project, the times and the scripts. |
| OpenFPGA.UpToDateIff | src/Compiler/CompilerOpenFPGA.cpp:454-520 | No resynthesis iff all four hold: the netlist exists; design files, include paths and library paths are all fresh; and the saved script equals the new one. |
| OpenFPGA.MissingNetlistForcesSynthesis | src/Compiler/CompilerOpenFPGA.cpp:461-465 | A missing post-synthesis netlist always means the design changed. |
| OpenFPGA.CompilerOpenFPGA.constructor | src/Compiler/CompilerOpenFPGA.h:73-81 | The tool paths, the architecture file, the empty device size and `m_keepAllSignals = false` are the header's defaults. The state None, `NoBitsOpt` and empty P&R options are inherited from Compiler.h, which is not part of this model. |
| OpenFPGA.CompilerOpenFPGA.IPGenerate | src/Compiler/CompilerOpenFPGA.cpp:443-452 | Succeeds iff the project has a design or one could be created, and then sets IPGenerated; otherwise the state is kept. |
| OpenFPGA.CompilerOpenFPGA.Synthesize | src/Compiler/CompilerOpenFPGA.cpp:522-708 | Without a design, and with none created, it fails. A gate-level netlist input succeeds without the tool. An unchanged design succeeds without the tool. In those three cases the state is kept. Otherwise the result is the tool's success, and success sets Synthesized. |
| OpenFPGA.Step | src/Compiler/CompilerOpenFPGA.cpp:774-915 | A failed stage never changes the state. Success needs a design and an admitted state, and a tool run that succeeded where the stage runs one. |
| OpenFPGA.CompilerOpenFPGA.Packing | src/Compiler/CompilerOpenFPGA.cpp:774-828 | Outcome and new state are the packing step of the stage machine. |
| OpenFPGA.CompilerOpenFPGA.GlobalPlacement | src/Compiler/CompilerOpenFPGA.cpp:830-847 | Succeeds iff there is a design and the state is Packed, GloballyPlaced or Placed. Success sets GloballyPlaced; failure keeps the state. |
| OpenFPGA.CompilerOpenFPGA.Placement | src/Compiler/CompilerOpenFPGA.cpp:849-882 | Outcome and new state are the placement step. |
| OpenFPGA.CompilerOpenFPGA.Route | src/Compiler/CompilerOpenFPGA.cpp:884-915 | Outcome and new state are the routing step. |
| OpenFPGA.CompilerOpenFPGA.GenerateBitstream | src/Compiler/CompilerOpenFPGA.cpp:1095-1159 | Outcome and new state are the bitstream step for the configured bitstream option. |
| OpenFPGA.BackEndFromPacked | src/Compiler/CompilerOpenFPGA.cpp:830-915 | With working tools, Packed leads through GloballyPlaced and Placed to Routed. NoBitsOpt then succeeds with Routed kept. |
| OpenFPGA.RouteNeedsPlacement | src/Compiler/CompilerOpenFPGA.cpp:889-910 | Routing succeeds iff there is a design, the state is Placed and the tool succeeded. |
| OpenFPGA.NoBitsOptNeedsRoute | src/Compiler/CompilerOpenFPGA.cpp:1100-1113 | With NoBitsOpt the bitstream step succeeds iff there is a design and the state is Routed. The state never changes. |
| OpenFPGA.PlacementNeedsPacking | src/Compiler/CompilerOpenFPGA.cpp:835-843 | Global and detailed placement fail, with the state unchanged, from None, IPGenerated, Synthesized, Routed or BistreamGenerated. |
| OpenFPGA.CompilerOpenFPGA.FinishSynthesisScript | src/Compiler/CompilerOpenFPGA.cpp:718-733 | The loop builds `FinishedScript`: the keep lines, the optimisation and the LUT size substituted into the script. |
| OpenFPGA.KeepLinesHasEveryName | src/Compiler/CompilerOpenFPGA.cpp:722-728 | Every name to keep gets its own `setattr -set keep 1` line in the keep block. |
| OpenFPGA.FinishedScriptWithoutPlaceholders | src/Compiler/CompilerOpenFPGA.cpp:729-731 | A script without the three placeholders is left unchanged. |
| OpenFPGA.CompilerOpenFPGA.BaseVprCommand | src/Compiler/CompilerOpenFPGA.cpp:735-772 | The loop builds `VprCommand` from the tool, the architecture, the chosen netlist and the options. |
| OpenFPGA.NetlistFileIsLastNetlist | src/Compiler/CompilerOpenFPGA.cpp:740-759 | The netlist is the last netlist-type design file, with `../` prepended when the path is relative. Without one it is `<project>_post_synth.blif`. |
| OpenFPGA.VprCommandOptions | src/Compiler/CompilerOpenFPGA.cpp:736-771 | The command without options ends with ` --route_chan_width <width>`. A device size adds ` --device <size>` right after it. Extra P&R options follow last, after one space. An empty size or empty options add nothing. |
| CustomLayout.Resources | src/NewProject/CustomLayoutBuilder.cpp:395-401 | Width and height are copied. The BRAM and DSP column counts are the numbers of non-empty comma-separated parts of their inputs. |
| CustomLayout.ColumnCountOfList | src/NewProject/CustomLayoutBuilder.cpp:398-400 | Joining non-empty, comma-free column names with commas and splitting again gives the same columns. |
| CustomLayout.TruncDiv | src/NewProject/CustomLayoutBuilder.cpp:410-416 | C++ integer division, truncating toward zero, also for a negative height. |
| CustomLayout.IsHeightValidIff | src/NewProject/CustomLayoutBuilder.cpp:427-433 | The height is valid iff it exceeds 2 and, when any BRAM or DSP column exists, height-2 is a multiple of 3. |
| CustomLayout.IsValidIff | src/NewProject/CustomLayoutBuilder.cpp:403-425 | Valid iff the height is valid and logic columns remain. A valid layout has height > 2, `lutsCount` > 0 and `ffsCount` = 2·`lutsCount` > 0, with BRAM and DSP counts = columns × ((height-2) div const). |
| CustomLayout.ShortDeviceHasNoBlocks | src/NewProject/CustomLayoutBuilder.cpp:410-433 | For a device at most 2 high, the BRAM, DSP and carry counts are zero or negative (truncation rounds toward zero), and the device is never valid. |
| CustomLayout.CutAtFirstClose | src/NewProject/CustomLayoutBuilder.cpp:59 | The template line is cut just after its first `/>`. |
| CustomLayout.CutWithoutClose | src/NewProject/CustomLayoutBuilder.cpp:59 | Without a `/>`, `mid(0, -1 + 2)` keeps the first character only. |
| CustomLayout.ColumnLines | src/NewProject/CustomLayoutBuilder.cpp:60-65 | One line per column, in order: the cut template with `${STARTX}` replaced by that column, plus a newline. |
| CustomLayout.BuildLines | src/NewProject/CustomLayoutBuilder.cpp:53-67 | Fewer than two `:`-separated parts returns (false, "Template file is corrupted") and appends nothing. Otherwise it returns true and appends exactly one line per non-empty column. |
| CustomLayout.PlainTemplateIsCopied | src/NewProject/CustomLayoutBuilder.cpp:68-86 | A template without placeholders or BRAM/DSP markers is copied line for line. |
| CustomLayout.BramLineExpansion | src/NewProject/CustomLayoutBuilder.cpp:76-78 | A BRAM marker line expands to one line per BRAM column, or fails as corrupted. |
| CustomLayout.AppendLayoutLine | src/NewProject/CustomLayoutBuilder.cpp:69-84 | One template line either appends its expansion or stops with its error. |
| CustomLayout.LayoutErrorPersists | src/NewProject/CustomLayoutBuilder.cpp:76-81 | Once a line fails, the whole layout fails with that line's error. |
| CustomLayout.GenerateCustomLayout | src/NewProject/CustomLayoutBuilder.cpp:46-88 | A template that cannot be opened gives "Failed to open template layout <path>". A corrupted marker line gives its error. Otherwise the result is the concatenated expanded layout. |
| DeviceModeling.DeviceModeler.constructor | src/DeviceModeling/device_modeler.h:41-44 | The device registry starts empty, with no current device. |
| DeviceModeling.DeviceModeler.AddDevice | src/DeviceModeling/device_modeler.h:54-59 | Inserts and returns true iff the name is absent, after which `GetDevice(name)` returns that device. Otherwise returns false and leaves the map unchanged. |
| DeviceModeling.DeviceModeler.GetDevice | src/DeviceModeling/device_modeler.h:68-76 | The stored device for a registered name, nothing otherwise. |
| DeviceModeling.DeviceModeler.DeviceName | src/DeviceModeling/device_modeler.h:89-100 | Fails with "Invalid device name" when the name is missing or does not start with a letter, digit or `_`. Otherwise the current device becomes the existing entry, or a new device registered under that name. |
| DeviceModeling.FirstValueIndex | src/DeviceModeling/device_modeler.h:165-178 | The first position of the flag that has a successor, or -1 when there is none. |
| DeviceModeling.GetArgumentValueMeaning | src/DeviceModeling/device_modeler.h:165-178 | The value is the token after the first occurrence of the flag that has a successor. |
| DeviceModeling.GetArgumentValueAbsent | src/DeviceModeling/device_modeler.h:165-178 | Without such an occurrence the value is "" when not required, and a "missing argument" error when required. |
| DeviceModeling.ArgumentExists | src/DeviceModeling/device_modeler.h:205-214 | True iff some token equals the name. |
| DeviceModeling.ArgumentValues | src/DeviceModeling/device_modeler.h:179-203 | The text is built from the tokens after the first occurrence of the flag that is not the last token. Without such an occurrence it is "", or a "missing argument" error when required. |
| DeviceModeling.ArgumentValuesAfter | src/DeviceModeling/device_modeler.h:183-197 | With the flag first found at some position and followed by tokens, the text is built from exactly those following tokens. |
| DeviceModeling.ValuesTextIsJoin | src/DeviceModeling/device_modeler.h:192-196 | When every token up to the next `-` token starts with a letter or `_`, the tokens are concatenated with a `,` after each one. |
| DeviceModeling.ValuesTextOfIdentifiers | src/DeviceModeling/device_modeler.h:179-203 | Splitting the collected text at commas gives the identifiers back, followed by an empty part. |
| DeviceModeling.Groups | src/DeviceModeling/device_modeler.h:144-163 | The `{...}` groups found are non-empty and contain no `}`. |
| DeviceModeling.ValuesTextGlued | src/DeviceModeling/device_modeler.h:192-196 | A token led by `{` is copied with no comma after it. |
| DeviceModeling.ValuesTextOfBraced | src/DeviceModeling/device_modeler.h:192-196 | A run of `{name,value}` tokens up to the next `-` token is glued together with no separator. |
| DeviceModeling.GroupsOfBraced | src/DeviceModeling/device_modeler.h:144-163 | The groups of a sequence of braced groups are those groups, in order. |
| DeviceModeling.PairNames | src/DeviceModeling/device_modeler.h:150-160 | The names are exactly those of the groups that contain a comma. |
| DeviceModeling.ParseValues | src/DeviceModeling/device_modeler.h:144-163 | When every value converts, parsing succeeds and the names defined are exactly the names of the groups that hold a comma. |
| DeviceModeling.BracedValuesParse | src/DeviceModeling/device_modeler.h:179-203 | `{name,value}` tokens after the flag are found again: `get_argument_values` glues them, `parse_values` reads each group back, and the names defined are exactly the groups' names. |
| DeviceModeling.ParsePairsKeys | src/DeviceModeling/device_modeler.h:144-163 | When every value converts, the map's keys are the names of the groups that contain a comma. Groups without a comma are skipped. |
| DeviceModeling.ParsePairsLastWins | src/DeviceModeling/device_modeler.h:155-160 | A name maps to the converted value of its last group, so later duplicates overwrite earlier ones. |
| DeviceModeling.ParsePairsKeep | src/DeviceModeling/device_modeler.h:155-160 | Entries whose name no group mentions are kept. |
| DeviceModeling.PortRun | src/DeviceModeling/device_modeler.h:332-341 | The tokens after `-in`/`-out` up to the next `-` token become ports with that direction. |
| DeviceModeling.PortRunOfNames | src/DeviceModeling/device_modeler.h:332-341 | A run of non-dash names followed by a flag becomes exactly one port per name. |
| DeviceModeling.ScanPorts | src/DeviceModeling/device_modeler.h:329-342 | The scan only appends ports, and every port name it adds is a non-dash token. |
| DeviceModeling.ScanStep | src/DeviceModeling/device_modeler.h:329-341 | One turn of the argument loop moves strictly forward and leaves the outcome of the scan unchanged: scanning the rest from the new position with the new name and ports gives what scanning from the old position would. |
| DeviceModeling.ScanPortArgs | src/DeviceModeling/device_modeler.h:326-342 | The argument loop of define_block/define_ports computes `ScanPorts`: the block name and the ports in order. |
| DeviceModeling.ReadPorts | src/DeviceModeling/device_modeler.h:334-340 | The inner loop appends the port run after a direction flag and stops at the next dash token. |
| DeviceModeling.DeviceModeler.DefineBlock | src/DeviceModeling/device_modeler.h:319-356 | Without a current device, the auto-generated device is created and made current first. An empty block name fails. Otherwise the block with its ports is added to the current device. |
| DeviceModeling.DeviceModeler.DefinePorts | src/DeviceModeling/device_modeler.h:423-465 | Fails when there is no current device, the block name is empty, the block is unknown, or no ports are given. Otherwise the ports are appended to the block. |
| DeviceModeling.GeneratedNameInjective | src/DeviceModeling/device_modeler.h:861-866 | `<block>_constraint_<idx>` names differ for different indices. |
| DeviceModeling.GeneratedNamesCount | src/DeviceModeling/device_modeler.h:861-866 | Any n consecutive indices give n distinct names. |
| DeviceModeling.FreshConstraintName | src/DeviceModeling/device_modeler.h:858-867 | The loop terminates. Its name is `<block>_constraint_<idx>` with idx ≥ the map size, is not a key, and every index skipped before it was taken. |
| DeviceModeling.DeviceModeler.DefineConstraint | src/DeviceModeling/device_modeler.h:839-870 | Fails with the source's messages for fewer than 3 arguments, a missing `-constraint` or no current device. Otherwise the constraint is stored in the named block, or in the device itself, under the given name or the first free generated one. This is the corrected key, see Findings; as written, a named constraint is stored under "". |
| DeviceModeling.Scope | src/DeviceModeling/device_modeler.h:853-857 | The constraint's block is the device itself for an empty `-block`, otherwise the named block when it exists. |
| DeviceModeling.ConstraintKeyAsWritten | src/DeviceModeling/device_modeler.h:858-868 | As written, the generated name is used when no name is given. NamedConstraintsCollide shows what happens to a given name. |
| DeviceModeling.NamedConstraintsCollide | src/DeviceModeling/device_modeler.h:858-868 | Two differently named constraints land on the same key, the empty one. |
| DeviceModeling.ConstraintKey | src/DeviceModeling/device_modeler.h:858-868 | The intended key is the given name, or the generated one when no name is given. |
| DeviceModeling.ConstraintKeysDistinct | src/DeviceModeling/device_modeler.h:858-868 | With the intended key, differently named constraints never collide. |
| TclArgs.Flag | src/Main/Tasks.cpp:142-145 | The searched flag starts with a dash; one is prepended only when missing. |
| TclArgs.SeparateArgAsWritten | src/Main/Tasks.cpp:135-154 | An empty name or an absent flag returns ("", argString) unchanged. |
| TclArgs.SeparateArg | src/Main/Tasks.cpp:135-154 | An empty name or an absent flag gives ("", argString). Otherwise the target runs from the flag's first occurrence to the next dash or the end, and the rest is argString with every occurrence of the target removed. |
| TclArgs.SeparatedArgShape | src/Main/Tasks.cpp:147-150 | The target starts with a dash, holds no other dash, occurs where the flag first occurs, and no earlier position holds the flag. |
| TclArgs.SeparateArgAgreement | src/Main/Tasks.cpp:147-150 | When the flag opens the string, or no dash follows it, the code as written takes out the intended target. |
| TclArgs.SeparateArgLosesFollowingArgs | src/Main/Tasks.cpp:149 | As written, `separateArg("s", "-a -s -b")` takes out "-s -b" and leaves "-a ". |
| TclArgs.SeparateArgKeepsFollowingArgs | src/Main/Tasks.cpp:149 | With the intended length the same call takes out "-s " and leaves "-a -b". |
| TclArgs.SeparateLastArg | src/Main/Tasks.cpp:135-154 | A `-name value` that ends the text, after other text that does not hold the flag, is taken out whole. What remains is the other text followed by the space that stood before the flag. |
| TclArgs.SeparateOfTrimmed | src/Main/Tasks.cpp:231-242 | On the trimmed text `more -name value`, the flag and value come out as two tokens. What remains is `more ` with its trailing space, or "" when `more` is empty. The as-written `separateArg` gives the same pair. |
| TclArgs.OwnTextAgreement | src/Main/Tasks.cpp:147-150 | On a getter's `-name value`, the as-written `separateArg` takes out the same as the corrected one. |
| TclArgs.LastArgAgreement | src/Main/Tasks.cpp:147-150 | On `more -name value`, with the flag last and absent from `more`, the as-written `separateArg` takes out the same as the corrected one. |
| TclArgs.SeparateArgOfOwnText | src/Main/Tasks.cpp:135-154 | A `-name value` string, as the getters produce it, is taken out whole, leaving "". |
| TclArgs.Lookup | src/Main/Tasks.cpp:182-195 | `find_if` over the table: the key of an entry with that name, or the default when no entry has it. |
| TclArgs.LookupFinds | src/Main/Tasks.cpp:182-195 | In a table with distinct names, an entry's name looks up that entry's key. |
| TclArgs.SynthOptToStr | src/Main/Tasks.cpp:177-179 | The name is the one `synthOptMap` pairs with the option. |
| TclArgs.SynthStrToOpt | src/Main/Tasks.cpp:182-195 | An unknown name gives None. |
| TclArgs.SynthOptRoundTrip | src/Main/Tasks.cpp:157-195 | `synthStrToOpt(synthOptToStr(o)) == o` for all five options. |
| TclArgs.PinOptToStr | src/Main/Tasks.cpp:197-199 | The name is the one `pinOptMap` pairs with the option. |
| TclArgs.PinStrToOpt | src/Main/Tasks.cpp:201-214 | An unknown name gives In_Define_Order. |
| TclArgs.PinOptRoundTrip | src/Main/Tasks.cpp:164-167 | `pinStrToOpt(pinOptToStr(o)) == o` for all three options. |
| TclArgs.NetlistName | src/Main/Tasks.cpp:170-174 | The name is the one `netlistOptMap` pairs with the type. |
| TclArgs.TimingEngineOf | src/Main/Tasks.cpp:491-508 | The engine is OpenSTA iff the separated argument's second token is `opensta`, otherwise tatum. |
| TclArgs.TimingRoundTrip | src/Main/Tasks.cpp:474-508 | Setting the timing options from the getter's `-_StaOpt_ opensta\|tatum` keeps the engine. On that text the as-written `separateArg` takes out the same as the corrected one. |
| TclArgs.NetlistTypeOf | src/Main/Tasks.cpp:544-563 | Without a second token, or with an unknown name, the netlist type is Verilog. |
| TclArgs.PackingRoundTrip | src/Main/Tasks.cpp:544-571 | Setting the packing options from the getter's `-netlist_lang <name>` keeps the netlist type. On that text the as-written `separateArg` takes out the same as the corrected one. |
| TclArgs.CompilerOptions.SynthesisOptions | src/Main/Tasks.cpp:218-227 | The text starts with the extra options and ends with a name that decodes back to the synthesis option. |
| TclArgs.CompilerOptions.SetSynthesisOptions | src/Main/Tasks.cpp:231-242 | The value after `-_SynthOpt_` in the trimmed text sets the option when present. The remaining text becomes the extra options. |
| TclArgs.SynthesisSetOfGet | src/Main/Tasks.cpp:218-242 | Setting the synthesis options from the getter's text keeps the synthesis option when the extra options do not hold the flag and do not start with blank space. Non-empty extra options come back with one more trailing space. On the getter's text the as-written `separateArg` takes out the same as the corrected one. |
| TclArgs.CompilerOptions.PlacementOptions | src/Main/Tasks.cpp:244-251 | The text starts with the extra options and ends with a name that decodes back to the pin-assignment option. |
| TclArgs.CompilerOptions.SetPlacementOptions | src/Main/Tasks.cpp:253-264 | The value after `-pin_assign_method` sets the option when present. The remaining text becomes the extra placement options. |
| TclArgs.PlacementSetOfGet | src/Main/Tasks.cpp:244-264 | Setting the placement options from the getter's text keeps the pin-assignment option when the extra options do not hold the flag. The extra options come back with one more trailing space. On the getter's text the as-written `separateArg` takes out the same as the corrected one. |
| TclArgs.CompilerOptions.TimingAnalysisOptions | src/Main/Tasks.cpp:474-488 | The text is `-_StaOpt_ opensta` for OpenSTA and `-_StaOpt_ tatum` otherwise. |
| TclArgs.CompilerOptions.SetTimingAnalysisOptions | src/Main/Tasks.cpp:491-508 | The engine is always written, as `TimingEngineOf` the text. |
| TclArgs.CompilerOptions.PackingOptions | src/Main/Tasks.cpp:566-571 | The text is `-netlist_lang <name>`, and setting it back gives the same type. |
| TclArgs.CompilerOptions.SetPackingOptions | src/Main/Tasks.cpp:544-563 | The netlist type is always written, as `NetlistTypeOf` the text. |
| TclArgs.ArgPairs | src/Main/Tasks.cpp:323-335 | There are no more pairs than tokens, and every value is empty or does not start with a dash. |
| TclArgs.ArgPairsFlatten | src/Main/Tasks.cpp:323-335 | The walk loses no token and invents none: flattening the pairs gives the tokens back. |
| TclArgs.NextArg | src/Main/Tasks.cpp:324-335 | A step advances by 2 when a non-dash token follows, taking it as the value. Otherwise it advances by 1 with an empty value. |
| TclArgs.LastValue | src/Main/Tasks.cpp:337-338 | The value found belongs to a pair with that argument, and one is found iff such a pair exists. |
| TclArgs.LastSimulator | src/Main/Tasks.cpp:340-353 | The simulator found comes from a pair with that argument whose value converts; none is found iff no such value converts. |
| TclArgs.SimulatorSettings.SetSimulateOptions | src/Main/Tasks.cpp:312-355 | The loop terminates. The wave file of the simulation type becomes the value of the last `-<type>_filepath`. The user simulator becomes that of the last `-<type>_sim_type` whose value names a simulator. Both are unchanged when absent. |
| TclArgs.SimulatorSettings.ApplyArg | src/Main/Tasks.cpp:337-353 | One argument sets the wave file, or the simulator when its value converts, and nothing else. |

## Left out

- Qt signal/slot plumbing, `qRegisterMetaType`, `qDeleteAll` and the report-manager registry are not modelled. Signals are entries of the event log, and connected slots are plain method calls.
- Task.cpp is not part of this model. `Task::setStatus` is taken to always emit `statusChanged`, and `Task::trigger` to set InProgress on a valid, enabled task and emit `taskTriggered`. A bound command that finishes is modelled as an explicit `SetStatus(id, status)` call rather than re-entrant signal delivery. `runNext` therefore runs synchronously.
- TaskManager.h is not part of this model. Task ids are taken as 0..39 in the constructor's registration order, and `invalid_id` as 0xFFFFFFFF.
- TaskEngine.TaskManager.SetStatus: the dispatcher states only the run-stack, counter and status effects. The events and the follow-up run are stated by WriteStatus, FailTask and CompleteTask, which it calls.
- TaskManager's `sender()` null check, `setTaskCount` and `getReportManagerRegistry` are not modelled; they are plumbing.
- Counters and resource counts are unbounded integers. The 32-bit overflow of `counter`, `m_taskCount` and the `int` arithmetic of CustomDeviceResources is not modelled.
- CompilerOpenFPGA: subprocess execution, file writes and removes, the `chdir` in DesignChanged, and the Tcl command registration are not modelled. Tool runs, modification times and the saved script are parameters.
- OpenFPGA.CompilerOpenFPGA.Synthesize: the Yosys template substitutions before `FinishSynthesisScript` (file lists, top module, include paths) are taken as the `rawScript` input. Creating the design (`CreateDesign`) is a boolean input.
- TimingAnalysis and PowerAnalysis of CompilerOpenFPGA do not touch `m_state` and are not modelled. Packing's SDC file writing and `LoadDeviceData` XML parsing are not modelled.
- Compiler.h is not part of this model. The enumerations SynthesisOpt, PinAssignOpt, NetlistType and STAEngineOpt are taken to hold exactly the values the option tables name. STAEngineOpt is Tatum or Opensta.
- CustomLayoutBuilder: the XML and file functions (`generateNewDevice`, `modifyDevice`, `removeDevice`, `fromFile`, `saveCustomLayout`, `testTemplateFile`, `modifyDeviceData`) are not modelled. `bramConst` and `dspConst` come from an unseen header and are positive parameters. `${NAME}` personalisation replaces the name, width and height placeholders as plain text.
- device.h is not part of this model. Blocks, ports and constraints are plain values, and `add_block`, `add_port` and `add_constraint` are map updates.
- device_modeler.h: the `double` branch of `define_param_type` is not modelled (floating point). Parameter and attribute classes and spdlog logging are also not modelled. `convert_string_to_integer` (base-0 `stoi`) is a partial function given as a parameter. Sharing of device and block pointers between the registry and `current_device_` is modelled by value, so aliasing is not captured.
- DeviceModeling.DeviceModeler.DefineConstraint: an unknown `-block` makes the source dereference a null block. The model returns the error `no such block` instead. The constraint's expression object is modelled as its text.
- Tasks.cpp: the null-compiler early returns are not modelled; a compiler is taken to exist. The Settings JSON lookup and the `simulation_options` commands pushed for `-sim_`/`-el_`/`-com_` options are not modelled. Dialogs and `GlobalSession` are not modelled either.
- StringUtils is not part of this model. Its `tokenize(…, true)` is taken as splitting at spaces and skipping empty parts, and `startsWith` as a prefix test. `ReplaceAll`, on which `FinishSynthesisScript` depends, is taken to replace every occurrence left to right, without overlap and without rescanning the inserted text, as `QString::replace` does.
- Simulator.h is not part of this model. `ToSimulatorType` is a parameter. The simulation types use the names Tasks.cpp uses (RTL, Gate, PNR, BitstreamBackDoor).
- TclArgs.CompilerOptions.SynthesisOptions: set(get()) is not exact for the extra options. The getter always puts the flag last, so `separateArg` takes out only the flag and its value. `replace` then leaves the text before it, including the space the getter put before the flag. Non-empty extra options therefore come back with one more trailing space on each round (`SynthesisSetOfGet`, `PlacementSetOfGet`). The synthesis and pin-assignment options themselves survive whenever the extra options do not hold the flag text. For synthesis, the extra options must also not start with blank space, because the setter trims.
- TclArgs.CompilerOptions.SetSynthesisOptions: splits the flag out with the corrected `SeparateArg`, not the as-written `separateArg` that Tasks.cpp:233 calls. The source passes `mid` the absolute position of the next dash as a length. On text where a dash follows the flag, and the flag is not at position 0, the source takes more out than the model: on "-a -_SynthOpt_ area -b x" it keeps "-a x" as the extra options, where the model keeps "-a -b x". On the getter's own text the two agree (`SynthesisSetOfGet`).
- TclArgs.CompilerOptions.SetPlacementOptions: the same difference, at Tasks.cpp:255. `setPlacementOptions("-a -pin_assign_method random -b x")` stores "-a x" in the source and "-a -b x" in the model. On the getter's own text the two agree (`PlacementSetOfGet`).
- TclArgs.CompilerOptions.SetTimingAnalysisOptions: the same difference, at Tasks.cpp:497, through `TimingEngineOf`. On the getter's own text the two agree (`TimingRoundTrip`).
- TclArgs.CompilerOptions.SetPackingOptions: the same difference, at Tasks.cpp:549, through `NetlistTypeOf`. On the getter's own text the two agree (`PackingRoundTrip`).
- TclArgs.TimingEngineOf: reads the value from the corrected `SeparateArg`. Where the as-written cut runs past the value, the value token can differ. On "x -_StaOpt_ opensta-y" the source cuts to the end of the string, and its second token is "opensta-y". The model's is "opensta", so the model picks OpenSTA where the source picks tatum.
- TclArgs.NetlistTypeOf: reads the value from the corrected `SeparateArg`, with the same difference as `TimingEngineOf`.
- Report parsing and display, UI forms, the command line and the Tcl interpreter are outside the modelled core.

## Findings

| source | as written | input that shows it | evidently intended | confidence | as-written member | corrected member |
|---|---|---|---|---|---|---|
| src/Main/Tasks.cpp:149 | `mid(argIdx, indexOf("-", argIdx + 1))` passes the absolute position of the next dash as the length | `separateArg("s", "-a -s -b")` returns ("-s -b", "-a "): the following `-b` is lost from the remaining options | length `next - argIdx` (or -1 when no dash follows), returning ("-s ", "-a -b") | high, not executed | TclArgs.SeparateArgLosesFollowingArgs | TclArgs.SeparateArg |
| src/DeviceModeling/device_modeler.h:858-868 | `nm` is assigned only when no `-name` is given, so a named constraint is stored under the empty key | `define_constraint -name c1 -constraint x` then `-name c2 -constraint y` on one block: both use key "", the second replacing the first | store the constraint under its given name | medium, not executed | DeviceModeling.NamedConstraintsCollide | DeviceModeling.ConstraintKey |
