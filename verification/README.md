# cocotb-test simulator driver, modelled in Dafny

cocotb-test runs cocotb testbenches from pytest. Its core is three pieces:

- `run()` picks a simulator backend by name.
- The `Simulator` class prepares a job from its arguments. It normalises and formats the sources and toplevels, validates the timescale and builds the environment.
- Each backend's `build_command` turns the job into the command lines that compile and simulate. These backends are Icarus, Questa/Modelsim, Ius/Xcelium, VCS, GHDL, Riviera/Active-HDL and Verilator.

After the commands run, `Simulator.run` counts the failures in the cocotb results document. Beside this sit two smaller parts:

- The pytest plugin merges the per-test results files into one report.
- The `Testbench` helper forwards template parameters from the command line and resolves them.

The model is pure. Python lists are `seq`, dicts are insertion-ordered association lists (`Common.Dict`), and raised exceptions are `Failure(Error)` values of a `Result`. What the driver reads from the machine is passed in as a `Host.Host` value:

- `abspath`, the working directory, `isdir`, file modification times, `which` and the `cocotb.config` library names;
- the `WAVES` variable and the temporary file name.

A backend's `build_command` is a function from a `Job.Job` and a `Host` to a `Result<seq<Cmd>>`. The Aldec backends return the do-script they write as a sequence of Tcl statements, and the environment they leave behind.

Modules follow the source's structure:

- `Common`: errors, `Option`/`Result`, dicts, string helpers.
- `Tcl`: `as_tcl_value`, and how Tcl reads a word back.
- `Words`: Tcl command-line reading.
- `Timescale`: the timescale check.
- `Paths`: `normalize_paths` and `get_abs_paths`.
- `Host`: the machine.
- `Rebuild`: `outdated_list` and `outdated`.
- `Job`: the constructor, the toplevel accessors and `format_input`.
- `Flags`: the shapes of the include, define and parameter renderers.
- One module per backend family: `Icarus`, `Questa`, `Cadence`, `Vcs`, `Ghdl`, `Aldec`, `Verilator`.
- `Xml`: an already parsed results document.
- `Facade`: `run()`, `execute` and the failure count.
- `Plugin`: the pytest plugin.
- `Testbench`: the `Testbench` helper.

Each renderer is partnered with a reader and a round-trip lemma:

- Parameter tokens are parsed back into the parameter dict.
- Flag/value pairs are unpaired.
- `as_tcl_value` output is substituted back by Tcl's backslash rules.
- Whole do-script statements are split back by a model of Tcl's word splitting into the words the script means to run.

Predicates about the produced programs and command words (`Common.Programs`, `Aldec.Verbs`) connect each `build_command` to its plan.

## Model

| member | source | states |
|---|---|---|
| Common.AfterLast | cocotb_test/simulator.py:391 | `rsplit(c, 1)[-1]` is the suffix of the input after its last `c`: it holds no `c`, is preceded by a `c` when the input holds one, and is the whole input otherwise |
| Common.BeforeFirst | cocotb_test/simulator.py:397 | `split(c, 1)[0]` is the prefix of the input before its first `c`: it holds no `c`, is followed by a `c` when the input holds one, and is the whole input otherwise |
| Common.AfterLastAfterSeparator | cocotb_test/simulator.py:391 | for `x + c + t` with no `c` in `t`, the part after the last `c` is exactly `t` |
| Common.BeforeFirstBeforeSeparator | cocotb_test/simulator.py:397 | for `m + c + t` with no `c` in `m`, the part before the first `c` is exactly `m` |
| Common.ReplaceChar | cocotb_test/plugin.py:13 | single-character `replace` keeps the length and changes exactly the occurrences of the replaced character |
| Common.Lookup | cocotb_test/testbench.py:73-77 | a dict lookup misses exactly when the key is not among the keys, and a hit is a stored pair |
| Common.StoreKeys | cocotb_test/testbench.py:41 | `d[k] = v` keeps the key order for an existing key and appends a new key at the end |
| Common.StoreLookup | cocotb_test/testbench.py:41 | after `d[k] = v`, looking up `k` gives `v` and every other key gives what it gave before |
| Common.StoreNew | cocotb_test/simulator.py:295 | assigning a key not yet present appends the pair |
| Common.Lower | cocotb_test/testbench.py:50 | lower-casing maps each character on its own and keeps the length |
| Common.NatToString | cocotb_test/simulator.py:264-265 | `str(n)` is a non-empty run of decimal digits without a leading zero |
| Common.NatToStringRoundTrip | cocotb_test/simulator.py:264-265 | reading back the decimal text of a count gives the count |
| Common.IntToString | cocotb_test/simulator.py:178-179 | `str(seed)` is non-empty, starts with `-` exactly for negative numbers, is otherwise made of decimal digits, and reads back as the number (after the sign, as its magnitude) |
| Common.PathJoinLeaf | cocotb_test/plugin.py:12-13 | joining a `/`-free name onto a directory extends the directory and makes the name the last path component |
| Common.Programs | cocotb_test/simulator.py:338-344 | the program of every command, position by position |
| Common.ProgramsAppend | cocotb_test/simulator.py:338-344 | the programs of concatenated command lists are the concatenated programs |
| Tcl.AsTclValue | cocotb_test/simulator.py:21-29 | succeeds exactly for a non-empty value, which raises `IndexError` otherwise; Tcl's backslash substitution turns the result back into the value |
| Tcl.AsTclValues | cocotb_test/simulator.py:572 | escaping a list fails exactly when one value is empty; each escaped element substitutes back to its value |
| Tcl.EscapeAll | cocotb_test/simulator.py:946 | escaping element by element keeps the positions |
| Tcl.AsTclValuesIsEscapeAll | cocotb_test/simulator.py:572 | on non-empty values, the failing list escape agrees with the total element-wise escape |
| Tcl.PipelineIsPerCharacter | cocotb_test/simulator.py:23-25 | the three regex substitutions in sequence equal one escape per input character |
| Tcl.EscapeDecomposed | cocotb_test/simulator.py:23-27 | the result is the per-character escape, preceded by one backslash exactly when the value starts with `"` |
| Tcl.EscapeRoundTrip | cocotb_test/simulator.py:21-29 | backslash substitution undoes the escape for every value |
| Tcl.EscapeNoNewline | cocotb_test/simulator.py:24 | the escaped value holds no raw newline |
| Tcl.EscapeLeadingQuote | cocotb_test/simulator.py:26-27 | a leading `"` comes out as `\"` |
| Tcl.EscapeAtPosition | cocotb_test/simulator.py:23-25 | each backslash, brace and whitespace character of the input sits in the output behind a backslash, and every other character is kept |
| Tcl.EscapeIdentity | cocotb_test/simulator.py:21-29 | a value with nothing to escape and no leading quote passes through unchanged |
| Tcl.ScanWord | cocotb_test/simulator.py:964 | reading one bare Tcl word consumes input and stops at a word separator or at the end |
| Tcl.ScanEscape | cocotb_test/simulator.py:21-29 | the escaped form of a non-empty, substitution-free value is read by Tcl as exactly that one word |
| Tcl.WordsOfEscapedJoin | cocotb_test/simulator.py:946 | escaped values joined by spaces split back into exactly the values |
| Words.ScanEscapeAny | cocotb_test/simulator.py:21-29 | an escaped value in front of any text reads as the value glued to the word that text starts |
| Words.ReadsTagged | cocotb_test/simulator.py:919-922 | `+incdir+`/`+define+` followed by an escaped value reads as the prefixed value |
| Words.ReadsWord | cocotb_test/simulator.py:937 | an escaped value reads as one word, whatever separated text follows |
| Words.ReadsQualified | cocotb_test/simulator.py:964 | `lib.top`, with both parts escaped, reads as the one word `lib.top` |
| Words.ReadsSpaced | cocotb_test/simulator.py:944 | two texts joined by a space read as the words of the first, then those of the second |
| Words.ReadsTaggedJoin | cocotb_test/simulator.py:955-956 | prefixed escaped values joined by spaces read as the prefixed values |
| Words.ReadsEscapedJoin | cocotb_test/simulator.py:946 | escaped values joined by spaces read as the values, whatever separated text follows |
| Words.ReadsJoinCons | cocotb_test/simulator.py:944 | one more field in front of a joined field list contributes its words in front |
| Words.ReadsLiterals | cocotb_test/simulator.py:964 | literal flags in front of joined fields read as themselves |
| Words.RunsLine | cocotb_test/simulator.py:937 | a line-terminated statement runs the words its text reads as |
| Timescale.ValidateTimescale | cocotb_test/simulator.py:186-189 | an absent timescale or one matching `\d+[npu]?s/\d+[npu]?s` is kept; any other raises `ValueError("Invalid timescale: …")` |
| Timescale.AcceptsIffPattern | cocotb_test/simulator.py:186 | the scanning automaton accepts exactly the strings `re.fullmatch` matches |
| Timescale.RunAppend | cocotb_test/simulator.py:186 | the automaton reads a concatenation part by part |
| Timescale.RejectsMissingPrecision | tests/test_parameters.py:123-124 | `1ns` is rejected with the message the test expects |
| Timescale.RejectsUnknownUnit | tests/test_parameters.py:126-127 | `1qs/1s` is rejected with the message the test expects |
| Timescale.AcceptsEqualUnits | tests/test_parameters.py:130 | `1ns/1ns` is accepted |
| Timescale.AcceptsLongerMagnitudes | tests/test_parameters.py:129 | `100ns/100ns` is accepted |
| Paths.NormalizePaths | cocotb_test/simulator.py:280-287 | one absolute path per input path, in order; a relative path is joined to the working directory first |
| Paths.GetAbsPaths | cocotb_test/simulator.py:289-296 | a list becomes the list of its normalised paths; a dict becomes a dict with distinct keys; the result is empty exactly when the input is |
| Paths.StoreDistinct | cocotb_test/simulator.py:295 | assigning into a dict keeps its keys distinct |
| Paths.AbsLibsDistinct | cocotb_test/simulator.py:293-296 | the library loop produces distinct library names |
| Paths.AbsLibsNonEmpty | cocotb_test/simulator.py:293-296 | the library loop's dict is empty exactly when nothing was there to add |
| Paths.AbsLibsAppends | cocotb_test/simulator.py:293-296 | over distinct fresh names the loop appends every library, in order, with its files normalised |
| Paths.GetAbsPathsOfLibs | cocotb_test/simulator.py:292-296 | each library keeps its name and place and gets its file list normalised |
| Paths.NormalizePathIdempotent | cocotb_test/simulator.py:280-287 | when `abspath` leaves absolute paths alone, normalising a path twice is normalising it once |
| Paths.NormalizePathsIdempotent | cocotb_test/simulator.py:280-287 | the same for lists |
| Paths.GetAbsPathsIdempotent | cocotb_test/simulator.py:289-296 | the same for lists and dicts |
| Host.GetMtime | cocotb_test/simulator.py:353 | `getmtime` succeeds exactly for an existing path, file or directory, gives its time, and raises for a missing one |
| Rebuild.MaxMtime | cocotb_test/simulator.py:355-359 | the dependency loop fails at the first missing file; otherwise it gives a time that is at least the start and every dependency time, and is one of them |
| Rebuild.OutdatedList | cocotb_test/simulator.py:348-364 | an output that is not a file (missing, or a directory) is out of date; otherwise the check fails at the first missing dependency, or says whether some dependency is newer than the output, counting from a start of 0 |
| Rebuild.Outdated | cocotb_test/simulator.py:366-374 | a list is checked directly; a dict is up to date exactly when every library's list is, out of date exactly when some library's list is and all before it are up to date, and fails with the first failing check that follows only up-to-date ones |
| Rebuild.AnyTrue | cocotb_test/simulator.py:370-374 | the short-circuit `or` of the per-library checks: false exactly when every check is false, true exactly when a check is true after only false ones, and a failure only from the first failing check |
| Rebuild.LibChecks | cocotb_test/simulator.py:370-372 | every library's list is checked against the same output, in order |
| Rebuild.NoDependenciesNotOutdated | cocotb_test/simulator.py:348-364 | an existing output with no dependencies is up to date |
| Rebuild.EqualTimesNotOutdated | cocotb_test/simulator.py:361-364 | dependencies exactly as old as the output do not trigger a rebuild |
| Rebuild.TouchedDependencyOutdated | cocotb_test/simulator.py:361-362 | touching one dependency past the output's time makes the output out of date |
| Rebuild.DirectoryOutputOutdated | cocotb_test/simulator.py:350-351 | an output that is a directory is out of date whatever the dependencies, although `getmtime` would read its time |
| Rebuild.EmptySourcesDiffer | cocotb_test/simulator.py:366-374 | with the output missing, an empty list is out of date but an empty dict is not |
| Rebuild.MissingOutputLibs | cocotb_test/simulator.py:366-374 | with the output missing, a non-empty dict is out of date |
| Job.ModuleList | cocotb_test/simulator.py:389-391 | one module name per toplevel, holding no `.`: the part after the last `.` of a qualified toplevel, and an unqualified toplevel itself |
| Job.LibraryList | cocotb_test/simulator.py:394-397 | fails with the source's assertion message unless every toplevel is qualified; otherwise gives per toplevel the `.`-free part before its first `.` |
| Job.QualifiedSplits | cocotb_test/simulator.py:389-397 | a toplevel `<lib>.<module>` built from dot-free parts reads back as exactly that module and that library: the two accessors invert the qualification |
| Job.FirstModule | cocotb_test/simulator.py:400-402 | the first module, or `IndexError` when there is no toplevel |
| Job.FirstLibrary | cocotb_test/simulator.py:405-407 | the first library, when there are toplevels and all are qualified |
| Job.QualifyAll | cocotb_test/simulator.py:440-442 | each toplevel is qualified with the first module, in place |
| Job.QualifyInPlace | cocotb_test/simulator.py:440-442 | the source's in-place loop gives the same list as qualifying every toplevel with the first module |
| Job.QualifyKeepsModule | cocotb_test/simulator.py:442 | qualifying keeps a toplevel's module name |
| Job.QualifyGivesLibrary | cocotb_test/simulator.py:442 | an unqualified toplevel gets the first module as its library |
| Job.QualifyAllModules | cocotb_test/simulator.py:440-442 | qualifying leaves the module list unchanged |
| Job.QualifyAllLibraries | cocotb_test/simulator.py:440-442 | after qualifying, the library list exists and names the first module for every formerly unqualified toplevel |
| Job.FormatInput | cocotb_test/simulator.py:423-442 | fails with `IndexError` exactly when there is no toplevel but a source list needs a library; otherwise each list becomes a one-library dict named after the first module, dicts are kept, and toplevels are qualified |
| Job.FormatInputToplevels | cocotb_test/simulator.py:423-442 | after formatting, the module list is unchanged and the library list exists |
| Job.FormatInputIdempotent | cocotb_test/simulator.py:423-442 | formatting formatted input changes nothing |
| Job.SourcesFlat | cocotb_test/simulator.py:409-421 | empty sources flatten to the empty list; a one-library dict flattens to its files; more libraries raise the source's assertion |
| Job.FlatOfWrapped | cocotb_test/simulator.py:429-437 | a list wrapped into a one-library dict by formatting flattens back to the list |
| Job.Items | cocotb_test/simulator.py:566 | `.items()` works exactly on a dict and raises `AttributeError` on a list |
| Job.MakeJob | cocotb_test/simulator.py:65-194 | an unreadable `WAVES` raises first, then an invalid timescale; the constructor then fails only for a missing toplevel with sources to wrap; a constructed job is formatted, and each of its fields is the argument it comes from: absolute paths, the extra arguments appended to the compile and simulation arguments, the environment with test case and seed, the waves flag or `WAVES`, and the formatted toplevels and sources |
| Job.MakeJobStable | cocotb_test/simulator.py:193-194 | the toplevels and sources of a constructed job are a fixed point of `format_input` |
| Job.JobEnvLookup | cocotb_test/simulator.py:173-179 | the job's environment holds the given test case and seed, and otherwise exactly what `extra_env` holds |
| Flags.Prefixed | cocotb_test/simulator.py:454-458 | one token per item, each the prefix followed by the item |
| Flags.PrefixedRoundTrip | cocotb_test/simulator.py:454-458 | stripping the prefix from the tokens recovers the items |
| Flags.Paired | cocotb_test/simulator.py:467-469 | the flag before every item, alternating |
| Flags.PairedRoundTrip | cocotb_test/simulator.py:467-469 | unpairing recovers the items |
| Flags.Assignments | cocotb_test/simulator.py:460-461 | one `<pre><name><sep><value><post>` token per parameter, in dict order |
| Flags.AssignRoundTrip | cocotb_test/simulator.py:460-461 | a parameter whose name has no `=` is parsed back exactly from its token |
| Flags.Framed | cocotb_test/simulator.py:662 | cutting the frame off a framed text gives the middle back |
| Flags.SplitAtSeparator | cocotb_test/simulator.py:665 | a `=`-free name runs up to the separator |
| Flags.AssignmentsRoundTrip | cocotb_test/simulator.py:460-461 | parameters with `=`-free names are read back in order from their tokens; this is also the round trip of the `-g` renderers of Questa, GHDL and the Aldec backends and the `-G` renderer of Verilator, which are these assignments with an empty suffix |
| Flags.PairedAssignmentsRoundTrip | cocotb_test/simulator.py:657-667 | assignments each behind a flag are recovered by unpairing and then parsing |
| Flags.TclPrefixed | cocotb_test/simulator.py:540-544 | fails exactly when an item is empty; otherwise each token is the prefix and an escape that substitutes back to the item |
| Icarus.ParameterCommands | cocotb_test/simulator.py:460-461 | fails only for parameters without a toplevel; otherwise `-P<top>.<name>=<value>` per parameter |
| Icarus.Init | cocotb_test/simulator.py:446-452 | VHDL sources are refused; otherwise it fails exactly without a toplevel, and the compiled file is `<sim_dir>/<top>.vvp` |
| Icarus.FirstLibrary | cocotb_test/simulator.py:514 | the first library's files exist exactly for a non-empty dict; a list raises `AttributeError` and an empty dict `StopIteration` |
| Icarus.AddOptions | cocotb_test/simulator.py:499-524 | with waves on, the dump module joins the sources and `-fst` the plus arguments; the compile arguments only grow |
| Icarus.CompileLine | cocotb_test/simulator.py:463-488 | `iverilog -o <file> -D COCOTB_SIM=1 -g2012`, `-s` before every module, then the `-D` defines, the `-I` includes, the parameters and the compile arguments, ending with the sources |
| Icarus.CompileCommand | cocotb_test/simulator.py:463-488 | fails exactly when parameters need a missing toplevel |
| Icarus.RunCommand | cocotb_test/simulator.py:490-496 | `vvp -M <libs> -m <vpi lib>`, the simulation arguments, then the compiled file and the plus arguments |
| Icarus.Build | cocotb_test/simulator.py:498-536 | one compile command when out of date or forced, then one run command unless only compiling |
| Icarus.BuildParts | cocotb_test/simulator.py:498-536 | a successful build is exactly the optional compile command followed by the optional run command |
| Icarus.BuildPrograms | cocotb_test/simulator.py:526-536 | the programs are `iverilog` when compiling, then `vvp` when running |
| Icarus.BuildCompilesDumpModule | cocotb_test/simulator.py:503-515 | with waves on, the compile command ends with the dump module file |
| Icarus.BuildRunsFst | cocotb_test/simulator.py:518 | with waves on, the run command ends with `-fst` |
| Questa.DoScript | cocotb_test/simulator.py:549-555 | recursive logging exactly with waves, followed by `run -all; quit` exactly outside the GUI, and nothing else |
| Questa.LibraryPair | cocotb_test/simulator.py:566-573 | `vlib` and the compile command of one library; fails when a name or file is empty or the arguments failed |
| Questa.LibraryPairs | cocotb_test/simulator.py:566-592 | one pair per library, in dict order, failing as soon as one pair fails |
| Questa.Flatten | cocotb_test/simulator.py:566-592 | two commands per pair, in order: pair `i` gives the commands at positions `2i` and `2i+1` |
| Questa.Compiles | cocotb_test/simulator.py:563-566 | empty sources compile nothing; a list raises `AttributeError` at `.items()`; a dict compiles library by library |
| Questa.FlattenPrograms | cocotb_test/simulator.py:566-592 | the programs alternate `vlib` and the compiler |
| Questa.FlattenMembers | cocotb_test/simulator.py:566-592 | every command is a `vlib` or a compile command into a `-work` library |
| Questa.Alternating | cocotb_test/simulator.py:566-592 | the reference sequence of alternating program names |
| Questa.Section | cocotb_test/simulator.py:563-592 | a compile section succeeds exactly for empty sources or a dict of escapable libraries; it has two commands per library, in the dict's order: `vlib <lib>`, then the compiler with `-work <lib>`, the compile arguments and that library's sources, each given as a Tcl word that reads back as the value |
| Questa.VsimWith | cocotb_test/simulator.py:596-625 | `vsim` with the GUI or batch flags, the loaded library, the simulation arguments, the parameters, the toplevels and the extra arguments, ending with `-do <script>` |
| Questa.VsimCommand | cocotb_test/simulator.py:594-625 | fails exactly for an empty interface library or, with a Verilog toplevel, an empty plus argument |
| Questa.VsimCommandShape | cocotb_test/simulator.py:596-625 | a VHDL toplevel loads the FLI library by `-foreign cocotb_init`, others the VPI library by `-pli`, both escaped so Tcl reads back the path; between the simulation arguments and `-do` come the escaped parameters, the toplevels and, for Verilog, the escaped plus arguments |
| Questa.Simulation | cocotb_test/simulator.py:594-625 | one `vsim` command unless only compiling |
| Questa.IncrementalRulesAppend | cocotb_test/simulator.py:584 | the `-incr` rule holds for concatenated command lists |
| Questa.Build | cocotb_test/simulator.py:557-629 | exactly the VHDL section, then the Verilog section, then `vsim` unless only compiling; two commands per library; `vlog` is incremental exactly when compilation is not forced |
| Questa.BuildPrograms | cocotb_test/simulator.py:557-629 | the programs are `vlib`/`vcom` pairs, then `vlib`/`vlog` pairs, then `vsim` |
| Cadence.ParameterCommands | cocotb_test/simulator.py:657-667 | fails only for parameters without a toplevel; otherwise two tokens per parameter |
| Cadence.ParameterRoundTrip | cocotb_test/simulator.py:657-667 | the tokens unpair by `-generic`/`-defparam` and parse back, between the quotes, to the parameters |
| Cadence.ElabCommand | cocotb_test/simulator.py:680-701 | fails exactly without a toplevel; the tool's elaboration head, then the `-define` and `-incdir` pairs, the parameters and the compile arguments, ending with the sources and the timescale options |
| Cadence.RunCommand | cocotb_test/simulator.py:708-713 | `<tool> -64 -R`, then `-gui` or an empty word, the simulation arguments and the parameters, ending with the plus arguments |
| Cadence.ElabStep | cocotb_test/simulator.py:679-705 | exactly the elaboration command over all sources when out of date or forced, nothing otherwise; a failing rebuild check is passed on |
| Cadence.RunStep | cocotb_test/simulator.py:707-714 | one run command unless only compiling |
| Cadence.Build | cocotb_test/simulator.py:669-716 | HDL-specific compile arguments are refused with the tool's assertion; otherwise exactly the elaboration step followed by the run step |
| Cadence.BuildPrograms | cocotb_test/simulator.py:669-716 | every command runs the tool (`irun` or `xrun`) |
| Vcs.ParameterRoundTrip | cocotb_test/simulator.py:811-812 | `-pvalue+<top>/<name>=<value>` tokens parse back to the parameters |
| Vcs.DebugAccess | cocotb_test/simulator.py:825-827 | `-debug_access`, extended with `+all+dmptf` exactly with waves |
| Vcs.TimescaleArg | cocotb_test/simulator.py:852-855 | `-timescale=` and the given timescale, or `1ns/1ps` when none is set |
| Vcs.CompileArgs | cocotb_test/simulator.py:824-828 | the compile arguments, with `-kdb -debug_region+cell` added exactly with waves |
| Vcs.CompileCommand | cocotb_test/simulator.py:831-855 | the `vcs` head, the `+define+` and `+incdir+` tokens, the parameters and the compile arguments, ending with the sources, `-o <simv>` and the timescale |
| Vcs.RunCommand | cocotb_test/simulator.py:858-869 | `<simv> +define+COCOTB_SIM=1`, the simulation arguments, the FSDB options with waves, `-gui` last in the GUI |
| Vcs.Build | cocotb_test/simulator.py:814-872 | fails exactly without a toplevel or with unflattenable sources; compiles, then runs unless only compiling |
| Vcs.RunsCompiledExecutable | cocotb_test/simulator.py:850-860 | the run command starts the executable the compile command wrote with `-o` |
| Vcs.CompileWaves | cocotb_test/simulator.py:825-828 | with waves the compile command carries the full debug access |
| Vcs.RunWaves | cocotb_test/simulator.py:863-867 | with waves the run command dumps FSDB through the UCLI script |
| Ghdl.Analyses | cocotb_test/simulator.py:891-892 | one `ghdl -i` per library, in dict order, with the compile arguments, `--work=<lib>` and the library's sources |
| Ghdl.Elaboration | cocotb_test/simulator.py:894 | `ghdl -m --work=<lib>`, the compile arguments, ending with the toplevel module |
| Ghdl.SimulationArgs | cocotb_test/simulator.py:897-898 | the simulation arguments, with `--wave=<top>.ghw` added exactly with waves |
| Ghdl.RunCommand | cocotb_test/simulator.py:902-909 | `ghdl -r --work=<lib>`, the compile arguments, the module, the VPI library, the simulation arguments with the wave file, then the parameters |
| Ghdl.CompileStep | cocotb_test/simulator.py:890-895 | nothing when up to date; otherwise every analysis then the elaboration, or `AttributeError` for a list |
| Ghdl.Build | cocotb_test/simulator.py:879-914 | refuses a missing `ghdl`, then a missing toplevel; the compile step, then the run unless only compiling |
| Ghdl.Modes | cocotb_test/simulator.py:879-914 | the mode word of every command |
| Ghdl.ModesAppend | cocotb_test/simulator.py:879-914 | modes of concatenated command lists concatenate |
| Ghdl.CompileModes | cocotb_test/simulator.py:890-895 | a compile step runs `-i` once per library, then `-m` |
| Ghdl.BuildModes | cocotb_test/simulator.py:879-914 | the build's modes are the compile step's, then `-r` unless only compiling |
| Ghdl.SameWorkLibrary | cocotb_test/simulator.py:894-903 | elaboration and run use the same work library |
| Aldec.TclJoin | cocotb_test/simulator.py:946-947 | fails exactly when a value is empty; otherwise the escaped values joined by spaces |
| Aldec.TclJoinReads | cocotb_test/simulator.py:946-947 | the joined text reads as exactly the values, whatever follows |
| Aldec.TclJoinSplits | cocotb_test/simulator.py:946-947 | Tcl splits the joined text into exactly the values |
| Aldec.TaggedJoinReads | cocotb_test/simulator.py:955-956 | the joined define and include tokens read as the prefixed values |
| Aldec.StatementRuns | cocotb_test/simulator.py:944-958 | a statement laid out by the source's format strings runs the words its fields read as |
| Aldec.LibFile | cocotb_test/simulator.py:933 | the library file is `<sim_dir>/<lib>/<lib>.lib`, with one `/` between the parts |
| Aldec.AlibLine | cocotb_test/simulator.py:937 | `alib <lib>`, failing exactly for an empty name |
| Aldec.AlibRuns | cocotb_test/simulator.py:937 | Tcl runs `alib` with exactly the library name |
| Aldec.AlibLines | cocotb_test/simulator.py:939-940 | one `alib` per external library, in order |
| Aldec.AlibLinesRun | cocotb_test/simulator.py:939-940 | each external `alib` statement runs on its library |
| Aldec.AcomLine | cocotb_test/simulator.py:944-948 | `acom -work …`, failing exactly for an empty library, argument or source |
| Aldec.AcomRuns | cocotb_test/simulator.py:944-948 | Tcl runs `acom -work <lib>` with exactly the arguments and sources |
| Aldec.AlogLine | cocotb_test/simulator.py:952-958 | `alog …`, failing exactly for an empty value among those it escapes |
| Aldec.AlogFlagsRead | cocotb_test/simulator.py:955-956 | the define and include parts read as the prefixed defines and include directories |
| Aldec.AlogRuns | cocotb_test/simulator.py:952-958 | Tcl runs `alog` with the library, `+define+COCOTB_SIM -sv`, the defines, includes, arguments and sources; only Riviera passes `-work` |
| Aldec.ExternalStatements | cocotb_test/simulator.py:939-940 | Riviera creates every external library and Active-HDL none |
| Aldec.VhdlStatements | cocotb_test/simulator.py:942-948 | one `acom` exactly when there are VHDL sources |
| Aldec.VerilogStatements | cocotb_test/simulator.py:950-958 | one `alog` exactly when there are Verilog sources |
| Aldec.CompileStatements | cocotb_test/simulator.py:935-958 | the compile section's command words are `alib`, external `alib`s on Riviera, `acom`, then `alog` |
| Aldec.ExternalRun | cocotb_test/simulator.py:939-940 | each external `alib` runs its intended words |
| Aldec.VhdlRun | cocotb_test/simulator.py:942-948 | the VHDL statement runs its intended words |
| Aldec.VerilogRun | cocotb_test/simulator.py:950-958 | the Verilog statement runs its intended words |
| Aldec.CompileRuns | cocotb_test/simulator.py:935-958 | every statement of the compile section runs the command at the same position of the intended plan |
| Aldec.EscapedSimArgs | cocotb_test/simulator.py:968-969 | the simulation arguments and parameters are escaped, failing on an empty one, except in Active-HDL's VHDL `asim`, which passes them raw |
| Aldec.EscapedPlusArgs | cocotb_test/simulator.py:982 | the plus arguments are escaped for a Verilog toplevel and dropped for VHDL |
| Aldec.AsimLine | cocotb_test/simulator.py:962-983 | `asim`, failing exactly for an empty library or interface library or an empty escaped argument |
| Aldec.AsimStatements | cocotb_test/simulator.py:1046-1069 | `asim`, preceded by `set worklib` for Active-HDL's VHDL toplevel |
| Aldec.RivieraAsimRuns | cocotb_test/simulator.py:975-983 | Riviera's `asim` runs the flags, `-pli` or `-loadvhpi` with the library, the arguments, `lib.top` and the plus arguments |
| Aldec.SimStatements | cocotb_test/simulator.py:962-991 | the simulation section runs `asim`, `trace` with waves, then `run` when the script runs to the end |
| Aldec.DoCommand | cocotb_test/simulator.py:997-998 | `riviera` in Riviera's GUI, otherwise `vsimsa`, with `-do` and the script file last |
| Aldec.GpiEntry | cocotb_test/simulator.py:985 | a `GPI_EXTRA` entry is read as library and `:`-free entry function around its last `:` |
| Aldec.GpiEntryOf | cocotb_test/simulator.py:985 | `<lib>:<function>` reads back as those two |
| Aldec.GpiExtraAsWritten | cocotb_test/simulator.py:972-985 | the source's value is set exactly when an extra interface is needed |
| Aldec.GpiExtra | cocotb_test/simulator.py:972-985 | the intended value names the extra interface's library and that interface's entry function |
| Aldec.GpiExtraMissingColon | cocotb_test/simulator.py:973 | under a VHDL toplevel with Verilog sources, the value as written names no entry function; the intended one does |
| Aldec.ActivehdlWrongEntryPoint | cocotb_test/simulator.py:1071 | under a Verilog toplevel with VHDL sources, Active-HDL's value names the VPI entry function for the VHPI library |
| Aldec.Dependencies | cocotb_test/simulator.py:935 | the Verilog sources then the VHDL sources, flattened; a flattening failure is passed on |
| Aldec.NeedsCompile | cocotb_test/simulator.py:935 | compile when forced, when the library file is missing or not a file, or when a dependency is newer; a missing dependency raises |
| Aldec.LaunchEnv | cocotb_test/simulator.py:962-1071 | the environment gains `GPI_EXTRA` exactly when simulating with an extra interface, holding the value the source writes, and is unchanged otherwise |
| Aldec.LaunchEnvIntended | cocotb_test/simulator.py:985 | the intended environment: `GPI_EXTRA`, when set, reads back as the extra interface's library and its own entry function, and nothing else changes |
| Aldec.LaunchEnvsAgree | cocotb_test/simulator.py:985 | without an extra interface, and on Riviera under a Verilog toplevel, the source's environment is the intended one |
| Aldec.LaunchEnvsDiffer | cocotb_test/simulator.py:1071 | where either finding applies and the simulation runs, the source's `GPI_EXTRA` differs from the intended one |
| Aldec.Build | cocotb_test/simulator.py:927-998 | fails first without a toplevel; a built script is exactly the `onerror` header, the compile statements when compiling is needed, and the simulation statements unless only compiling; one batch command runs it, and the environment is the one the source writes |
| Aldec.BuildPlan | cocotb_test/simulator.py:1082-1097 | the script's command words are `onerror`, the compile section when out of date, then the simulation section unless only compiling |
| Verilator.Init | cocotb_test/simulator.py:1101-1110 | VHDL sources are refused; `make_args` defaults to none |
| Verilator.CompileArgs | cocotb_test/simulator.py:1138-1144 | the compile arguments, then the FST tracing options with waves, then `--timescale <ts>` when one is set |
| Verilator.TranslateCommand | cocotb_test/simulator.py:1146-1172 | `perl <verilator> …`, the compile arguments, the `-D` defines, the `-I` includes and the parameters, ending with `verilator.cpp` and the sources |
| Verilator.MakeCommand | cocotb_test/simulator.py:1174 | `make -C <sim_dir> -f Vtop.mk` and the make arguments |
| Verilator.RunCommand | cocotb_test/simulator.py:1177 | the executable followed by the plus arguments |
| Verilator.Build | cocotb_test/simulator.py:1121-1179 | refuses a missing toplevel, then a missing `verilator`; translate, make, then run unless only compiling |
| Verilator.TranslateTargets | cocotb_test/simulator.py:1152-1162 | the translation writes into the simulation directory and names the executable after the module |
| Verilator.StepsAgree | cocotb_test/simulator.py:1152-1177 | make builds in the directory the translation wrote, and the run starts the executable the translation named |
| Verilator.WavesTrace | cocotb_test/simulator.py:1140-1141 | with waves the translation traces FST with structs |
| Xml.Set | cocotb_test/plugin.py:44 | setting an attribute changes only that attribute |
| Xml.Iter | cocotb_test/simulator.py:256-258 | `iter(tag)` yields only elements of that tag, starting with the element itself when it has the tag |
| Xml.IterAll | cocotb_test/plugin.py:40-43 | iterating siblings yields every sibling that has the tag |
| Facade.FromName | cocotb_test/simulator.py:1194-1229 | a backend exists exactly for a supported name, and its name is that name |
| Facade.NameRoundTrip | cocotb_test/simulator.py:1194-1229 | every backend's name is supported and selects that backend |
| Facade.Precedence | cocotb_test/simulator.py:1186-1192 | `SIM` beats the `simulator` argument, which beats `icarus` |
| Facade.Select | cocotb_test/simulator.py:1186-1208 | selection succeeds exactly for a supported chosen name and otherwise raises the source's `NotImplementedError` |
| Facade.EnvTakesPriority | tests/test_simulator_kwarg.py:17-24 | a set `SIM` overrides a bad `simulator` argument |
| Facade.ExecuteFromSucceeds | cocotb_test/simulator.py:334-346 | executing succeeds exactly when no command is empty or exits non-zero |
| Facade.ExecuteFromFirstFailure | cocotb_test/simulator.py:343-344 | the first failing command's error is reported |
| Facade.Execute | cocotb_test/simulator.py:334-346 | the loop agrees with the reference definition and runs every command on success |
| Facade.FailuresZero | cocotb_test/simulator.py:255-258 | the count is zero exactly when no test case of any test suite holds a failure |
| Facade.Outcome | cocotb_test/simulator.py:250-269 | only compiling returns the file; a missing file aborts; otherwise it passes exactly when nothing failed, and reports `FAILED n tests.` |
| Facade.SimulatorRun | cocotb_test/simulator.py:231-269 | returns the results file exactly when the build succeeds, every command succeeds and, unless only compiling, the results document exists with no failure |
| Plugin.Mangle | cocotb_test/plugin.py:13 | one output character per input character, with the separator and `/` replaced by `_` and `:` by `-` |
| Plugin.MangleSafe | cocotb_test/plugin.py:13 | the mangled name has no `/`, no `:` and no separator, and keeps every other character |
| Plugin.ResultsFileInDir | cocotb_test/plugin.py:12-13 | the results file is `<mangled>.xml` directly inside the results directory |
| Plugin.RecordedAppend | cocotb_test/plugin.py:15-17 | recording distributes over consecutive reports |
| Plugin.RecordedMembers | cocotb_test/plugin.py:15-17 | a node id is recorded exactly when a call-phase, non-skipped report carried it |
| Plugin.PrefixCases | cocotb_test/plugin.py:43-44 | prefixing keeps the tree's shape and leaves non-test-case attributes alone; a missing class name raises `TypeError` |
| Plugin.PrefixChildren | cocotb_test/plugin.py:43-44 | prefixing siblings keeps their number and tags |
| Plugin.PrefixCasesIter | cocotb_test/plugin.py:43-44 | prefixing succeeds exactly when every test case has a class name, and each gets `cocotb.` in front of it |
| Plugin.PrefixChildrenIter | cocotb_test/plugin.py:43-44 | the same over a sequence of siblings |
| Plugin.Find | cocotb_test/plugin.py:46-49 | the first suite with the same name and package, or none exactly when there is none |
| Plugin.MergeFacts | cocotb_test/plugin.py:46-53 | merging keeps suite keys distinct; a new suite is appended; an existing one gains the new test cases; no other suite changes |
| Plugin.MergeAllFacts | cocotb_test/plugin.py:40-53 | merging a file's suites keeps keys distinct and loses no test case |
| Plugin.PrefixSuites | cocotb_test/plugin.py:40-44 | every suite is prefixed, and no test case is lost |
| Plugin.Finish | cocotb_test/plugin.py:31-55 | the report is a `testsuites` element named `results` |
| Plugin.CollectAppend | cocotb_test/plugin.py:35-53 | collecting over consecutive node lists is collecting the first, then the second |
| Plugin.SkipsMissing | cocotb_test/plugin.py:38 | a node whose results file is missing contributes nothing |
| Plugin.CollectDistinct | cocotb_test/plugin.py:35-53 | collection keeps the suites' keys distinct |
| Plugin.FinishDistinct | cocotb_test/plugin.py:31-55 | the report holds no two suites with the same name and package |
| Testbench.New | cocotb_test/testbench.py:30-37 | a new testbench has no template parameters |
| Testbench.AddTemplateParameter | cocotb_test/testbench.py:39-41 | the name is appended to the list and stored in the dict, overwriting in place; nothing else changes |
| Testbench.AddAllList | cocotb_test/testbench.py:39-41 | after a sequence of additions, the list holds every added name in order |
| Testbench.AddAllKeys | cocotb_test/testbench.py:39-41 | the dict's keys are distinct and are exactly the names in the list |
| Testbench.AddAllLookup | cocotb_test/testbench.py:39-41 | each name maps to the value it was last added with |
| Testbench.Choose | cocotb_test/testbench.py:73-77 | a given parameter wins over the template's default; `run()` without parameters raises `TypeError` |
| Testbench.ResolveFromSound | cocotb_test/testbench.py:69-79 | a successful resolution extends the accumulator by one evaluated value per template, in order |
| Testbench.ResolveFromComplete | cocotb_test/testbench.py:69-79 | every output meeting the per-template specification is what the loop produces |
| Testbench.ResolveFromIff | cocotb_test/testbench.py:69-79 | the loop produces an output exactly when the output meets the specification |
| Testbench.ResolveSpec | cocotb_test/testbench.py:69-79 | `run` resolves exactly to the outputs in which each template is evaluated in the scope of the earlier ones |
| Testbench.ExtraParametersIgnored | cocotb_test/testbench.py:73-77 | given parameters that are not template names do not affect the result |
| Testbench.NoParametersFails | cocotb_test/testbench.py:69-74 | `run()` with templates and no parameters raises `TypeError` |
| Testbench.FirstClash | cocotb_test/testbench.py:49-50 | the first template whose lower-cased option repeats an earlier one, or none exactly when there is none |
| Testbench.ForwardShape | cocotb_test/testbench.py:60-65 | one forwarded value per template, in order, after the accumulator |
| Testbench.ForwardFromEmpty | cocotb_test/testbench.py:60-65 | the forwarded parameters have exactly the templates' names, in order |
| Testbench.Drive | cocotb_test/testbench.py:43-67 | clashing option names raise argparse's conflict error; otherwise a template name holding `-` raises `AttributeError`, and without one the simulator and waves come from the command line when given |
| Testbench.DestMatchesArgparse | cocotb_test/testbench.py:50-63 | the attribute `main` reads is the one argparse stores the option in exactly when the name holds no `-` |
| Testbench.DriveThenRun | cocotb_test/testbench.py:60-79 | `run` picks for every template the value the command line gave it, or its default text |
| Testbench.LookupDistinct | cocotb_test/testbench.py:62-63 | in a dict with distinct keys, each key finds its own value |

## Left out

- Process execution: `_exec`, `_log_pipe`, `asyncio`, and the signal handlers of `exit_gracefully`. `Facade.Execute` takes each command's exit code as a parameter.
- Environment variables and the working directory:
  - `set_env` and the writes to `os.environ` are not modelled. The `GPI_EXTRA` value written by the Aldec backends is modelled as written, in `Aldec.LaunchEnv`, beside the intended `Aldec.LaunchEnvIntended`.
  - The Questa, Ius and Xcelium `GPI_EXTRA` assignments are not modelled. They are plain assignments with no logic.
  - The `PATH` extension of the GHDL backend is not modelled.
- Files written by the backends are left out: the do-files, `pli.tab`, `iverilog_dump.v`, `timescale.f` and the UCLI script. The Aldec model returns the do-file's statements instead of writing them.
- Machine queries come in through the `Host` value rather than being modelled: `os.path.abspath`, `os.getcwd`, `os.path.isdir`, `os.path.getmtime`, `shutil.which`, `cocotb.config`, `tempfile`, and the `WAVES` variable.
- `Host.GetMtime`: modification times are whole numbers, while `os.path.getmtime` returns floats. The rebuild check only compares them, so the order is all that matters. A path in `Host.mtimes` may be a directory too, as `getmtime` accepts both; `Host.IsFile` excludes directories, as `os.path.isfile` does.
- `Job.MakeJob`: the `ValueError` for a `WAVES` value that is not an integer carries `int`'s message without the repeated text of the value.
- `Job.MakeJob`: the deprecated `**kwargs` of the constructor (simulator.py:162-170) are not modelled. The source assigns each one to the attribute of that name with `setattr`, after the fields up to `compile_only` are set and before `env`, `waves`, `timescale` and `gui` are set and `format_input` runs. So a keyword can replace any field set before it, and a replaced toplevel or source list is then formatted. The model's job has only the declared arguments, and its field equalities hold for a call without extra keywords.
- The plugin imports `xml.etree.cElementTree` and calls `getiterator` (plugin.py:3, 40, 43). Both were removed in Python 3.9, where the plugin fails on import. The model follows Python 3.8 and earlier, where `getiterator` is the deprecated alias of `iter`: `Xml.Iter` stands for both.
- XML parsing and `ElementTree.write`. The plugin and `Simulator.run` receive parsed documents through a `read` parameter.
- Logging, deprecation warnings and `os.makedirs` have no effect on the result.
- Aliasing through in-place mutation:
  - Icarus's `build_command` appends to the first library's file list and to `compile_args` and `plus_args`. The model computes these extended lists as new values (`Icarus.AddOptions`) and does not model repeated calls on the same object.
  - GHDL's append to `simulation_args` is treated the same way.
- `Plugin.PrefixSuites`: rewrites each suite's test cases once. The source mutates the parsed tree in place, so a test case under a `testsuite` nested in another `testsuite` is prefixed once per enclosing suite (`cocotb.cocotb.…`). The model does not reproduce that repetition for nested suites.
- Values are carried as the text `str(value)` produces. Parameter values of other Python types are outside the model.
- `Common.Lower`: folds ASCII letters only, while Python's `str.lower` folds every Unicode letter.
- `Timescale.ValidateTimescale`: `\d` is taken as the ASCII digits, while Python also accepts other Unicode decimal digits.
- `Common.PathJoin`: uses POSIX rules. Windows paths and the `.dll` library extension are not modelled.
- Tcl reading (`Tcl.ScanWord`, `Tcl.TclWords`) covers bare words with backslash substitution. Braces, quoted words, `$`, `[` and `;` are not read. This is why the `Runs` lemmas require values free of `$`, `[` and `;`.
- `Tcl.AsTclValue`: like the source, it escapes backslashes, braces, whitespace and a leading quote, and leaves `$`, `[` and `;` alone. Tcl substitutes or splits a value holding them. What Tcl then runs is not modelled, so the model makes no promise for such values.
- Active-HDL's `asim` puts the interface library in double quotes and its VHDL variant passes the simulation arguments unescaped. Its words are not read back: there is no `Runs` lemma for Active-HDL's `asim`. Its command word is still proved, in `Aldec.AsimStatements`.
- `Testbench.Choose`: `eval` is a parameter of the resolution. Python evaluation itself is not modelled.
- `argparse` is modelled by `Testbench.CommandLine`: the option values as parsed, and the conflict error for two template names that lower-case alike. Help text and parsing errors are not modelled.
- How cocotb splits `GPI_EXTRA` happens outside this repository. `Aldec.GpiEntry` models it as library and entry function around the last `:`.
- Setup, teardown and registration are not part of this model:
  - the module-level `clean` function;
  - the plugin's `pytest_sessionstart`, `pytest_runtest_setup` and `pytest_runtest_teardown` hooks;
  - the `pytest_configure`, `pytest_unconfigure` and `pytest_addoption` hooks.
  They only create, remove or rename files, set environment variables, or register the plugin and its option.
- `cocotb_test/build_libs.py`, `cli.py`, `run.py`, `compat.py` and `setup.py` are not part of this model. They are packaging and command-line wrappers around the core.

## Findings

| source | as written | input that shows it | evidently intended | confidence | as-written member | corrected member |
|---|---|---|---|---|---|---|
| cocotb_test/simulator.py:973 | `GPI_EXTRA` is the VPI library path followed directly by `cocotbvpi_entry_point`, with no `:` between them; line 1059 does the same for Active-HDL | Riviera or Active-HDL, `toplevel_lang="vhdl"`, Verilog sources present, and a library path without `:` | `<vpi lib>:cocotbvpi_entry_point`, the form used for the other direction at line 985 and by Questa at lines 610 and 627 | not executed | Aldec.GpiExtraMissingColon | Aldec.GpiExtra |
| cocotb_test/simulator.py:1071 | Active-HDL pairs the VHPI library with `cocotbvpi_entry_point` | Active-HDL, a Verilog toplevel, VHDL sources present | `<vhpi lib>:cocotbvhpi_entry_point`, as Riviera writes at line 985 | not executed | Aldec.ActivehdlWrongEntryPoint | Aldec.GpiExtra |
