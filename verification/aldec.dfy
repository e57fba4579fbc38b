/** The two Aldec backends, `Riviera` and `Activehdl`: both write a Tcl
    do-script and start one batch command on it. The script quits on the
    first error, creates and compiles the library named after the toplevel
    module when it is out of date or compilation is forced, and then starts
    the simulation unless only compiling. Every dynamic value placed in the
    script goes through `as_tcl_value`.

    The script is modelled as the sequence of statements the source
    appends to it; the file's contents are their concatenation. */
module Aldec {
  import opened Common
  import opened Tcl
  import opened Paths
  import opened Host
  import opened Job
  import opened Flags
  import opened Rebuild
  import opened Words

  datatype Vendor = Riviera | Activehdl

  /** The name `cocotb.config` knows the simulator by. */
  function VendorName(v: Vendor): string
  {
    match v
    case Riviera => "riviera"
    case Activehdl => "activehdl"
  }

  /** What `build_command` hands back: the commands to execute, the
      statements written to the do-file and the environment afterwards. */
  datatype Launch = Launch(cmds: seq<Cmd>, statements: seq<string>, env: Dict<string>)

  /** The do-file's contents. */
  function Script(l: Launch): string
  {
    JoinWith("", l.statements)
  }

  /** The opening of every script: quit with exit code 1 on the first
      error. */
  const Header := "\n" + Statement(["onerror", "{\n", "quit", "-code", "1", "\n}"], " \n")

  // ---------------------------------------------------------------------
  // Values as Tcl words

  /** `" ".join(as_tcl_value(v) for v in xs)`. */
  function TclJoin(xs: seq<string>): (r: Result<string>)
    ensures r.Success? <==> forall i | 0 <= i < |xs| :: |xs[i]| > 0
    ensures r.Failure? ==> r.error == IndexError
    ensures r.Success? ==> r.value == JoinWith(" ", EscapeAll(xs))
  {
    var es :- AsTclValues(xs);
    AsTclValuesIsEscapeAll(xs);
    Success(JoinWith(" ", es))
  }

  /** Values without `$`, `[` and `;`, which Tcl would substitute. */
  predicate Clean(xs: seq<string>)
  {
    forall i | 0 <= i < |xs| :: SubstitutionFree(xs[i])
  }

  /** Joined values read as exactly those values, whatever follows. */
  lemma TclJoinReads(xs: seq<string>)
    requires TclJoin(xs).Success? && Clean(xs)
    ensures Reads(TclJoin(xs).value, xs)
  {
    ReadsEscapedJoin(xs);
  }

  /** Joined values are split back by Tcl into exactly those values. */
  lemma TclJoinSplits(xs: seq<string>)
    requires TclJoin(xs).Success? && Clean(xs)
    ensures TclWords(TclJoin(xs).value) == Some(xs)
  {
    TclJoinReads(xs);
    assert Separated([]);
    assert TclJoin(xs).value + [] == TclJoin(xs).value;
    assert xs + [] == xs;
  }

  function IncludeCommands(includes: seq<string>): Result<seq<string>>
  {
    TclPrefixed("+incdir+", includes)
  }

  function DefineCommands(defines: seq<string>): Result<seq<string>>
  {
    TclPrefixed("+define+", defines)
  }

  /** `-g<name>=<value>` per parameter. */
  function ParameterCommands(params: Dict<string>): seq<string>
  {
    Assignments("-g", "=", "", params)
  }

  /** `" ".join(cmds)` over prefixed Tcl words, as they are placed in the
      script: the items read back behind their prefix. */
  lemma TaggedJoinReads(p: string, xs: seq<string>)
    requires Literal(p) && TclPrefixed(p, xs).Success? && Clean(xs)
    ensures Reads(JoinWith(" ", TclPrefixed(p, xs).value), Prefixed(p, xs))
  {
    AsTclValuesIsEscapeAll(xs);
    assert TclPrefixed(p, xs).value == Prefixed(p, EscapeAll(xs));
    ReadsTaggedJoin(p, xs);
  }

  // ---------------------------------------------------------------------
  // Statements and their command words

  /** A statement's command word: what precedes its first space, after
      one leading newline. */
  function Verb(stmt: string): string
  {
    BeforeFirst(if |stmt| > 0 && stmt[0] == '\n' then stmt[1..] else stmt, ' ')
  }

  function Verbs(stmts: seq<string>): (r: seq<string>)
    ensures |r| == |stmts|
    ensures forall i | 0 <= i < |stmts| :: r[i] == Verb(stmts[i])
  {
    seq(|stmts|, i requires 0 <= i < |stmts| => Verb(stmts[i]))
  }

  lemma VerbsAppend(a: seq<string>, b: seq<string>)
    ensures Verbs(a + b) == Verbs(a) + Verbs(b)
  {
    assert forall i | 0 <= i < |b| :: (a + b)[|a| + i] == b[i];
  }

  lemma VerbsAppend3(a: seq<string>, b: seq<string>, c: seq<string>)
    ensures Verbs(a + b + c) == Verbs(a) + Verbs(b) + Verbs(c)
  {
    VerbsAppend(a, b);
    VerbsAppend(a + b, c);
  }

  lemma VerbsOne(s: string)
    ensures Verbs([s]) == [Verb(s)]
  {
  }

  lemma VerbOf(m: string, t: string)
    requires |m| > 0 && m[0] != '\n' && ' ' !in m
    ensures Verb(m + " " + t) == m
  {
    assert m + " " + t == m + [' '] + t;
    assert (m + " " + t)[0] == m[0];
    BeforeFirstBeforeSeparator(m, ' ', t);
  }

  /** A statement as the source's format strings lay it out: the fields
      separated by single spaces, then the ending. */
  function Statement(fields: seq<string>, end: string): string
  {
    JoinWith(" ", fields) + end
  }

  lemma StatementVerb(fields: seq<string>, end: string)
    requires |fields| >= 2 && |fields[0]| > 0 && fields[0][0] != '\n' && ' ' !in fields[0]
    ensures Verb(Statement(fields, end)) == fields[0]
  {
    var t := JoinWith(" ", fields[1..]) + end;
    assert Statement(fields, end) == fields[0] + " " + t;
    VerbOf(fields[0], t);
  }

  /** A statement whose joined fields read as `words` runs them. */
  lemma StatementRuns(fields: seq<string>, words: seq<string>, end: string)
    requires Reads(JoinWith(" ", fields), words) && (end == "\n" || end == " \n")
    ensures Runs(Statement(fields, end), words)
  {
    var t := JoinWith(" ", fields);
    if end == "\n" {
      RunsLine(t, words);
    } else {
      ReadsTrailingSpace(t, words);
      RunsLine(t + " ", words);
      assert t + " " + "\n" == t + " \n";
    }
  }

  /** `n` copies of one word. */
  function Repeat(w: string, n: nat): (r: seq<string>)
    ensures |r| == n && forall i | 0 <= i < n :: r[i] == w
  {
    seq(n, i => w)
  }

  // ---------------------------------------------------------------------
  // The compile section

  /** `os.path.join(sim_dir, lib, lib + ".lib")`: the library file whose
      time decides whether to compile. */
  function LibFile(j: Job, lib: string): (r: string)
    ensures '/' !in lib ==> AfterLast(r, '/') == lib + ".lib"
    ensures lib != "" && '/' !in lib && j.simDir != "" && j.simDir[|j.simDir| - 1] != '/' ==>
      r == j.simDir + "/" + lib + "/" + lib + ".lib"
    ensures lib != "" && '/' !in lib && j.simDir != "" && j.simDir[|j.simDir| - 1] == '/' ==>
      r == j.simDir + lib + "/" + lib + ".lib"
  {
    var r := PathJoin(PathJoin(j.simDir, lib), lib + ".lib");
    if '/' !in lib then
      assert '/' !in lib + ".lib";
      PathJoinLeaf(PathJoin(j.simDir, lib), lib + ".lib");
      if lib != "" && j.simDir != "" then JoinUnder(j.simDir, lib); r else r
    else r
  }

  /** Joining a directory, a plain name and the name's file inserts one
      `/` before each name unless the directory already ends with one. */
  lemma JoinUnder(dir: string, lib: string)
    requires lib != "" && '/' !in lib && dir != ""
    ensures PathJoin(PathJoin(dir, lib), lib + ".lib")
      == (if dir[|dir| - 1] == '/' then dir else dir + "/") + lib + "/" + lib + ".lib"
  {
    assert lib[0] in lib && lib[|lib| - 1] in lib;
    var d := PathJoin(dir, lib);
    assert d == (if dir[|dir| - 1] == '/' then dir else dir + "/") + lib;
    assert d[|d| - 1] == lib[|lib| - 1];
    assert (lib + ".lib")[0] == lib[0];
  }

  /** `alib <name>`: create a library. */
  function AlibLine(name: string): (r: Result<string>)
    ensures r.Success? <==> |name| > 0
    ensures r.Failure? ==> r.error == IndexError
    ensures r.Success? ==> Verb(r.value) == "alib"
  {
    var l :- AsTclValue(name);
    StatementVerb(["alib", l], " \n");
    Success(Statement(["alib", l], " \n"))
  }

  lemma AlibRuns(name: string)
    requires |name| > 0 && SubstitutionFree(name)
    ensures Runs(AlibLine(name).value, ["alib", name])
  {
    var l := Escape(name);
    assert AlibLine(name).value == Statement(["alib", l], " \n");
    ReadsWord(name);
    ReadsJoinOne(l, [name]);
    ReadsLiteral("alib");
    ReadsJoinCons("alib", ["alib"], [l], [name]);
    assert ["alib"] + [l] == ["alib", l] && ["alib"] + [name] == ["alib", name];
    StatementRuns(["alib", l], ["alib", name], " \n");
  }

  /** `alib` for each external library, in order. */
  function AlibLines(names: seq<string>): (r: Result<seq<string>>)
    ensures r.Success? <==> forall i | 0 <= i < |names| :: |names[i]| > 0
    ensures r.Failure? ==> r.error == IndexError
    ensures r.Success? ==> |r.value| == |names|
    ensures r.Success? ==> forall i | 0 <= i < |names| :: AlibLine(names[i]) == Success(r.value[i])
  {
    if |names| == 0 then Success([])
    else
      var first :- AlibLine(names[0]);
      var rest :- AlibLines(names[1..]);
      assert forall i | 1 <= i < |names| :: names[i] == names[1..][i - 1];
      Success([first] + rest)
  }

  /** The external libraries' statements each run `alib` on their library. */
  lemma AlibLinesRun(names: seq<string>, stmts: seq<string>)
    requires AlibLines(names) == Success(stmts) && Clean(names)
    ensures |stmts| == |names|
    ensures forall i | 0 <= i < |names| :: Runs(stmts[i], ["alib", names[i]])
  {
    forall i | 0 <= i < |names| ensures Runs(stmts[i], ["alib", names[i]]) {
      AlibRuns(names[i]);
    }
  }

  /** The words of the VHDL compile command. */
  function AcomWords(lib: string, args: seq<string>, srcs: seq<string>): seq<string>
  {
    ["acom", "-work", lib] + args + srcs
  }

  /** `acom -work <lib> <args> <sources>`. */
  function AcomLine(lib: string, args: seq<string>, srcs: seq<string>): (r: Result<string>)
    ensures r.Success? <==> |lib| > 0 && (forall i | 0 <= i < |args| :: |args[i]| > 0) && (forall i | 0 <= i < |srcs| :: |srcs[i]| > 0)
    ensures r.Failure? ==> r.error == IndexError
    ensures r.Success? ==> Verb(r.value) == "acom"
  {
    var l :- AsTclValue(lib);
    var s :- TclJoin(srcs);
    var e :- TclJoin(args);
    StatementVerb(["acom", "-work", l, e, s], "\n");
    Success(Statement(["acom", "-work", l, e, s], "\n"))
  }

  lemma AcomLineValue(lib: string, args: seq<string>, srcs: seq<string>)
    requires AcomLine(lib, args, srcs).Success?
    ensures AcomLine(lib, args, srcs).value
      == Statement(["acom", "-work", Escape(lib), TclJoin(args).value, TclJoin(srcs).value], "\n")
  {
  }

  /** The fields of `acom`, each reading as its words, read as the whole
      command. */
  lemma AcomFieldsRead(l: string, e: string, s: string, lib: string, args: seq<string>, srcs: seq<string>)
    requires Reads(l, [lib]) && Reads(e, args) && Reads(s, srcs)
    ensures Reads(JoinWith(" ", ["acom", "-work", l, e, s]), AcomWords(lib, args, srcs))
  {
    ReadsJoinOne(s, srcs);
    ReadsJoinCons(e, args, [s], srcs);
    ReadsJoinCons(l, [lib], [e, s], args + srcs);
    ReadsLiteral("-work");
    ReadsJoinCons("-work", ["-work"], [l, e, s], [lib] + (args + srcs));
    ReadsLiteral("acom");
    ReadsJoinCons("acom", ["acom"], ["-work", l, e, s], ["-work"] + ([lib] + (args + srcs)));
    assert ["acom"] + (["-work"] + ([lib] + (args + srcs))) == AcomWords(lib, args, srcs);
  }

  lemma AcomRuns(lib: string, args: seq<string>, srcs: seq<string>)
    requires AcomLine(lib, args, srcs).Success?
    requires SubstitutionFree(lib) && Clean(args) && Clean(srcs)
    ensures Runs(AcomLine(lib, args, srcs).value, AcomWords(lib, args, srcs))
  {
    var l, e, s := Escape(lib), TclJoin(args).value, TclJoin(srcs).value;
    AcomLineValue(lib, args, srcs);
    TclJoinReads(srcs);
    TclJoinReads(args);
    ReadsWord(lib);
    AcomFieldsRead(l, e, s, lib, args, srcs);
    StatementRuns(["acom", "-work", l, e, s], AcomWords(lib, args, srcs), "\n");
  }

  /** The words of the Verilog compile command; only Riviera names the
      work library with `-work`. */
  function AlogWords(v: Vendor, lib: string, defines: seq<string>, includes: seq<string>, args: seq<string>, srcs: seq<string>): seq<string>
  {
    ["alog"] + (if v == Riviera then ["-work"] else [])
      + ([lib, "+define+COCOTB_SIM", "-sv"] + Prefixed("+define+", defines) + Prefixed("+incdir+", includes) + args + srcs)
  }

  /** The fields of the Verilog compile command, around the escaped
      library `l`. */
  function AlogFields(v: Vendor, l: string, d: string, i: string, e: string, s: string): seq<string>
  {
    ["alog"] + (if v == Riviera then ["-work"] else []) + [l, "+define+COCOTB_SIM", "-sv", d, i, e, s]
  }

  /** `alog [-work] <lib> +define+COCOTB_SIM -sv <defines> <includes>
      <args> <sources>`. */
  function AlogLine(v: Vendor, lib: string, defines: seq<string>, includes: seq<string>, args: seq<string>, srcs: seq<string>): (r: Result<string>)
    ensures r.Success? <==>
      && |lib| > 0 && (forall i | 0 <= i < |defines| :: |defines[i]| > 0) && (forall i | 0 <= i < |includes| :: |includes[i]| > 0)
      && (forall i | 0 <= i < |args| :: |args[i]| > 0) && (forall i | 0 <= i < |srcs| :: |srcs[i]| > 0)
    ensures r.Failure? ==> r.error == IndexError
    ensures r.Success? ==> Verb(r.value) == "alog"
  {
    var l :- AsTclValue(lib);
    var s :- TclJoin(srcs);
    var d :- DefineCommands(defines);
    var i :- IncludeCommands(includes);
    var e :- TclJoin(args);
    var fields := AlogFields(v, l, JoinWith(" ", d), JoinWith(" ", i), e, s);
    StatementVerb(fields, " \n");
    Success(Statement(fields, " \n"))
  }

  lemma AlogLineValue(v: Vendor, lib: string, defines: seq<string>, includes: seq<string>, args: seq<string>, srcs: seq<string>)
    requires AlogLine(v, lib, defines, includes, args, srcs).Success?
    ensures AlogLine(v, lib, defines, includes, args, srcs).value
      == Statement(AlogFields(v, Escape(lib), JoinWith(" ", DefineCommands(defines).value),
           JoinWith(" ", IncludeCommands(includes).value), TclJoin(args).value, TclJoin(srcs).value), " \n")
  {
  }

  /** The fields of `alog`, each reading as its words, read as the whole
      command. */
  lemma AlogTailRead(l: string, d: string, i: string, e: string, s: string,
                     lib: string, pd: seq<string>, pi: seq<string>, args: seq<string>, srcs: seq<string>)
    requires Reads(l, [lib]) && Reads(d, pd) && Reads(i, pi) && Reads(e, args) && Reads(s, srcs)
    ensures Reads(JoinWith(" ", [l, "+define+COCOTB_SIM", "-sv", d, i, e, s]),
                  [lib, "+define+COCOTB_SIM", "-sv"] + pd + pi + args + srcs)
  {
    ReadsJoinOne(s, srcs);
    ReadsJoinCons(e, args, [s], srcs);
    ReadsJoinCons(i, pi, [e, s], args + srcs);
    ReadsJoinCons(d, pd, [i, e, s], pi + (args + srcs));
    ReadsLiteral("-sv");
    ReadsJoinCons("-sv", ["-sv"], [d, i, e, s], pd + (pi + (args + srcs)));
    ReadsLiteral("+define+COCOTB_SIM");
    ReadsJoinCons("+define+COCOTB_SIM", ["+define+COCOTB_SIM"], ["-sv", d, i, e, s], ["-sv"] + (pd + (pi + (args + srcs))));
    ReadsJoinCons(l, [lib], ["+define+COCOTB_SIM", "-sv", d, i, e, s], ["+define+COCOTB_SIM"] + (["-sv"] + (pd + (pi + (args + srcs)))));
    assert [lib] + (["+define+COCOTB_SIM"] + (["-sv"] + (pd + (pi + (args + srcs)))))
      == [lib, "+define+COCOTB_SIM", "-sv"] + pd + pi + args + srcs;
  }

  lemma AlogFieldsRead(v: Vendor, l: string, d: string, i: string, e: string, s: string,
                       lib: string, pd: seq<string>, pi: seq<string>, args: seq<string>, srcs: seq<string>)
    requires Reads(l, [lib]) && Reads(d, pd) && Reads(i, pi) && Reads(e, args) && Reads(s, srcs)
    ensures Reads(JoinWith(" ", AlogFields(v, l, d, i, e, s)),
                  ["alog"] + (if v == Riviera then ["-work"] else []) + ([lib, "+define+COCOTB_SIM", "-sv"] + pd + pi + args + srcs))
  {
    var tail := [l, "+define+COCOTB_SIM", "-sv", d, i, e, s];
    var rest := [lib, "+define+COCOTB_SIM", "-sv"] + pd + pi + args + srcs;
    AlogTailRead(l, d, i, e, s, lib, pd, pi, args, srcs);
    if v == Riviera {
      assert Literal("alog") && Literal("-work");
      assert forall k | 0 <= k < 2 :: Literal(["alog", "-work"][k]) && |["alog", "-work"][k]| > 0;
      ReadsLiterals(["alog", "-work"], tail, rest);
      assert AlogFields(v, l, d, i, e, s) == ["alog", "-work"] + tail;
    } else {
      ReadsLiteral("alog");
      ReadsJoinCons("alog", ["alog"], tail, rest);
      assert AlogFields(v, l, d, i, e, s) == ["alog"] + tail;
      assert ["alog"] + rest == ["alog"] + [] + rest;
    }
  }

  /** The `+define+` and `+incdir+` parts of `alog` read as the prefixed
      values. */
  lemma AlogFlagsRead(defines: seq<string>, includes: seq<string>)
    requires Clean(defines) && Clean(includes)
    requires DefineCommands(defines).Success? && IncludeCommands(includes).Success?
    ensures Reads(JoinWith(" ", DefineCommands(defines).value), Prefixed("+define+", defines))
    ensures Reads(JoinWith(" ", IncludeCommands(includes).value), Prefixed("+incdir+", includes))
  {
    TaggedJoinReads("+define+", defines);
    TaggedJoinReads("+incdir+", includes);
  }

  lemma AlogRuns(v: Vendor, lib: string, defines: seq<string>, includes: seq<string>, args: seq<string>, srcs: seq<string>)
    requires AlogLine(v, lib, defines, includes, args, srcs).Success?
    requires SubstitutionFree(lib) && Clean(defines) && Clean(includes) && Clean(args) && Clean(srcs)
    ensures Runs(AlogLine(v, lib, defines, includes, args, srcs).value, AlogWords(v, lib, defines, includes, args, srcs))
  {
    var d := JoinWith(" ", DefineCommands(defines).value);
    var i := JoinWith(" ", IncludeCommands(includes).value);
    var e, s := TclJoin(args).value, TclJoin(srcs).value;
    AlogLineValue(v, lib, defines, includes, args, srcs);
    ReadsWord(lib);
    AlogFlagsRead(defines, includes);
    TclJoinReads(args);
    TclJoinReads(srcs);
    AlogFieldsRead(v, Escape(lib), d, i, e, s, lib, Prefixed("+define+", defines), Prefixed("+incdir+", includes), args, srcs);
    StatementRuns(AlogFields(v, Escape(lib), d, i, e, s), AlogWords(v, lib, defines, includes, args, srcs), " \n");
  }

  /** The external libraries' `alib` statements, which only Riviera
      writes. */
  function ExternalStatements(v: Vendor, j: Job): (r: Result<seq<string>>)
    ensures r.Failure? ==> r.error == IndexError
    ensures r.Success? ==> Verbs(r.value) == if v == Riviera then Repeat("alib", |Names(j.externalLibraries)|) else []
  {
    if v == Riviera then
      var names := Names(j.externalLibraries);
      var ls :- AlibLines(names);
      assert forall i | 0 <= i < |names| :: Verbs(ls)[i] == Verb(AlibLine(names[i]).value);
      Success(ls)
    else Success([])
  }

  /** The VHDL compile statement, written when there are VHDL sources. */
  function VhdlStatements(j: Job, lib: string, vhdl: seq<string>): (r: Result<seq<string>>)
    ensures r.Failure? ==> r.error == IndexError
    ensures r.Success? ==> Verbs(r.value) == if Truthy(j.vhdlSources) then ["acom"] else []
  {
    if Truthy(j.vhdlSources) then
      var c :- AcomLine(lib, j.compileArgs + j.vhdlCompileArgs, vhdl);
      Success([c])
    else Success([])
  }

  /** The Verilog compile statement, written when there are Verilog
      sources. */
  function VerilogStatements(v: Vendor, j: Job, lib: string, vlog: seq<string>): (r: Result<seq<string>>)
    ensures r.Failure? ==> r.error == IndexError
    ensures r.Success? ==> Verbs(r.value) == if Truthy(j.verilogSources) then ["alog"] else []
  {
    if Truthy(j.verilogSources) then
      var c :- AlogLine(v, lib, j.defines, Names(j.includes), j.compileArgs + j.verilogCompileArgs, vlog);
      Success([c])
    else Success([])
  }

  /** The command words of the compile section. */
  function CompileVerbs(v: Vendor, j: Job): seq<string>
  {
    ["alib"]
      + (if v == Riviera then Repeat("alib", |Names(j.externalLibraries)|) else [])
      + (if Truthy(j.vhdlSources) then ["acom"] else [])
      + (if Truthy(j.verilogSources) then ["alog"] else [])
  }

  /** The compile section: create the work library, on Riviera also every
      external library, then compile the VHDL and the Verilog sources when
      there are any. */
  function CompileStatements(v: Vendor, j: Job, lib: string, vlog: seq<string>, vhdl: seq<string>): (r: Result<seq<string>>)
    ensures r.Failure? ==> r.error == IndexError
    ensures r.Success? ==> Verbs(r.value) == CompileVerbs(v, j)
  {
    var alib :- AlibLine(lib);
    var ext :- ExternalStatements(v, j);
    var acom :- VhdlStatements(j, lib, vhdl);
    var alog :- VerilogStatements(v, j, lib, vlog);
    VerbsOne(alib);
    VerbsAppend3([alib], ext, acom);
    VerbsAppend([alib] + ext + acom, alog);
    Success([alib] + ext + acom + alog)
  }

  /** The Tcl commands the compile section is meant to run, as words. */
  function ExternalCommands(v: Vendor, j: Job): seq<seq<string>>
  {
    var ext := if v == Riviera then Names(j.externalLibraries) else [];
    seq(|ext|, i requires 0 <= i < |ext| => ["alib", ext[i]])
  }

  function VhdlCommands(j: Job, lib: string, vhdl: seq<string>): seq<seq<string>>
  {
    if Truthy(j.vhdlSources) then [AcomWords(lib, j.compileArgs + j.vhdlCompileArgs, vhdl)] else []
  }

  function VerilogCommands(v: Vendor, j: Job, lib: string, vlog: seq<string>): seq<seq<string>>
  {
    if Truthy(j.verilogSources) then
      [AlogWords(v, lib, j.defines, Names(j.includes), j.compileArgs + j.verilogCompileArgs, vlog)]
    else []
  }

  function CompileCommands(v: Vendor, j: Job, lib: string, vlog: seq<string>, vhdl: seq<string>): seq<seq<string>>
  {
    [["alib", lib]] + ExternalCommands(v, j) + VhdlCommands(j, lib, vhdl) + VerilogCommands(v, j, lib, vlog)
  }

  /** Every value the compile section uses is free of Tcl substitution. */
  predicate CompileClean(j: Job, lib: string, vlog: seq<string>, vhdl: seq<string>)
  {
    && SubstitutionFree(lib) && Clean(Names(j.externalLibraries)) && Clean(j.compileArgs)
    && Clean(j.vhdlCompileArgs) && Clean(j.verilogCompileArgs) && Clean(j.defines)
    && Clean(Names(j.includes)) && Clean(vlog) && Clean(vhdl)
  }

  lemma CleanAppend(a: seq<string>, b: seq<string>)
    requires Clean(a) && Clean(b)
    ensures Clean(a + b)
  {
    assert forall i | |a| <= i < |a + b| :: (a + b)[i] == b[i - |a|];
  }

  /** Each statement of `stmts` runs the command at the same position. */
  ghost predicate RunAll(stmts: seq<string>, cmds: seq<seq<string>>)
  {
    |stmts| == |cmds| && forall i | 0 <= i < |stmts| :: Runs(stmts[i], cmds[i])
  }

  lemma RunAllAppend(a: seq<string>, ca: seq<seq<string>>, b: seq<string>, cb: seq<seq<string>>)
    requires RunAll(a, ca) && RunAll(b, cb)
    ensures RunAll(a + b, ca + cb)
  {
    forall i | 0 <= i < |a + b| ensures Runs((a + b)[i], (ca + cb)[i]) {
      if i >= |a| {
        assert (a + b)[i] == b[i - |a|] && (ca + cb)[i] == cb[i - |a|];
      }
    }
  }

  lemma ExternalRun(v: Vendor, j: Job)
    requires ExternalStatements(v, j).Success? && Clean(Names(j.externalLibraries))
    ensures RunAll(ExternalStatements(v, j).value, ExternalCommands(v, j))
  {
    if v == Riviera {
      AlibLinesRun(Names(j.externalLibraries), ExternalStatements(v, j).value);
    }
  }

  lemma VhdlRun(j: Job, lib: string, vhdl: seq<string>)
    requires VhdlStatements(j, lib, vhdl).Success?
    requires SubstitutionFree(lib) && Clean(j.compileArgs) && Clean(j.vhdlCompileArgs) && Clean(vhdl)
    ensures RunAll(VhdlStatements(j, lib, vhdl).value, VhdlCommands(j, lib, vhdl))
  {
    if Truthy(j.vhdlSources) {
      CleanAppend(j.compileArgs, j.vhdlCompileArgs);
      AcomRuns(lib, j.compileArgs + j.vhdlCompileArgs, vhdl);
    }
  }

  lemma VerilogRun(v: Vendor, j: Job, lib: string, vlog: seq<string>)
    requires VerilogStatements(v, j, lib, vlog).Success?
    requires SubstitutionFree(lib) && Clean(j.compileArgs) && Clean(j.verilogCompileArgs) && Clean(vlog)
    requires Clean(j.defines) && Clean(Names(j.includes))
    ensures RunAll(VerilogStatements(v, j, lib, vlog).value, VerilogCommands(v, j, lib, vlog))
  {
    if Truthy(j.verilogSources) {
      CleanAppend(j.compileArgs, j.verilogCompileArgs);
      AlogRuns(v, lib, j.defines, Names(j.includes), j.compileArgs + j.verilogCompileArgs, vlog);
    }
  }

  /** Each statement of the compile section is read by Tcl as the command
      it is meant to run: every library, flag, argument and source file
      arrives as one word, unchanged. */
  lemma CompileRuns(v: Vendor, j: Job, lib: string, vlog: seq<string>, vhdl: seq<string>)
    requires CompileStatements(v, j, lib, vlog, vhdl).Success? && CompileClean(j, lib, vlog, vhdl)
    ensures RunAll(CompileStatements(v, j, lib, vlog, vhdl).value, CompileCommands(v, j, lib, vlog, vhdl))
  {
    var alib := AlibLine(lib).value;
    var ext := ExternalStatements(v, j).value;
    var acom := VhdlStatements(j, lib, vhdl).value;
    var alog := VerilogStatements(v, j, lib, vlog).value;
    AlibRuns(lib);
    assert RunAll([alib], [["alib", lib]]);
    ExternalRun(v, j);
    VhdlRun(j, lib, vhdl);
    VerilogRun(v, j, lib, vlog);
    RunAllAppend([alib], [["alib", lib]], ext, ExternalCommands(v, j));
    RunAllAppend([alib] + ext, [["alib", lib]] + ExternalCommands(v, j), acom, VhdlCommands(j, lib, vhdl));
    RunAllAppend([alib] + ext + acom, [["alib", lib]] + ExternalCommands(v, j) + VhdlCommands(j, lib, vhdl),
      alog, VerilogCommands(v, j, lib, vlog));
  }

  // ---------------------------------------------------------------------
  // The simulation section

  /** The options every `asim` starts with. */
  const AsimFlags: seq<string> := ["asim", "+access", "+w", "-interceptcoutput", "-O2"]

  /** Trace every signal; the statement has no line ending of its own. */
  const Trace := Statement(["trace", "-recursive", "/*;"], "")

  /** Run to the end and leave. */
  const RunToEnd := Statement(["run", "-all"], " \nexit")

  /** A value in double quotes, as Active-HDL writes the interface library. */
  function Quoted(x: string): string
  {
    "\"" + x + "\""
  }

  /** The simulation arguments followed by the parameters. */
  function SimArgs(j: Job): seq<string>
  {
    j.simulationArgs + ParameterCommands(j.parameters)
  }

  /** The interface library `asim` loads for the toplevel's language: the
      VHPI bootstrap for a VHDL toplevel, the VPI library otherwise. */
  function LoadedInterface(v: Vendor, j: Job, h: Host): string
  {
    if j.toplevelLang == "vhdl" then h.libNamePath("vhpi", VendorName(v)) + ":vhpi_startup_routines_bootstrap"
    else h.libNamePath("vpi", VendorName(v))
  }

  /** The fields of `asim` from the loading option on. Only Active-HDL
      quotes the interface library, and for a VHDL toplevel it leaves the
      simulation arguments unescaped and names the toplevel alone. */
  function AsimFields(v: Vendor, j: Job, l: string, x: string, e: string, p: string): seq<string>
  {
    if j.toplevelLang == "vhdl" then
      if v == Riviera then ["-loadvhpi", x, e, l + "." + l]
      else ["-loadvhpi", Quoted(x), JoinWith(" ", SimArgs(j)), l]
    else ["-pli", if v == Riviera then x else Quoted(x), e, l + "." + l, p]
  }

  /** The simulation arguments as `asim` receives them: escaped, except
      on Active-HDL under a VHDL toplevel where they are placed as they
      are and cannot fail. */
  function EscapedSimArgs(v: Vendor, j: Job): (r: Result<string>)
    ensures r.Success? <==> (!(v == Activehdl && j.toplevelLang == "vhdl") ==> forall i | 0 <= i < |SimArgs(j)| :: |SimArgs(j)[i]| > 0)
    ensures r.Failure? ==> r.error == IndexError
  {
    if v == Activehdl && j.toplevelLang == "vhdl" then Success("") else TclJoin(SimArgs(j))
  }

  /** The plus arguments, escaped; a VHDL toplevel takes none. */
  function EscapedPlusArgs(j: Job): (r: Result<string>)
    ensures r.Success? <==> (j.toplevelLang != "vhdl" ==> forall i | 0 <= i < |j.plusArgs| :: |j.plusArgs[i]| > 0)
    ensures r.Failure? ==> r.error == IndexError
  {
    if j.toplevelLang == "vhdl" then Success("") else TclJoin(j.plusArgs)
  }

  lemma AsimVerb(fields: seq<string>)
    ensures Verb(Statement(AsimFlags + fields, " \n")) == "asim"
  {
    StatementVerb(AsimFlags + fields, " \n");
  }

  /** `asim`, which fails on an empty library name, an empty interface
      library or an empty argument it escapes. */
  function AsimLine(v: Vendor, j: Job, h: Host, lib: string): (r: Result<string>)
    ensures r.Success? <==>
      && |lib| > 0 && |LoadedInterface(v, j, h)| > 0
      && (!(v == Activehdl && j.toplevelLang == "vhdl") ==> forall i | 0 <= i < |SimArgs(j)| :: |SimArgs(j)[i]| > 0)
      && (j.toplevelLang != "vhdl" ==> forall i | 0 <= i < |j.plusArgs| :: |j.plusArgs[i]| > 0)
    ensures r.Failure? ==> r.error == IndexError
    ensures r.Success? ==> Verb(r.value) == "asim"
  {
    var l :- AsTclValue(lib);
    var x :- AsTclValue(LoadedInterface(v, j, h));
    var e :- EscapedSimArgs(v, j);
    var p :- EscapedPlusArgs(j);
    AsimVerb(AsimFields(v, j, l, x, e, p));
    Success(Statement(AsimFlags + AsimFields(v, j, l, x, e, p), " \n"))
  }

  /** The statements that start the simulation: `asim`, preceded on
      Active-HDL with a VHDL toplevel by `set worklib <lib>`. */
  function AsimStatements(v: Vendor, j: Job, h: Host, lib: string): (r: Result<seq<string>>)
    ensures r.Success? <==> AsimLine(v, j, h, lib).Success?
    ensures r.Failure? ==> r.error == IndexError
    ensures r.Success? ==> Verbs(r.value) == if v == Activehdl && j.toplevelLang == "vhdl" then ["set", "asim"] else ["asim"]
  {
    if v == Activehdl && j.toplevelLang == "vhdl" then
      var asim :- AsimLine(v, j, h, lib);
      var worklib := ["set", "worklib", Escape(lib)];
      StatementVerb(worklib, "\n");
      Success([Statement(worklib, "\n"), asim])
    else
      var asim :- AsimLine(v, j, h, lib);
      Success([asim])
  }

  /** The words of Riviera's `asim`. */
  function RivieraAsimWords(j: Job, h: Host, lib: string): seq<string>
  {
    AsimFlags + ([if j.toplevelLang == "vhdl" then "-loadvhpi" else "-pli", LoadedInterface(Riviera, j, h)]
      + SimArgs(j) + [lib + "." + lib] + (if j.toplevelLang == "vhdl" then [] else j.plusArgs))
  }

  /** The flags are plain words. */
  lemma AsimFlagsLiteral()
    ensures forall i | 0 <= i < |AsimFlags| :: Literal(AsimFlags[i]) && |AsimFlags[i]| > 0
  {
    forall i | 0 <= i < |AsimFlags| ensures Literal(AsimFlags[i]) && |AsimFlags[i]| > 0 {
      if i == 0 {
        assert Literal("asim");
      } else if i == 1 {
        assert Literal("+access");
      } else if i == 2 {
        assert Literal("+w");
      } else if i == 3 {
        assert Literal("-interceptcoutput");
      } else {
        assert Literal("-O2");
      }
    }
  }

  /** The flags in front of fields that read as `ws`. */
  lemma AsimFlagsRead(rest: seq<string>, ws: seq<string>)
    requires |rest| > 0 && Reads(JoinWith(" ", rest), ws)
    ensures Reads(JoinWith(" ", AsimFlags + rest), AsimFlags + ws)
  {
    AsimFlagsLiteral();
    ReadsLiterals(AsimFlags, rest, ws);
  }

  /** The fields of Riviera's `asim` after its flags, each reading as its
      words, read as the rest of the command. */
  lemma RivieraAsimFieldsRead(j: Job, l: string, x: string, e: string, p: string,
                              lib: string, iface: string, pluses: seq<string>)
    requires Reads(l + "." + l, [lib + "." + lib]) && Reads(x, [iface]) && Reads(e, SimArgs(j)) && Reads(p, pluses)
    ensures Reads(JoinWith(" ", AsimFields(Riviera, j, l, x, e, p)),
      [if j.toplevelLang == "vhdl" then "-loadvhpi" else "-pli", iface] + SimArgs(j) + [lib + "." + lib]
        + (if j.toplevelLang == "vhdl" then [] else pluses))
  {
    var q := l + "." + l;
    var ws := SimArgs(j);
    if j.toplevelLang == "vhdl" {
      ReadsJoinOne(q, [lib + "." + lib]);
      ReadsJoinCons(e, ws, [q], [lib + "." + lib]);
      ReadsJoinCons(x, [iface], [e, q], ws + [lib + "." + lib]);
      ReadsLiteral("-loadvhpi");
      ReadsJoinCons("-loadvhpi", ["-loadvhpi"], [x, e, q], [iface] + (ws + [lib + "." + lib]));
      assert ["-loadvhpi"] + ([iface] + (ws + [lib + "." + lib])) == ["-loadvhpi", iface] + ws + [lib + "." + lib] + [];
    } else {
      ReadsJoinOne(p, pluses);
      ReadsJoinCons(q, [lib + "." + lib], [p], pluses);
      ReadsJoinCons(e, ws, [q, p], [lib + "." + lib] + pluses);
      ReadsJoinCons(x, [iface], [e, q, p], ws + ([lib + "." + lib] + pluses));
      ReadsLiteral("-pli");
      ReadsJoinCons("-pli", ["-pli"], [x, e, q, p], [iface] + (ws + ([lib + "." + lib] + pluses)));
      assert ["-pli"] + ([iface] + (ws + ([lib + "." + lib] + pluses))) == ["-pli", iface] + ws + [lib + "." + lib] + pluses;
    }
  }

  lemma RivieraAsimValue(j: Job, h: Host, lib: string)
    requires AsimLine(Riviera, j, h, lib).Success?
    ensures AsimLine(Riviera, j, h, lib).value == Statement(AsimFlags + AsimFields(Riviera, j, Escape(lib),
      Escape(LoadedInterface(Riviera, j, h)), EscapedSimArgs(Riviera, j).value, EscapedPlusArgs(j).value), " \n")
  {
  }

  /** Each escaped part of Riviera's `asim` reads as the values it was
      made from. */
  lemma RivieraAsimPartsRead(j: Job, h: Host, lib: string)
    requires |lib| > 0 && SubstitutionFree(lib)
    requires |LoadedInterface(Riviera, j, h)| > 0 && SubstitutionFree(LoadedInterface(Riviera, j, h))
    requires TclJoin(SimArgs(j)).Success? && Clean(SimArgs(j))
    requires j.toplevelLang != "vhdl" ==> TclJoin(j.plusArgs).Success? && Clean(j.plusArgs)
    ensures Reads(Escape(lib) + "." + Escape(lib), [lib + "." + lib])
    ensures Reads(Escape(LoadedInterface(Riviera, j, h)), [LoadedInterface(Riviera, j, h)])
    ensures Reads(TclJoin(SimArgs(j)).value, SimArgs(j))
    ensures j.toplevelLang == "vhdl" ==> Reads("", [])
    ensures j.toplevelLang != "vhdl" ==> Reads(TclJoin(j.plusArgs).value, j.plusArgs)
  {
    assert PlainChar('.');
    ReadsQualified(lib, ".", lib);
    ReadsWord(LoadedInterface(Riviera, j, h));
    TclJoinReads(SimArgs(j));
    if j.toplevelLang == "vhdl" {
      ReadsEmpty();
    } else {
      TclJoinReads(j.plusArgs);
    }
  }

  /** Riviera's `asim` is read by Tcl as the command it is meant to run:
      the interface library, every argument and parameter, the toplevel
      `lib.lib` and every plus argument each arrive as one word. */
  lemma RivieraAsimRuns(j: Job, h: Host, lib: string)
    requires AsimLine(Riviera, j, h, lib).Success?
    requires SubstitutionFree(lib) && SubstitutionFree(LoadedInterface(Riviera, j, h))
    requires Clean(SimArgs(j)) && Clean(j.plusArgs)
    ensures Runs(AsimLine(Riviera, j, h, lib).value, RivieraAsimWords(j, h, lib))
  {
    var iface := LoadedInterface(Riviera, j, h);
    var l, x, e := Escape(lib), Escape(iface), TclJoin(SimArgs(j)).value;
    var p := if j.toplevelLang == "vhdl" then "" else TclJoin(j.plusArgs).value;
    var pluses := if j.toplevelLang == "vhdl" then [] else j.plusArgs;
    RivieraAsimValue(j, h, lib);
    RivieraAsimPartsRead(j, h, lib);
    RivieraAsimFieldsRead(j, l, x, e, p, lib, iface, pluses);
    var rest := AsimFields(Riviera, j, l, x, e, p);
    var restWords := [if j.toplevelLang == "vhdl" then "-loadvhpi" else "-pli", iface] + SimArgs(j) + [lib + "." + lib] + pluses;
    AsimFlagsRead(rest, restWords);
    StatementRuns(AsimFlags + rest, RivieraAsimWords(j, h, lib), " \n");
  }

  lemma TailVerbs()
    ensures Verbs([Trace]) == ["trace"] && Verbs([RunToEnd]) == ["run"] && Verbs([]) == []
  {
    TraceVerb();
    RunToEndVerb();
    VerbsOne(Trace);
    VerbsOne(RunToEnd);
  }

  lemma TraceVerb()
    ensures Verb(Trace) == "trace"
  {
    StatementVerb(["trace", "-recursive", "/*;"], "");
  }

  lemma RunToEndVerb()
    ensures Verb(RunToEnd) == "run"
  {
    StatementVerb(["run", "-all"], " \nexit");
  }

  /** Whether the script runs to the end and exits: Riviera leaves the
      simulator open in GUI mode, Active-HDL always exits. */
  predicate RunsToEnd(v: Vendor, j: Job)
  {
    v == Activehdl || !j.gui
  }

  function SimVerbs(v: Vendor, j: Job): seq<string>
  {
    (if v == Activehdl && j.toplevelLang == "vhdl" then ["set", "asim"] else ["asim"])
      + (if j.waves then ["trace"] else [])
      + (if RunsToEnd(v, j) then ["run"] else [])
  }

  /** The simulation section: start the simulation, trace every signal
      when waves are on, then run to the end and exit. */
  function SimStatements(v: Vendor, j: Job, h: Host, lib: string): (r: Result<seq<string>>)
    ensures r.Success? <==> AsimLine(v, j, h, lib).Success?
    ensures r.Failure? ==> r.error == IndexError
    ensures r.Success? ==> Verbs(r.value) == SimVerbs(v, j)
  {
    var asim :- AsimStatements(v, j, h, lib);
    var trace := if j.waves then [Trace] else [];
    var run := if RunsToEnd(v, j) then [RunToEnd] else [];
    TailVerbs();
    VerbsAppend3(asim, trace, run);
    Success(asim + trace + run)
  }

  /** The batch command: Riviera runs the script with `vsimsa`, or in the
      GUI with `riviera`, through `do`; Active-HDL always with `vsimsa`. */
  function DoCommand(v: Vendor, j: Job, h: Host): (r: Cmd)
    ensures |r| >= 3 && r[|r| - 1] == h.tmpName && r[1] == "-do"
    ensures r[0] == (if v == Riviera && j.gui then "riviera" else "vsimsa")
  {
    match v
    case Riviera => [if j.gui then "riviera" else "vsimsa", "-do", "do", h.tmpName]
    case Activehdl => ["vsimsa", "-do", h.tmpName]
  }

  // ---------------------------------------------------------------------
  // GPI_EXTRA

  /** The interface whose library is loaded as an extra GPI implementation
      for a mixed-language design: VPI under a VHDL toplevel with Verilog
      sources, VHPI under a Verilog toplevel with VHDL sources. */
  function ExtraInterface(j: Job): Option<string>
  {
    if j.toplevelLang == "vhdl" then (if Truthy(j.verilogSources) then Some("vpi") else None)
    else if Truthy(j.vhdlSources) then Some("vhpi") else None
  }

  /** The entry function cocotb's library for an interface exports. */
  function EntryPoint(iface: string): string
  {
    "cocotb" + iface + "_entry_point"
  }

  /** An entry function's name has no `:`. */
  lemma EntryPointPlain(iface: string)
    requires ':' !in iface
    ensures ':' !in EntryPoint(iface)
  {
    assert ':' !in "cocotb" && ':' !in "_entry_point";
  }

  /** How a `GPI_EXTRA` entry is read: the library and the entry function
      around its last `:`. */
  function GpiEntry(s: string): (r: Option<(string, string)>)
    ensures r.Some? <==> ':' in s
    ensures r.Some? ==> ':' !in r.value.1 && s == r.value.0 + ":" + r.value.1
  {
    if ':' !in s then None
    else
      var f := AfterLast(s, ':');
      var k := |s| - |f| - 1;
      assert s == s[..k] + ":" + f;
      Some((s[..k], f))
  }

  /** `GPI_EXTRA` as the source writes it. Under a VHDL toplevel the `:`
      before the entry function is missing, and Active-HDL names the VPI
      entry function for its VHPI library. */
  function GpiExtraAsWritten(v: Vendor, j: Job, h: Host): (r: Option<string>)
    ensures r.Some? <==> ExtraInterface(j).Some?
  {
    match ExtraInterface(j)
    case None => None
    case Some(iface) =>
      if iface == "vpi" then Some(h.libNamePath("vpi", VendorName(v)) + EntryPoint("vpi"))
      else if v == Riviera then Some(h.libNamePath("vhpi", VendorName(v)) + ":" + EntryPoint("vhpi"))
      else Some(h.libNamePath("vhpi", VendorName(v)) + ":" + EntryPoint("vpi"))
  }

  /** `GPI_EXTRA` as intended: the library of the extra interface and that
      interface's entry function. */
  function GpiExtra(v: Vendor, j: Job, h: Host): (r: Option<string>)
    ensures r.Some? <==> ExtraInterface(j).Some?
    ensures r.Some? ==>
      GpiEntry(r.value) == Some((h.libNamePath(ExtraInterface(j).value, VendorName(v)), EntryPoint(ExtraInterface(j).value)))
  {
    match ExtraInterface(j)
    case None => None
    case Some(iface) =>
      var lib := h.libNamePath(iface, VendorName(v));
      EntryPointPlain(iface);
      GpiEntryOf(lib, EntryPoint(iface));
      Some(lib + ":" + EntryPoint(iface))
  }

  /** An entry written as library, `:` and a `:`-free function reads back
      as those two. */
  lemma GpiEntryOf(lib: string, f: string)
    requires ':' !in f
    ensures GpiEntry(lib + ":" + f) == Some((lib, f))
  {
    assert lib + ":" + f == lib + [':'] + f;
    AfterLastAfterSeparator(lib, ':', f);
    var s := lib + ":" + f;
    assert s[..|s| - |f| - 1] == lib;
  }

  /** Under a VHDL toplevel with Verilog sources the value as written has
      no `:` at all when the library path has none, so it names no entry
      function. */
  lemma GpiExtraMissingColon(v: Vendor, j: Job, h: Host)
    requires j.toplevelLang == "vhdl" && Truthy(j.verilogSources)
    requires ':' !in h.libNamePath("vpi", VendorName(v))
    ensures GpiExtraAsWritten(v, j, h).Some? && GpiEntry(GpiExtraAsWritten(v, j, h).value).None?
    ensures GpiExtra(v, j, h).Some? && GpiEntry(GpiExtra(v, j, h).value).Some?
  {
    EntryPointPlain("vpi");
    var s := h.libNamePath("vpi", VendorName(v)) + EntryPoint("vpi");
    assert ':' !in s;
  }

  /** Under a Verilog toplevel with VHDL sources, Active-HDL's value as
      written names the VPI entry function for the VHPI library. */
  lemma ActivehdlWrongEntryPoint(j: Job, h: Host)
    requires j.toplevelLang != "vhdl" && Truthy(j.vhdlSources)
    ensures GpiExtraAsWritten(Activehdl, j, h).Some?
    ensures GpiEntry(GpiExtraAsWritten(Activehdl, j, h).value).Some?
    ensures GpiEntry(GpiExtraAsWritten(Activehdl, j, h).value).value.1 == EntryPoint("vpi") != EntryPoint("vhpi")
    ensures GpiEntry(GpiExtra(Activehdl, j, h).value).value.1 == EntryPoint("vhpi")
  {
    EntryPointPlain("vpi");
    EntryPointPlain("vhpi");
    GpiEntryOf(h.libNamePath("vhpi", "activehdl"), EntryPoint("vpi"));
    assert |EntryPoint("vpi")| != |EntryPoint("vhpi")|;
  }

  // ---------------------------------------------------------------------
  // build_command

  /** The files the library file is compared with: the Verilog sources,
      then the VHDL sources. */
  function Dependencies(j: Job): (r: Result<seq<string>>)
    ensures r.Success? <==> SourcesFlat(j.verilogSources).Success? && SourcesFlat(j.vhdlSources).Success?
    ensures r.Success? ==> r.value == SourcesFlat(j.verilogSources).value + SourcesFlat(j.vhdlSources).value
    ensures SourcesFlat(j.verilogSources).Failure? ==> r == Failure(SourcesFlat(j.verilogSources).error)
    ensures SourcesFlat(j.verilogSources).Success? && SourcesFlat(j.vhdlSources).Failure? ==>
      r == Failure(SourcesFlat(j.vhdlSources).error)
  {
    var vlog :- SourcesFlat(j.verilogSources);
    var vhdl :- SourcesFlat(j.vhdlSources);
    Success(vlog + vhdl)
  }

  /** Whether to compile: the library file is out of date with respect to
      its dependencies, or compilation is forced. The rebuild check runs,
      and can fail, even when compilation is forced. */
  function NeedsCompile(j: Job, h: Host, lib: string): (r: Result<bool>)
    ensures Dependencies(j).Failure? ==> r == Failure(Dependencies(j).error)
    ensures Dependencies(j).Success? && !IsFile(h, LibFile(j, lib)) ==> r == Success(true)
    ensures Dependencies(j).Success? && IsFile(h, LibFile(j, lib)) ==>
      (r.Success? <==> forall i | 0 <= i < |Dependencies(j).value| :: PathExists(h, Dependencies(j).value[i]))
    ensures r.Success? && j.forceCompile ==> r.value
    ensures (r.Success? && !j.forceCompile && IsFile(h, LibFile(j, lib)) ==>
      (r.value <==> var out, deps := h.mtimes[LibFile(j, lib)], Dependencies(j).value;
         out < 0 || exists i | 0 <= i < |deps| :: h.mtimes[deps[i]] > out))
  {
    var deps :- Dependencies(j);
    var stale :- Outdated(h, LibFile(j, lib), Flat(deps));
    Success(stale || j.forceCompile)
  }

  lemma StoreLookupAll(d: Dict<string>, k: string, x: string)
    ensures forall k' :: Lookup(Store(d, k, x), k') == if k' == k then Some(x) else Lookup(d, k')
  {
    forall k' ensures Lookup(Store(d, k, x), k') == if k' == k then Some(x) else Lookup(d, k') {
      StoreLookup(d, k, x, k');
    }
  }

  /** `self.env` with `GPI_EXTRA` set to `extra` when the simulation runs
      and `extra` is given; every other variable is left alone. */
  function EnvWith(j: Job, extra: Option<string>): (r: Dict<string>)
    ensures forall k :: (Lookup(r, k) ==
      if k == "GPI_EXTRA" && !j.compileOnly && extra.Some? then extra else Lookup(j.env, k))
  {
    if !j.compileOnly && extra.Some? then
      StoreLookupAll(j.env, "GPI_EXTRA", extra.value);
      Store(j.env, "GPI_EXTRA", extra.value)
    else j.env
  }

  /** The environment after `build_command`: when the simulation runs a
      mixed-language design, `GPI_EXTRA` holds the value the source writes
      for the other language; every other variable is left alone. */
  function LaunchEnv(v: Vendor, j: Job, h: Host): (r: Dict<string>)
    ensures forall k :: (Lookup(r, k) ==
      if k == "GPI_EXTRA" && !j.compileOnly && ExtraInterface(j).Some? then GpiExtraAsWritten(v, j, h) else Lookup(j.env, k))
  {
    EnvWith(j, GpiExtraAsWritten(v, j, h))
  }

  /** The environment as intended: `GPI_EXTRA` names the other language's
      library and that language's entry function, so cocotb loads the
      extra interface it needs. */
  function LaunchEnvIntended(v: Vendor, j: Job, h: Host): (r: Dict<string>)
    ensures forall k | k != "GPI_EXTRA" :: Lookup(r, k) == Lookup(j.env, k)
    ensures j.compileOnly || ExtraInterface(j).None? ==> Lookup(r, "GPI_EXTRA") == Lookup(j.env, "GPI_EXTRA")
    ensures !j.compileOnly && ExtraInterface(j).Some? ==>
      && Lookup(r, "GPI_EXTRA").Some?
      && GpiEntry(Lookup(r, "GPI_EXTRA").value) ==
           Some((h.libNamePath(ExtraInterface(j).value, VendorName(v)), EntryPoint(ExtraInterface(j).value)))
  {
    var extra := GpiExtra(v, j, h);
    var r := EnvWith(j, extra);
    assert Lookup(r, "GPI_EXTRA") == if !j.compileOnly && extra.Some? then extra else Lookup(j.env, "GPI_EXTRA");
    r
  }

  /** Where the source's value is right, the two environments agree: on
      Riviera under a Verilog toplevel (line 985), and whenever no extra
      interface is needed. */
  lemma LaunchEnvsAgree(v: Vendor, j: Job, h: Host)
    requires ExtraInterface(j).None? || (v == Riviera && j.toplevelLang != "vhdl")
    ensures LaunchEnv(v, j, h) == LaunchEnvIntended(v, j, h)
  {
  }

  /** Where a finding applies and the simulation runs, the program's
      `GPI_EXTRA` is not the intended one. */
  lemma LaunchEnvsDiffer(v: Vendor, j: Job, h: Host)
    requires !j.compileOnly && ExtraInterface(j).Some?
    requires j.toplevelLang == "vhdl" ==> ':' !in h.libNamePath("vpi", VendorName(v))
    requires j.toplevelLang != "vhdl" ==> v == Activehdl
    ensures Lookup(LaunchEnv(v, j, h), "GPI_EXTRA") != Lookup(LaunchEnvIntended(v, j, h), "GPI_EXTRA")
  {
    if j.toplevelLang == "vhdl" {
      GpiExtraMissingColon(v, j, h);
    } else {
      ActivehdlWrongEntryPoint(j, h);
    }
  }

  /** `build_command` for either vendor: the library is named after the
      toplevel module; the script opens with the error handler, compiles
      when needed and simulates unless only compiling; one batch command
      runs it. */
  function Build(v: Vendor, j: Job, h: Host): (r: Result<Launch>)
    ensures |j.toplevel| == 0 ==> r == Failure(IndexError)
    ensures (|j.toplevel| > 0 && NeedsCompile(j, h, ModuleName(j.toplevel[0])).Failure? ==>
      r == Failure(NeedsCompile(j, h, ModuleName(j.toplevel[0])).error))
    ensures r.Failure? && |j.toplevel| > 0 && NeedsCompile(j, h, ModuleName(j.toplevel[0])).Success? ==> r.error == IndexError
    ensures r.Success? ==> r.value.cmds == [DoCommand(v, j, h)] && |r.value.statements| > 0 && r.value.statements[0] == Header
    ensures r.Success? ==> r.value.env == LaunchEnv(v, j, h)
    ensures r.Success? ==>
      (var lib := ModuleName(j.toplevel[0]);
       var compile := NeedsCompile(j, h, lib).value;
       var cstmts := CompileStatements(v, j, lib, SourcesFlat(j.verilogSources).value, SourcesFlat(j.vhdlSources).value);
       var sstmts := SimStatements(v, j, h, lib);
       && (compile ==> cstmts.Success?)
       && (!j.compileOnly ==> sstmts.Success?)
       && r.value.statements == [Header] + (if compile then cstmts.value else []) + (if j.compileOnly then [] else sstmts.value))
  {
    var lib :- FirstModule(j.toplevel);
    var compile :- NeedsCompile(j, h, lib);
    var cstmts :- if compile then
        CompileStatements(v, j, lib, SourcesFlat(j.verilogSources).value, SourcesFlat(j.vhdlSources).value)
      else Success([]);
    var sstmts :- if j.compileOnly then Success([]) else SimStatements(v, j, h, lib);
    Success(Launch([DoCommand(v, j, h)], [Header] + cstmts + sstmts, LaunchEnv(v, j, h)))
  }

  lemma HeaderVerb()
    ensures Verbs([Header]) == ["onerror"]
  {
    var x := Statement(["onerror", "{\n", "quit", "-code", "1", "\n}"], " \n");
    StatementVerb(["onerror", "{\n", "quit", "-code", "1", "\n}"], " \n");
    assert Header[1..] == x;
    VerbsOne(Header);
  }

  /** The statements of a successful build, by command word: the error
      handler; when compiling, `alib` for the work library (and on Riviera
      for each external library), `acom` and `alog` for the languages
      present; unless only compiling, `asim` (after `set worklib` on
      Active-HDL under a VHDL toplevel), `trace` with waves and `run`
      unless left open in the GUI. */
  lemma BuildPlan(v: Vendor, j: Job, h: Host)
    requires Build(v, j, h).Success?
    ensures |j.toplevel| > 0 && NeedsCompile(j, h, ModuleName(j.toplevel[0])).Success?
    ensures Verbs(Build(v, j, h).value.statements) == ["onerror"]
      + (if NeedsCompile(j, h, ModuleName(j.toplevel[0])).value then CompileVerbs(v, j) else [])
      + (if j.compileOnly then [] else SimVerbs(v, j))
  {
    var lib := ModuleName(j.toplevel[0]);
    var vlog, vhdl := SourcesFlat(j.verilogSources).value, SourcesFlat(j.vhdlSources).value;
    var cstmts := if NeedsCompile(j, h, lib).value then CompileStatements(v, j, lib, vlog, vhdl).value else [];
    var sstmts := if j.compileOnly then [] else SimStatements(v, j, h, lib).value;
    assert Build(v, j, h).value.statements == [Header] + cstmts + sstmts;
    HeaderVerb();
    VerbsAppend3([Header], cstmts, sstmts);
  }
}
