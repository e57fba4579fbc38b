/** The state a `Simulator` holds once its constructor has returned: the
    normalised sources, the qualified toplevels, the merged argument lists
    and the environment additions (`Simulator.__init__` and `format_input`),
    with the derived accessors the backends read (`toplevel_module_list`,
    `toplevel_library_list`, `toplevel_module`, `toplevel_library` and the
    `*_sources_flat` properties). */
module Job {
  import opened Common
  import opened Paths
  import opened Timescale
  import opened Host

  /** The `toplevel` argument: one name, or a list of them. */
  datatype Top = One(name: string) | Many(names: seq<string>)

  /** `if not isinstance(toplevel, list): toplevel = [toplevel]`. */
  function TopList(t: Top): seq<string>
  {
    match t
    case One(name) => [name]
    case Many(names) => names
  }

  /** A toplevel written `<lib>.<module>`. */
  predicate Qualified(t: string)
  {
    '.' in t
  }

  /** The module part of a toplevel: `top.rsplit(".", 1)[-1]`. */
  function ModuleName(t: string): string
  {
    AfterLast(t, '.')
  }

  /** The library part of a toplevel: `top.split(".", 1)[0]`. */
  function LibraryName(t: string): string
  {
    BeforeFirst(t, '.')
  }

  /** `toplevel_module_list`. */
  function ModuleList(tops: seq<string>): (r: seq<string>)
    ensures |r| == |tops|
    ensures forall i | 0 <= i < |tops| :: '.' !in r[i] && (!Qualified(tops[i]) ==> r[i] == tops[i])
    ensures forall i | 0 <= i < |tops| && Qualified(tops[i]) ::
      |r[i]| < |tops[i]| && tops[i] == tops[i][..|tops[i]| - |r[i]| - 1] + "." + r[i]
  {
    seq(|tops|, i requires 0 <= i < |tops| => ModuleName(tops[i]))
  }

  /** `toplevel_library_list`: asserts every toplevel is qualified. */
  function LibraryList(tops: seq<string>): (r: Result<seq<string>>)
    ensures r.Success? <==> forall i | 0 <= i < |tops| :: Qualified(tops[i])
    ensures r.Failure? ==> r.error == AssertionError("`self.toplevel` does not yet contain library information.")
    ensures r.Success? ==> |r.value| == |tops|
    ensures r.Success? ==> forall i | 0 <= i < |tops| ::
      '.' !in r.value[i] && r.value[i] + "." <= tops[i]
  {
    if forall i | 0 <= i < |tops| :: Qualified(tops[i]) then
      Success(seq(|tops|, i requires 0 <= i < |tops| => LibraryName(tops[i])))
    else
      Failure(AssertionError("`self.toplevel` does not yet contain library information."))
  }

  /** `toplevel_module`: the module of the first toplevel. */
  function FirstModule(tops: seq<string>): (r: Result<string>)
    ensures r.Success? <==> |tops| > 0
    ensures r.Failure? ==> r.error == IndexError
    ensures r.Success? ==> r.value == ModuleList(tops)[0]
  {
    if |tops| == 0 then Failure(IndexError) else Success(ModuleName(tops[0]))
  }

  /** `toplevel_library`: the library of the first toplevel. */
  function FirstLibrary(tops: seq<string>): (r: Result<string>)
    ensures r.Success? <==> |tops| > 0 && LibraryList(tops).Success?
    ensures r.Success? ==> r.value == LibraryList(tops).value[0]
  {
    var libs :- LibraryList(tops);
    if |libs| == 0 then Failure(IndexError) else Success(libs[0])
  }

  // ---------------------------------------------------------------------
  // format_input

  /** Give an unqualified toplevel the library `m`. */
  function Qualify(m: string, t: string): string
  {
    if Qualified(t) then t else m + "." + t
  }

  function QualifyAll(m: string, tops: seq<string>): (r: seq<string>)
    ensures |r| == |tops|
    ensures forall i | 0 <= i < |tops| :: r[i] == Qualify(m, tops[i])
  {
    seq(|tops|, i requires 0 <= i < |tops| => Qualify(m, tops[i]))
  }

  /** The loop of `format_input`, which reads `toplevel_module` afresh
      while it rewrites the list: the first module name never changes, so
      every entry is qualified with the original first module. */
  method QualifyInPlace(tops: seq<string>) returns (r: seq<string>)
    ensures |r| == |tops|
    ensures |tops| > 0 ==> r == QualifyAll(ModuleName(tops[0]), tops)
  {
    r := tops;
    if |tops| == 0 {
      return;
    }
    var first := ModuleName(tops[0]);
    var i := 0;
    while i < |r|
      invariant 0 <= i <= |r| == |tops|
      invariant forall j | 0 <= j < i :: r[j] == Qualify(first, tops[j])
      invariant forall j | i <= j < |r| :: r[j] == tops[j]
    {
      if !Qualified(r[i]) {
        var m := ModuleName(r[0]);
        assert m == first by {
          assert r[0] == tops[0] || r[0] == Qualify(first, tops[0]);
          QualifyKeepsModule(first, tops[0]);
        }
        r := r[i := m + "." + r[i]];
      }
      i := i + 1;
    }
  }

  /** The toplevels and both source collections, which `format_input`
      rewrites together. */
  datatype Shape = Shape(toplevel: Top, verilog: Sources, vhdl: Sources)

  /** A non-empty flat list, which `format_input` turns into a library. */
  predicate NeedsLib(s: Sources)
  {
    s.Flat? && |s.files| > 0
  }

  function WrapSources(s: Sources, m: string): Sources
  {
    if NeedsLib(s) then Libs([(m, s.files)]) else s
  }

  /** `format_input`. */
  function FormatInput(sh: Shape): (r: Result<Shape>)
    ensures r.Failure? <==> |TopList(sh.toplevel)| == 0 && (NeedsLib(sh.verilog) || NeedsLib(sh.vhdl))
    ensures r.Failure? ==> r.error == IndexError
    ensures r.Success? ==> r.value.toplevel.Many? && |r.value.toplevel.names| == |TopList(sh.toplevel)|
    ensures r.Success? ==> forall i | 0 <= i < |r.value.toplevel.names| ::
      var t, t' := TopList(sh.toplevel)[i], r.value.toplevel.names[i];
      Qualified(t') && (Qualified(t) ==> t' == t) && (!Qualified(t) ==> t' == ModuleName(TopList(sh.toplevel)[0]) + "." + t)
    ensures r.Success? ==> !NeedsLib(r.value.verilog) && !NeedsLib(r.value.vhdl)
    ensures r.Success? && NeedsLib(sh.vhdl) ==> r.value.vhdl == Libs([(ModuleName(TopList(sh.toplevel)[0]), sh.vhdl.files)])
    ensures r.Success? && NeedsLib(sh.verilog) ==>
      r.value.verilog == Libs([(ModuleName(TopList(sh.toplevel)[0]), sh.verilog.files)])
    ensures r.Success? && !NeedsLib(sh.vhdl) ==> r.value.vhdl == sh.vhdl
    ensures r.Success? && !NeedsLib(sh.verilog) ==> r.value.verilog == sh.verilog
  {
    var tops := TopList(sh.toplevel);
    if |tops| == 0 && (NeedsLib(sh.vhdl) || NeedsLib(sh.verilog)) then Failure(IndexError)
    else
      var m := if |tops| > 0 then ModuleName(tops[0]) else "";
      Success(Shape(Many(QualifyAll(m, tops)), WrapSources(sh.verilog, m), WrapSources(sh.vhdl, m)))
  }

  /** `*_sources_flat`: the files of the only library. */
  function SourcesFlat(s: Sources): (r: Result<seq<string>>)
    ensures !Truthy(s) ==> r == Success([])
    ensures r.Success? && Truthy(s) ==> s.Libs? && |s.libs| == 1 && r.value == s.libs[0].1
    ensures s.Libs? && |s.libs| > 1 ==>
      r == Failure(AssertionError("Flattened sources only available when using a single library name."))
  {
    if !Truthy(s) then Success([])
    else if s.Flat? then
      // A list of one file passes the length assertion and then has no `values`.
      if |s.files| == 1 then Failure(AttributeError)
      else Failure(AssertionError("Flattened sources only available when using a single library name."))
    else if |s.libs| != 1 then Failure(AssertionError("Flattened sources only available when using a single library name."))
    else Success(s.libs[0].1)
  }

  /** `if self.timescale:`: a timescale was given and is not empty. */
  predicate TimescaleSet(ts: Option<string>)
  {
    ts.Some? && |ts.value| > 0
  }

  /** `for lib, src in sources.items()`: only a dictionary has items. */
  function Items(s: Sources): (r: Result<Dict<seq<string>>>)
    ensures r.Success? <==> s.Libs?
    ensures r.Success? ==> r.value == s.libs
    ensures r.Failure? ==> r.error == AttributeError
  {
    match s
    case Libs(libs) => Success(libs)
    case Flat(_) => Failure(AttributeError)
  }

  // ---------------------------------------------------------------------
  // Lemmas about toplevels and format_input

  /** Qualifying a toplevel does not change its module. */
  lemma QualifyKeepsModule(m: string, t: string)
    ensures ModuleName(Qualify(m, t)) == ModuleName(t)
  {
    if !Qualified(t) {
      AfterLastAfterSeparator(m, '.', t);
      assert m + "." + t == m + ['.'] + t;
    }
  }

  /** Qualifying an unqualified toplevel with a module name makes that
      name its library. */
  lemma QualifyGivesLibrary(m: string, t: string)
    requires '.' !in m && !Qualified(t)
    ensures LibraryName(Qualify(m, t)) == m
  {
    BeforeFirstBeforeSeparator(m, '.', t);
    assert m + "." + t == m + ['.'] + t;
  }

  /** A toplevel written from a dot-free library and module splits back
      into them: the two accessors invert the qualification. */
  lemma QualifiedSplits(lib: string, m: string)
    requires '.' !in lib && '.' !in m
    ensures ModuleList([lib + "." + m]) == [m]
    ensures LibraryList([lib + "." + m]) == Success([lib])
  {
    var t := lib + "." + m;
    assert Qualify(lib, m) == t;
    assert ModuleName(t) == m by {
      QualifyKeepsModule(lib, m);
    }
    assert LibraryName(t) == lib by {
      QualifyGivesLibrary(lib, m);
    }
    assert Qualified(t) by {
      assert t[|lib|] == '.';
    }
    assert ModuleList([t])[0] == m;
    assert LibraryList([t]).Success?;
    assert LibraryList([t]).value[0] == lib;
    assert LibraryList([t]).value == [lib];
  }

  /** Qualifying every toplevel keeps the module list. */
  lemma QualifyAllModules(m: string, tops: seq<string>)
    ensures ModuleList(QualifyAll(m, tops)) == ModuleList(tops)
  {
    var tops' := QualifyAll(m, tops);
    forall i | 0 <= i < |tops| ensures ModuleList(tops')[i] == ModuleList(tops)[i] {
      QualifyKeepsModule(m, tops[i]);
    }
  }

  /** With a dot-free `m`, every toplevel qualified by it has library `m`. */
  lemma QualifyAllLibraries(m: string, tops: seq<string>)
    requires '.' !in m
    ensures LibraryList(QualifyAll(m, tops)).Success?
    ensures forall i | 0 <= i < |tops| && !Qualified(tops[i]) :: LibraryList(QualifyAll(m, tops)).value[i] == m
  {
    var tops' := QualifyAll(m, tops);
    forall i | 0 <= i < |tops| && !Qualified(tops[i]) ensures LibraryName(tops'[i]) == m {
      QualifyGivesLibrary(m, tops[i]);
    }
  }

  /** `format_input` leaves the module list alone, makes the library list
      available, and gives every unqualified toplevel the first module as
      its library. */
  lemma FormatInputToplevels(sh: Shape)
    requires FormatInput(sh).Success?
    ensures var tops, tops' := TopList(sh.toplevel), FormatInput(sh).value.toplevel.names;
      && ModuleList(tops') == ModuleList(tops)
      && LibraryList(tops').Success?
      && forall i | 0 <= i < |tops| && !Qualified(tops[i]) :: LibraryList(tops').value[i] == ModuleName(tops[0])
  {
    var tops := TopList(sh.toplevel);
    var m := if |tops| > 0 then ModuleName(tops[0]) else "";
    assert FormatInput(sh).value.toplevel.names == QualifyAll(m, tops);
    QualifyAllModules(m, tops);
    if |tops| > 0 {
      assert '.' !in m by { assert m == ModuleList(tops)[0]; }
      QualifyAllLibraries(m, tops);
    } else {
      assert LibraryList(QualifyAll(m, tops)).Success?;
    }
  }

  /** A second `format_input` changes nothing. */
  lemma FormatInputIdempotent(sh: Shape)
    requires FormatInput(sh).Success?
    ensures FormatInput(FormatInput(sh).value) == FormatInput(sh)
  {
    var sh' := FormatInput(sh).value;
    var tops' := sh'.toplevel.names;
    if |tops'| > 0 {
      assert QualifyAll(ModuleName(tops'[0]), tops') == tops';
    }
  }

  /** Flattening the library `format_input` made gives back the list. */
  lemma FlatOfWrapped(files: seq<string>, m: string)
    ensures SourcesFlat(WrapSources(Flat(files), m)) == Success(files)
  {
  }

  // ---------------------------------------------------------------------
  // The constructor

  /** The constructor's arguments, with every `None` list already replaced
      by the empty list it defaults to. */
  datatype SimArgs = SimArgs(
    toplevel: Top,
    testModule: string,
    workDir: Option<string>,
    toplevelLang: string,
    verilogSources: Sources,
    vhdlSources: Sources,
    includes: Sources,
    defines: seq<string>,
    /** Parameter names with `str(value)`. */
    parameters: Dict<string>,
    compileArgs: seq<string>,
    vhdlCompileArgs: seq<string>,
    verilogCompileArgs: seq<string>,
    simArgs: seq<string>,
    extraArgs: seq<string>,
    plusArgs: seq<string>,
    forceCompile: bool,
    testcase: Option<string>,
    simBuild: string,
    seed: Option<int>,
    extraEnv: Dict<string>,
    compileOnly: bool,
    waves: Option<bool>,
    timescale: Option<string>,
    gui: bool,
    /** The deprecated alias of `simArgs`. */
    simulationArgs: seq<string>,
    externalLibraries: Sources)

  datatype Job = Job(
    simDir: string,
    workDir: string,
    testModule: string,
    toplevel: seq<string>,
    toplevelLang: string,
    verilogSources: Sources,
    vhdlSources: Sources,
    externalLibraries: Sources,
    includes: Sources,
    defines: seq<string>,
    parameters: Dict<string>,
    compileArgs: seq<string>,
    vhdlCompileArgs: seq<string>,
    verilogCompileArgs: seq<string>,
    simulationArgs: seq<string>,
    plusArgs: seq<string>,
    forceCompile: bool,
    compileOnly: bool,
    env: Dict<string>,
    waves: bool,
    timescale: Option<string>,
    gui: bool)

  /** What a constructed simulator guarantees its backend. */
  predicate Formatted(j: Job)
  {
    && (forall i | 0 <= i < |j.toplevel| :: Qualified(j.toplevel[i]))
    && !NeedsLib(j.verilogSources) && !NeedsLib(j.vhdlSources)
    && (j.verilogSources.Libs? ==> DistinctKeys(j.verilogSources.libs))
    && (j.vhdlSources.Libs? ==> DistinctKeys(j.vhdlSources.libs))
    && (j.timescale.Some? ==> MatchesPattern(j.timescale.value))
  }

  /** `self.env`: a copy of `extra_env` with the test case and the seed. */
  function JobEnv(a: SimArgs): Dict<string>
  {
    var e := a.extraEnv;
    var e := if a.testcase.Some? then Store(e, "TESTCASE", a.testcase.value) else e;
    if a.seed.Some? then Store(e, "RANDOM_SEED", IntToString(a.seed.value)) else e
  }

  /** The toplevel and the normalised sources, before formatting. */
  function RawShape(a: SimArgs, h: Host): Shape
  {
    Shape(a.toplevel, GetAbsPaths(a.verilogSources, h.cwd, h.abspath), GetAbsPaths(a.vhdlSources, h.cwd, h.abspath))
  }

  /** The fields the constructor fills in once both checks have passed. */
  function Assemble(a: SimArgs, h: Host, waves: bool, timescale: Option<string>, sh: Shape): Job
    requires sh.toplevel.Many?
  {
    var simDir := h.abspath(a.simBuild);
    Job(
      simDir := simDir,
      workDir := if a.workDir.Some? && h.isDir(h.abspath(a.workDir.value)) then h.abspath(a.workDir.value) else simDir,
      testModule := a.testModule,
      toplevel := sh.toplevel.names,
      toplevelLang := a.toplevelLang,
      verilogSources := sh.verilog,
      vhdlSources := sh.vhdl,
      externalLibraries := GetAbsPaths(a.externalLibraries, h.cwd, h.abspath),
      includes := GetAbsPaths(a.includes, h.cwd, h.abspath),
      defines := a.defines,
      parameters := a.parameters,
      compileArgs := a.compileArgs + a.extraArgs,
      vhdlCompileArgs := a.vhdlCompileArgs,
      verilogCompileArgs := a.verilogCompileArgs,
      simulationArgs := a.simArgs + a.simulationArgs + a.extraArgs,
      plusArgs := a.plusArgs,
      forceCompile := a.forceCompile,
      compileOnly := a.compileOnly,
      env := JobEnv(a),
      waves := waves,
      timescale := timescale,
      gui := a.gui)
  }

  /** `bool(waves)`, or the `WAVES` variable when `waves` is `None`. */
  function Waves(a: SimArgs, h: Host): Result<bool>
  {
    if a.waves.Some? then Success(a.waves.value)
    else if h.wavesEnv.Some? then Success(h.wavesEnv.value)
    else Failure(WavesNotInteger)
  }

  /** `Simulator.__init__`. The `WAVES` variable is read first, then the
      timescale is checked, then the input is formatted: an unreadable
      `WAVES` is reported before an invalid timescale, and an invalid
      timescale even when the toplevel is missing. A constructed job is
      `Formatted`, and every field is the argument it comes from, with the
      paths made absolute, the extra arguments appended and the toplevels
      and sources formatted. */
  function MakeJob(a: SimArgs, h: Host): (r: Result<Job>)
    ensures a.waves.None? && h.wavesEnv.None? ==> r == Failure(WavesNotInteger)
    ensures (a.waves.Some? || h.wavesEnv.Some?) && a.timescale.Some? && !MatchesPattern(a.timescale.value) ==>
      r == Failure(ValueError("Invalid timescale: " + a.timescale.value))
    ensures (a.waves.Some? || h.wavesEnv.Some?) && (a.timescale.None? || MatchesPattern(a.timescale.value)) ==>
      (r.Failure? <==> |TopList(a.toplevel)| == 0 && (NeedsLib(a.verilogSources) || NeedsLib(a.vhdlSources)))
    ensures r.Failure? ==> r.error.ValueError? || r.error == IndexError
    ensures r.Success? ==> Formatted(r.value)
    ensures r.Success? ==> var jb := r.value;
      && jb.simDir == h.abspath(a.simBuild)
      && (a.workDir.Some? && h.isDir(h.abspath(a.workDir.value)) ==> jb.workDir == h.abspath(a.workDir.value))
      && (a.workDir.None? || !h.isDir(h.abspath(a.workDir.value)) ==> jb.workDir == jb.simDir)
      && jb.testModule == a.testModule && jb.toplevelLang == a.toplevelLang
      && jb.externalLibraries == GetAbsPaths(a.externalLibraries, h.cwd, h.abspath)
      && jb.includes == GetAbsPaths(a.includes, h.cwd, h.abspath)
      && jb.defines == a.defines && jb.parameters == a.parameters
      && jb.compileArgs == a.compileArgs + a.extraArgs
      && jb.vhdlCompileArgs == a.vhdlCompileArgs && jb.verilogCompileArgs == a.verilogCompileArgs
      && jb.simulationArgs == a.simArgs + a.simulationArgs + a.extraArgs
      && jb.plusArgs == a.plusArgs && jb.forceCompile == a.forceCompile && jb.compileOnly == a.compileOnly
      && jb.gui == a.gui && jb.timescale == a.timescale
      && (a.waves.Some? ==> jb.waves == a.waves.value)
      && (a.waves.None? ==> jb.waves == h.wavesEnv.value)
    ensures r.Success? ==> r.value.env == JobEnv(a)
    ensures r.Success? ==> FormatInput(RawShape(a, h)) == Success(Shape(Many(r.value.toplevel), r.value.verilogSources, r.value.vhdlSources))
  {
    var waves :- Waves(a, h);
    var timescale :- ValidateTimescale(a.timescale);
    var sh :- FormatInput(RawShape(a, h));
    AssembleFormatted(a, h, waves, timescale, sh);
    AssembleFields(a, h, waves, sh);
    Success(Assemble(a, h, waves, timescale, sh))
  }

  /** The toplevels and sources of a constructed job are already in the
      form `format_input` produces: formatting them again changes nothing. */
  lemma MakeJobStable(a: SimArgs, h: Host)
    requires MakeJob(a, h).Success?
    ensures var jb := MakeJob(a, h).value;
      var sh := Shape(Many(jb.toplevel), jb.verilogSources, jb.vhdlSources);
      FormatInput(sh) == Success(sh)
  {
    FormatInputIdempotent(RawShape(a, h));
  }

  /** Every field of an assembled job is the argument it comes from. */
  lemma AssembleFields(a: SimArgs, h: Host, waves: bool, sh: Shape)
    requires sh.toplevel.Many?
    ensures var jb := Assemble(a, h, waves, a.timescale, sh);
      && jb.simDir == h.abspath(a.simBuild)
      && (a.workDir.Some? && h.isDir(h.abspath(a.workDir.value)) ==> jb.workDir == h.abspath(a.workDir.value))
      && (a.workDir.None? || !h.isDir(h.abspath(a.workDir.value)) ==> jb.workDir == jb.simDir)
      && jb.testModule == a.testModule && jb.toplevelLang == a.toplevelLang
      && jb.externalLibraries == GetAbsPaths(a.externalLibraries, h.cwd, h.abspath)
      && jb.includes == GetAbsPaths(a.includes, h.cwd, h.abspath)
      && jb.defines == a.defines && jb.parameters == a.parameters
      && jb.compileArgs == a.compileArgs + a.extraArgs
      && jb.vhdlCompileArgs == a.vhdlCompileArgs && jb.verilogCompileArgs == a.verilogCompileArgs
      && jb.simulationArgs == a.simArgs + a.simulationArgs + a.extraArgs
      && jb.plusArgs == a.plusArgs && jb.forceCompile == a.forceCompile && jb.compileOnly == a.compileOnly
      && jb.gui == a.gui && jb.timescale == a.timescale && jb.waves == waves
      && jb.env == JobEnv(a)
      && Shape(Many(jb.toplevel), jb.verilogSources, jb.vhdlSources) == sh
  {
  }

  /** A job assembled from formatted input is `Formatted`. */
  lemma AssembleFormatted(a: SimArgs, h: Host, waves: bool, timescale: Option<string>, sh: Shape)
    requires timescale.Some? ==> MatchesPattern(timescale.value)
    requires FormatInput(RawShape(a, h)) == Success(sh)
    ensures sh.toplevel.Many? && Formatted(Assemble(a, h, waves, timescale, sh))
  {
    var raw := RawShape(a, h);
    SingleOrKept(raw.verilog, sh.verilog);
    SingleOrKept(raw.vhdl, sh.vhdl);
    var jb := Assemble(a, h, waves, timescale, sh);
    assert jb.toplevel == sh.toplevel.names && jb.timescale == timescale;
    assert jb.verilogSources == sh.verilog && jb.vhdlSources == sh.vhdl;
  }

  /** Formatted sources keep distinct library names: they are either the
      normalised sources themselves or a single library. */
  lemma SingleOrKept(raw: Sources, s: Sources)
    requires raw.Libs? ==> DistinctKeys(raw.libs)
    requires !NeedsLib(raw) ==> s == raw
    requires NeedsLib(raw) ==> s.Libs? && |s.libs| == 1
    ensures s.Libs? ==> DistinctKeys(s.libs)
  {
  }

  /** The environment holds the given test case and seed and, for every
      other name, exactly what `extra_env` holds. */
  lemma JobEnvLookup(a: SimArgs, k: string)
    ensures k == "RANDOM_SEED" && a.seed.Some? ==> Lookup(JobEnv(a), k) == Some(IntToString(a.seed.value))
    ensures k == "TESTCASE" && a.testcase.Some? ==> Lookup(JobEnv(a), k) == Some(a.testcase.value)
    ensures (k != "TESTCASE" || a.testcase.None?) && (k != "RANDOM_SEED" || a.seed.None?) ==>
      Lookup(JobEnv(a), k) == Lookup(a.extraEnv, k)
  {
    var e := a.extraEnv;
    var e1 := if a.testcase.Some? then Store(e, "TESTCASE", a.testcase.value) else e;
    if a.testcase.Some? {
      StoreLookup(e, "TESTCASE", a.testcase.value, k);
    }
    if a.seed.Some? {
      StoreLookup(e1, "RANDOM_SEED", IntToString(a.seed.value), k);
    }
  }
}
