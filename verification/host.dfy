/** What the driver reads from the machine it runs on, passed in as values:
    the `os.path.abspath` function and working directory, which directories
    exist, the file modification times, the cocotb installation's library
    lookups, `shutil.which`, the `WAVES` environment variable and the name
    of a fresh temporary file. */
module Host {
  import opened Common

  datatype Host = Host(
    /** `os.path.abspath`. */
    abspath: string -> string,
    /** `os.getcwd()`. */
    cwd: string,
    /** `os.path.isdir`. */
    isDir: string -> bool,
    /** Modification time of every existing path the driver asks about;
        a path that is not a key does not exist. */
    mtimes: map<string, int>,
    /** `bool(int(os.getenv("WAVES", 0)))`, or `None` when the variable
        does not hold an integer literal and `int` raises. */
    wavesEnv: Option<bool>,
    /** The directory holding cocotb's `libs`. */
    libDir: string,
    /** `os.path.dirname(cocotb.__file__)`. */
    cocotbDir: string,
    /** `cocotb.config.lib_name_path(interface, simulator)`. */
    libNamePath: (string, string) -> string,
    /** `cocotb.config.lib_name(interface, simulator)`. */
    libName: (string, string) -> string,
    /** `shutil.which(program)`. */
    which: string -> Option<string>,
    /** The name `tempfile.NamedTemporaryFile` picks for a do-script. */
    tmpName: string)

  /** What `int` raises for a `WAVES` value that is not an integer. */
  const WavesNotInteger := ValueError("invalid literal for int() with base 10")

  /** `os.path.exists`: the path names a file or a directory. */
  predicate PathExists(h: Host, path: string)
  {
    path in h.mtimes
  }

  /** `os.path.isfile`: the path exists and is not a directory. */
  predicate IsFile(h: Host, path: string)
  {
    PathExists(h, path) && !h.isDir(path)
  }

  /** `os.path.getmtime`, which raises for a missing path and answers for
      a directory as for a file. */
  function GetMtime(h: Host, path: string): (r: Result<int>)
    ensures r.Success? <==> PathExists(h, path)
    ensures r.Success? ==> r.value == h.mtimes[path]
    ensures r.Failure? ==> r.error == FileNotFound(path)
  {
    if path in h.mtimes then Success(h.mtimes[path]) else Failure(FileNotFound(path))
  }
}
