/**
 * Resolution of a session's executable name to a path before it is launched
 * (lib/tether/tether_linux.go: findExecutable and lookPath, a variant of the Unix
 * implementation of Go's os/exec LookPath that resolves names relative to the
 * session's working directory and reads PATH from the session's own environment).
 *
 * The file-system check of findExecutable (stat the path; it must not be a
 * directory and must have an execute bit) is the parameter `executable`.
 */
module ExecLookup {
  import opened Wrappers
  import opened Strings

  datatype LookupError =
    /** findExecutable rejected an explicit path (missing, a directory, or not executable) */
    | NotExecutable(path: string)
    /** no directory of PATH holds an executable of that name */
    | NotInPath(file: string)

  /** The value of the first `PATH=` entry of the environment, or "" when there is none. */
  function PathValue(env: seq<string>): string {
    if |env| == 0 then ""
    else if HasPrefix(env[0], "PATH=") then TrimPrefix(env[0], "PATH=")
    else PathValue(env[1..])
  }

  /** filepath.SplitList on Unix: an empty list yields no directories at all. */
  function SplitList(path: string): seq<string> {
    if path == "" then [] else Split(path, ':')
  }

  /** The path tried for one PATH element; an empty element means the current directory. */
  function Candidate(dir: string, file: string): string {
    (if dir == "" then "." else dir) + "/" + file
  }

  /** The first candidate, in PATH order, that is executable. */
  function SearchPath(dirs: seq<string>, file: string, executable: string -> bool): Result<string, LookupError> {
    if |dirs| == 0 then Err(NotInPath(file))
    else if executable(Candidate(dirs[0], file)) then Ok(Candidate(dirs[0], file))
    else SearchPath(dirs[1..], file, executable)
  }

  /** The specification of lookPath: three cases tried in order. */
  function LookPathSpec(file: string, env: seq<string>, dir: string, executable: string -> bool): Result<string, LookupError> {
    if HasPrefix(file, "./") || HasPrefix(file, "../") then
      var path := dir + "/" + file;
      if executable(path) then Ok(path) else Err(NotExecutable(path))
    else if '/' in file then
      if executable(file) then Ok(file) else Err(NotExecutable(file))
    else
      SearchPath(SplitList(PathValue(env)), file, executable)
  }

  /** lookPath: scan the environment for PATH, then scan its directories, returning early. */
  method LookPath(file: string, env: seq<string>, dir: string, executable: string -> bool)
    returns (r: Result<string, LookupError>)
    ensures r == LookPathSpec(file, env, dir, executable)
  {
    if HasPrefix(file, "./") || HasPrefix(file, "../") {
      var path := dir + "/" + file;
      if executable(path) {
        return Ok(path);
      }
      return Err(NotExecutable(path));
    }

    if '/' in file {
      if executable(file) {
        return Ok(file);
      }
      return Err(NotExecutable(file));
    }

    var pathenv := "";
    var i := 0;
    while i < |env|
      invariant 0 <= i <= |env|
      invariant PathValue(env[i..]) == PathValue(env)
    {
      if HasPrefix(env[i], "PATH=") {
        pathenv := env[i];
        break;
      }
      assert env[i..][1..] == env[i + 1..];
      i := i + 1;
    }
    assert i < |env| ==> pathenv == env[i] && HasPrefix(pathenv, "PATH=");
    var pathval := TrimPrefix(pathenv, "PATH=");
    assert pathval == PathValue(env);

    var dirs := SplitList(pathval);
    var k := 0;
    while k < |dirs|
      invariant 0 <= k <= |dirs|
      invariant SearchPath(dirs[k..], file, executable) == SearchPath(dirs, file, executable)
    {
      var d := dirs[k];
      if d == "" {
        d := ".";
      }
      var path := d + "/" + file;
      if executable(path) {
        return Ok(path);
      }
      assert dirs[k..][1..] == dirs[k + 1..];
      k := k + 1;
    }
    return Err(NotInPath(file));
  }

  /** Whatever lookPath returns successfully is executable. */
  lemma {:induction false} FoundIsExecutable(file: string, env: seq<string>, dir: string, executable: string -> bool)
    requires LookPathSpec(file, env, dir, executable).Ok?
    ensures executable(LookPathSpec(file, env, dir, executable).value)
  {
    if !(HasPrefix(file, "./") || HasPrefix(file, "../")) && '/' !in file {
      SearchPathFirst(SplitList(PathValue(env)), file, executable);
    }
  }

  /** A `./` or `../` name is joined to the working directory and checked there, and only there. */
  lemma RelativeNameJoinsDir(file: string, env: seq<string>, dir: string, executable: string -> bool)
    requires HasPrefix(file, "./") || HasPrefix(file, "../")
    ensures executable(dir + "/" + file) ==> LookPathSpec(file, env, dir, executable) == Ok(dir + "/" + file)
    ensures !executable(dir + "/" + file) ==> LookPathSpec(file, env, dir, executable) == Err(NotExecutable(dir + "/" + file))
  {
  }

  /** Any other name containing a slash is used as it is, never searched for in PATH. */
  lemma SlashNameUsedAsIs(file: string, env: seq<string>, dir: string, executable: string -> bool)
    requires !HasPrefix(file, "./") && !HasPrefix(file, "../") && '/' in file
    ensures LookPathSpec(file, env, dir, executable) == if executable(file) then Ok(file) else Err(NotExecutable(file))
  {
  }

  /** SearchPath returns the first executable candidate in order, or an error when there is none. */
  lemma {:induction false} SearchPathFirst(dirs: seq<string>, file: string, executable: string -> bool)
    ensures SearchPath(dirs, file, executable).Ok? <==>
              exists i :: 0 <= i < |dirs| && executable(Candidate(dirs[i], file))
    ensures SearchPath(dirs, file, executable).Err? ==> SearchPath(dirs, file, executable) == Err(NotInPath(file))
    ensures SearchPath(dirs, file, executable).Ok? ==>
              exists i :: 0 <= i < |dirs| && SearchPath(dirs, file, executable).value == Candidate(dirs[i], file) &&
                executable(Candidate(dirs[i], file)) &&
                forall j :: 0 <= j < i ==> !executable(Candidate(dirs[j], file))
    decreases |dirs|
  {
    if |dirs| > 0 && !executable(Candidate(dirs[0], file)) {
      SearchPathFirst(dirs[1..], file, executable);
      var r := SearchPath(dirs, file, executable);
      if r.Ok? {
        var i :| 0 <= i < |dirs| - 1 && r.value == Candidate(dirs[1..][i], file) &&
                 executable(Candidate(dirs[1..][i], file)) &&
                 forall j :: 0 <= j < i ==> !executable(Candidate(dirs[1..][j], file));
        assert forall j :: 0 <= j < i + 1 ==> !executable(Candidate(dirs[j], file)) by {
          forall j | 0 <= j < i + 1 ensures !executable(Candidate(dirs[j], file)) {
            if j > 0 { assert dirs[j] == dirs[1..][j - 1]; }
          }
        }
      }
      if exists i :: 0 <= i < |dirs| && executable(Candidate(dirs[i], file)) {
        var i :| 0 <= i < |dirs| && executable(Candidate(dirs[i], file));
        assert i > 0 && dirs[1..][i - 1] == dirs[i];
      }
    }
  }

  /** Only the first `PATH=` entry of the environment is read; later ones are ignored. */
  lemma {:induction false} FirstPathEntryWins(env: seq<string>, i: nat)
    requires i < |env| && HasPrefix(env[i], "PATH=")
    requires forall j :: 0 <= j < i ==> !HasPrefix(env[j], "PATH=")
    ensures PathValue(env) == env[i][5..]
    decreases i
  {
    if i > 0 {
      assert env[1..][i - 1] == env[i];
      FirstPathEntryWins(env[1..], i - 1);
    }
  }

  /** Without any `PATH=` entry there is nothing to search and the lookup fails. */
  lemma {:induction false} NoPathEntryFails(file: string, env: seq<string>, dir: string, executable: string -> bool)
    requires !HasPrefix(file, "./") && !HasPrefix(file, "../") && '/' !in file
    requires forall j :: 0 <= j < |env| ==> !HasPrefix(env[j], "PATH=")
    ensures LookPathSpec(file, env, dir, executable) == Err(NotInPath(file))
    decreases |env|
  {
    if |env| > 0 {
      NoPathEntryFails(file, env[1..], dir, executable);
    }
  }

  /** `PATH=:/bin` lists the empty directory, then /bin. */
  lemma PathOfColonBin()
    ensures SplitList(PathValue(["PATH=:/bin"])) == ["", "/bin"]
  {
    var env := ["PATH=:/bin"];
    assert HasPrefix(env[0], "PATH=");
    assert PathValue(env) == ":/bin";
    assert ":/bin" == Join(["", "/bin"], ':');
    SplitJoin(["", "/bin"], ':');
  }

  /** An empty PATH element is read as the current directory: `PATH=:/bin` tries `./f` first. */
  lemma EmptyElementIsCurrentDirectory(file: string, executable: string -> bool)
    requires '/' !in file && file != ""
    requires executable("./" + file)
    ensures LookPathSpec(file, ["PATH=:/bin"], "/work", executable) == Ok("./" + file)
  {
    PathOfColonBin();
    assert Candidate("", file) == "./" + file;
    assert SearchPath(["", "/bin"], file, executable) == Ok("./" + file);
    assert |file| >= 2 ==> file[..2][1] == file[1] && file[1] in file;
    assert |file| >= 3 ==> file[..3][2] == file[2] && file[2] in file;
    assert !HasPrefix(file, "./") && !HasPrefix(file, "../");
  }
}
