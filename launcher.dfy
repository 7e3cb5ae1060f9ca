/** The executable-resolution engine of the launcher: the allowlist of
    trusted binary directories, the mode-bit predicates, the canonical
    allowlist check and the command resolver.

    The process environment and the filesystem are explicit values: `Env`
    holds `HOME` and `PATH`, and `FileSystem` is a snapshot answering
    `fs::metadata` and `fs::canonicalize` for each path string (a path
    absent from a map is a call that fails). */
module Launcher {
  import opened Optional
  import opened TextSplit
  import opened Paths

  /** Unix permission bits (`0o100`, `0o010`, `0o001`, `0o020`, `0o002`). */
  const OwnerExecute: bv32 := 0x40
  const GroupExecute: bv32 := 0x08
  const OtherExecute: bv32 := 0x01
  const GroupWrite: bv32 := 0x10
  const OtherWrite: bv32 := 0x02

  /** The masks the source tests: `0o111` and `0o022`. */
  const ExecuteMask: bv32 := 0x49
  const GroupOtherWriteMask: bv32 := 0x12

  /** What `fs::metadata` reports that the launcher looks at. */
  datatype Meta = Meta(isFile: bool, mode: bv32)

  datatype FileSystem = FileSystem(meta: map<string, Meta>, canon: map<string, CanonPath>)

  /** The environment variables the launcher reads; `None` is unset. */
  datatype Env = Env(home: Option<string>, path: Option<string>)

  const SystemBins: seq<string> := ["/usr/bin", "/usr/local/bin", "/bin"]
  const HomeBinSuffix: string := ".local/bin"
  const PathListSeparator: char := ':'

  /** `HOME` joined with `.local/bin`: the home directory's names followed by
      `.local` and `bin`, absolute exactly when `HOME` is. */
  function UserBin(home: string): (dir: string)
    ensures Names(dir) == Names(home) + [".local", "bin"]
    ensures home != "" ==> IsAbsolute(dir) == IsAbsolute(home)
    ensures home == "" ==> dir == HomeBinSuffix
  {
    assert HomeBinSuffix[0] == '.';
    JoinAppendsNames(home, HomeBinSuffix);
    SuffixNames();
    Join(home, HomeBinSuffix)
  }

  /** The trusted directories: the three system directories in this order,
      then the user's `.local/bin` exactly when `HOME` is set (an empty
      `HOME` included). Built from the environment alone. */
  function AllowedBins(home: Option<string>): (dirs: seq<string>)
    ensures |dirs| == (if home.Some? then 4 else 3)
    ensures dirs[..3] == SystemBins
    ensures forall k :: 0 <= k < 3 ==> IsAbsolute(dirs[k])
    ensures home.Some? ==> dirs[3] == UserBin(home.value)
  {
    SystemBinsAbsolute();
    if home.Some? then SystemBins + [UserBin(home.value)] else SystemBins
  }

  lemma SystemBinsAbsolute()
    ensures forall k :: 0 <= k < |SystemBins| ==> IsAbsolute(SystemBins[k])
  {
    assert SystemBins[0][0] == SystemBins[1][0] == SystemBins[2][0] == Separator;
  }

  lemma SuffixNames()
    ensures Names(HomeBinSuffix) == [".local", "bin"]
  {
    assert HomeBinSuffix == ".local" + [Separator] + "bin";
    NamesOfTwo(".local", "bin");
  }

  /** `is_executable` on unix: some execute bit (owner, group or other) is set. */
  function IsExecutable(m: Meta): (r: bool)
    ensures r <==> (m.mode & OwnerExecute != 0 || m.mode & GroupExecute != 0 || m.mode & OtherExecute != 0)
  {
    m.mode & ExecuteMask != 0
  }

  /** `dir_world_writable` on unix: the directory is writable by its group or
      by others, or its metadata cannot be read (fail-closed). */
  function DirWorldWritable(fs: FileSystem, dir: string): (r: bool)
    ensures r <==> (dir !in fs.meta || fs.meta[dir].mode & GroupWrite != 0 || fs.meta[dir].mode & OtherWrite != 0)
  {
    if dir in fs.meta then fs.meta[dir].mode & GroupOtherWriteMask != 0 else true
  }

  /** `base` canonicalises and its canonical form is a component-wise prefix
      of the canonical form of `path`. */
  ghost predicate BaseCovers(fs: FileSystem, base: string, path: string) {
    base in fs.canon && path in fs.canon && StartsWith(fs.canon[path], fs.canon[base])
  }

  /** The allowlist test: `path` canonicalises and some trusted directory
      whose own canonicalisation succeeds covers it. */
  ghost predicate Allowed(fs: FileSystem, home: Option<string>, path: string) {
    path in fs.canon && CoveredBy(fs, AllowedBins(home), path)
  }

  /** Some directory of `bases` covers `path`. */
  ghost predicate CoveredBy(fs: FileSystem, bases: seq<string>, path: string) {
    exists k :: 0 <= k < |bases| && BaseCovers(fs, bases[k], path)
  }

  /** `is_allowed_path`: walks the trusted directories in order and answers
      at the first one that covers `path`; a directory that does not
      canonicalise is skipped. */
  method IsAllowedPath(fs: FileSystem, home: Option<string>, path: string) returns (ok: bool)
    ensures ok == Allowed(fs, home, path)
  {
    if path !in fs.canon {
      return false;
    }
    var canon := fs.canon[path];
    var bases := AllowedBins(home);
    for i := 0 to |bases|
      invariant forall j :: 0 <= j < i ==> !BaseCovers(fs, bases[j], path)
    {
      var base := bases[i];
      if base in fs.canon {
        var baseCanon := fs.canon[base];
        if StartsWith(canon, baseCanon) {
          assert BaseCovers(fs, bases[i], path);
          return true;
        }
      }
    }
    assert !CoveredBy(fs, bases, path);
    return false;
  }

  /** The gates a candidate path must pass: it has metadata, is a regular
      file, is executable, is in the allowlist and canonicalises. */
  ghost predicate CandidateAccepted(fs: FileSystem, home: Option<string>, path: string) {
    path in fs.meta && fs.meta[path].isFile && IsExecutable(fs.meta[path]) &&
    Allowed(fs, home, path) && path in fs.canon
  }

  /** A `PATH` entry yields `cmd`: it is non-empty, absolute, not writable by
      group or others, and `dir/cmd` passes the candidate gates. */
  ghost predicate SegmentAccepted(fs: FileSystem, home: Option<string>, dir: string, cmd: string) {
    dir != "" && IsAbsolute(dir) && !DirWorldWritable(fs, dir) &&
    CandidateAccepted(fs, home, Join(dir, cmd))
  }

  /** The canonical candidate of the first accepted entry of `dirs`. */
  ghost function Search(fs: FileSystem, home: Option<string>, dirs: seq<string>, cmd: string): Option<CanonPath>
    decreases |dirs|
  {
    if dirs == [] then None
    else if SegmentAccepted(fs, home, dirs[0], cmd) then Some(fs.canon[Join(dirs[0], cmd)])
    else Search(fs, home, dirs[1..], cmd)
  }

  /** What `resolve_command` returns: an absolute command goes straight to the
      candidate gates; a bare name is searched along `PATH`; an unset `PATH`
      refuses a bare name. */
  ghost function Resolve(env: Env, fs: FileSystem, cmd: string): Option<CanonPath> {
    if IsAbsolute(cmd) then
      if CandidateAccepted(fs, env.home, cmd) then Some(fs.canon[cmd]) else None
    else if env.path.None? then None
    else Search(fs, env.home, Split(env.path.value, PathListSeparator), cmd)
  }

  /** `resolve_command`. */
  method ResolveCommand(env: Env, fs: FileSystem, cmd: string) returns (r: Option<CanonPath>)
    ensures r == Resolve(env, fs, cmd)
  {
    if IsAbsolute(cmd) {
      if cmd !in fs.meta {
        return None;
      }
      var meta := fs.meta[cmd];
      if meta.isFile && IsExecutable(meta) {
        var allowed := IsAllowedPath(fs, env.home, cmd);
        if allowed {
          return if cmd in fs.canon then Some(fs.canon[cmd]) else None;
        }
      }
      return None;
    }

    if env.path.None? {
      return None;
    }
    var dirs := Split(env.path.value, PathListSeparator);
    for i := 0 to |dirs|
      invariant Search(fs, env.home, dirs, cmd) == Search(fs, env.home, dirs[i..], cmd)
    {
      var dir := dirs[i];
      assert dirs[i..][1..] == dirs[i + 1..];
      if dir == "" {
        continue;
      }
      if !IsAbsolute(dir) {
        continue;
      }
      if DirWorldWritable(fs, dir) {
        continue;
      }
      var path := Join(dir, cmd);
      if path in fs.meta {
        var meta := fs.meta[path];
        if meta.isFile && IsExecutable(meta) {
          var allowed := IsAllowedPath(fs, env.home, path);
          if allowed {
            if path in fs.canon {
              return Some(fs.canon[path]);
            }
          }
        }
      }
    }
    return None;
  }
}
