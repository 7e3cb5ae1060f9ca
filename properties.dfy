/** What the resolver promises: the `PATH` search returns the first accepted
    entry, skipped entries never matter, and whatever is returned is a
    regular executable file under a canonical trusted directory. */
module LauncherProperties {
  import opened Optional
  import opened TextSplit
  import opened Paths
  import opened Launcher

  /** `r` is the canonical form of `path`, a regular file with an execute bit
      set, and lies under the canonical form of a trusted directory. */
  ghost predicate TrustedExecutable(fs: FileSystem, home: Option<string>, path: string, r: CanonPath) {
    path in fs.meta && fs.meta[path].isFile && IsExecutable(fs.meta[path]) &&
    path in fs.canon && fs.canon[path] == r &&
    exists base :: base in AllowedBins(home) && base in fs.canon && StartsWith(r, fs.canon[base])
  }

  lemma CandidateIsTrusted(fs: FileSystem, home: Option<string>, path: string)
    requires CandidateAccepted(fs, home, path)
    ensures TrustedExecutable(fs, home, path, fs.canon[path])
  {
    var k :| 0 <= k < |AllowedBins(home)| && BaseCovers(fs, AllowedBins(home)[k], path);
    assert AllowedBins(home)[k] in AllowedBins(home);
  }

  /** The search answers with the first accepted entry of `PATH`. */
  lemma {:induction false} SearchPicksFirst(fs: FileSystem, home: Option<string>, dirs: seq<string>, cmd: string, i: nat)
    requires i < |dirs| && SegmentAccepted(fs, home, dirs[i], cmd)
    requires forall j :: 0 <= j < i ==> !SegmentAccepted(fs, home, dirs[j], cmd)
    ensures Search(fs, home, dirs, cmd) == Some(fs.canon[Join(dirs[i], cmd)])
  {
    if i > 0 {
      assert !SegmentAccepted(fs, home, dirs[0], cmd);
      assert forall j :: 0 <= j < i - 1 ==> dirs[1..][j] == dirs[j + 1];
      SearchPicksFirst(fs, home, dirs[1..], cmd, i - 1);
    }
  }

  /** The search refuses exactly when no entry of `PATH` is accepted. */
  lemma {:induction false} SearchNoneIffNoneAccepted(fs: FileSystem, home: Option<string>, dirs: seq<string>, cmd: string)
    ensures Search(fs, home, dirs, cmd) == None <==>
            forall i :: 0 <= i < |dirs| ==> !SegmentAccepted(fs, home, dirs[i], cmd)
  {
    if dirs != [] {
      SearchNoneIffNoneAccepted(fs, home, dirs[1..], cmd);
      assert forall i :: 1 <= i < |dirs| ==> dirs[i] == dirs[1..][i - 1];
    }
  }

  /** A found candidate comes from an accepted entry with no accepted entry
      before it. */
  lemma {:induction false} SearchWitness(fs: FileSystem, home: Option<string>, dirs: seq<string>, cmd: string)
    requires Search(fs, home, dirs, cmd).Some?
    ensures exists i :: 0 <= i < |dirs| && SegmentAccepted(fs, home, dirs[i], cmd) &&
                        Search(fs, home, dirs, cmd) == Some(fs.canon[Join(dirs[i], cmd)]) &&
                        forall j :: 0 <= j < i ==> !SegmentAccepted(fs, home, dirs[j], cmd)
  {
    if !SegmentAccepted(fs, home, dirs[0], cmd) {
      var rest := dirs[1..];
      SearchWitness(fs, home, rest, cmd);
      var i :| 0 <= i < |rest| && SegmentAccepted(fs, home, rest[i], cmd) &&
               Search(fs, home, rest, cmd) == Some(fs.canon[Join(rest[i], cmd)]) &&
               forall j :: 0 <= j < i ==> !SegmentAccepted(fs, home, rest[j], cmd);
      forall j | 0 <= j < i + 1
        ensures !SegmentAccepted(fs, home, dirs[j], cmd)
      {
        if j > 0 {
          assert dirs[j] == rest[j - 1];
        }
      }
      assert dirs[i + 1] == rest[i];
    } else {
      assert SegmentAccepted(fs, home, dirs[0], cmd);
    }
  }

  /** An empty, relative or group/world-writable `PATH` entry never changes
      the outcome, wherever it stands. */
  lemma {:induction false} SkippedEntryIrrelevant(fs: FileSystem, home: Option<string>,
                                                  before: seq<string>, dir: string, after: seq<string>, cmd: string)
    requires dir == "" || !IsAbsolute(dir) || DirWorldWritable(fs, dir)
    ensures Search(fs, home, before + [dir] + after, cmd) == Search(fs, home, before + after, cmd)
  {
    if before == [] {
      assert before + [dir] + after == [dir] + after;
      assert ([dir] + after)[1..] == after;
      assert before + after == after;
    } else {
      assert (before + [dir] + after)[0] == before[0];
      assert (before + [dir] + after)[1..] == before[1..] + [dir] + after;
      assert (before + after)[0] == before[0];
      assert (before + after)[1..] == before[1..] + after;
      SkippedEntryIrrelevant(fs, home, before[1..], dir, after, cmd);
    }
  }

  /** Soundness of `resolve_command`: a returned path is the canonical form of
      a regular executable file under a canonical trusted directory; for a bare
      name that file is `dir/cmd` for an absolute `PATH` entry `dir` that is
      not writable by group or others. */
  lemma ResolveSound(env: Env, fs: FileSystem, cmd: string, r: CanonPath)
    requires Resolve(env, fs, cmd) == Some(r)
    ensures IsAbsolute(cmd) ==> TrustedExecutable(fs, env.home, cmd, r)
    ensures !IsAbsolute(cmd) ==>
              env.path.Some? &&
              exists dir :: dir in Split(env.path.value, PathListSeparator) &&
                            IsAbsolute(dir) && !DirWorldWritable(fs, dir) &&
                            TrustedExecutable(fs, env.home, Join(dir, cmd), r)
  {
    if IsAbsolute(cmd) {
      CandidateIsTrusted(fs, env.home, cmd);
    } else {
      var dirs := Split(env.path.value, PathListSeparator);
      SearchWitness(fs, env.home, dirs, cmd);
      var i :| 0 <= i < |dirs| && SegmentAccepted(fs, env.home, dirs[i], cmd) &&
               Search(fs, env.home, dirs, cmd) == Some(fs.canon[Join(dirs[i], cmd)]);
      CandidateIsTrusted(fs, env.home, Join(dirs[i], cmd));
      assert dirs[i] in dirs;
    }
  }

  /** A bare name resolves to the canonical `dir/cmd` of the first accepted
      `PATH` entry `dir`; `PATH` order is the tie-break. */
  lemma ResolveFirstEntry(env: Env, fs: FileSystem, cmd: string, i: nat)
    requires !IsAbsolute(cmd) && env.path.Some?
    requires i < |Split(env.path.value, PathListSeparator)|
    requires SegmentAccepted(fs, env.home, Split(env.path.value, PathListSeparator)[i], cmd)
    requires forall j :: 0 <= j < i ==> !SegmentAccepted(fs, env.home, Split(env.path.value, PathListSeparator)[j], cmd)
    ensures Resolve(env, fs, cmd) == Some(fs.canon[Join(Split(env.path.value, PathListSeparator)[i], cmd)])
  {
    SearchPicksFirst(fs, env.home, Split(env.path.value, PathListSeparator), cmd, i);
  }

  /** A bare name is refused exactly when `PATH` is unset or none of its
      entries is accepted. */
  lemma ResolveBareNameRefused(env: Env, fs: FileSystem, cmd: string)
    requires !IsAbsolute(cmd)
    ensures Resolve(env, fs, cmd) == None <==>
              (env.path.None? ||
               forall dir :: dir in Split(env.path.value, PathListSeparator) ==> !SegmentAccepted(fs, env.home, dir, cmd))
  {
    if env.path.Some? {
      var dirs := Split(env.path.value, PathListSeparator);
      SearchNoneIffNoneAccepted(fs, env.home, dirs, cmd);
      assert forall dir :: dir in dirs <==> exists i :: 0 <= i < |dirs| && dirs[i] == dir;
    }
  }

  /** An absolute command passes straight to the gates: it resolves exactly
      when it has metadata, is a regular file, is executable and is in the
      allowlist, and then to its canonical form. */
  lemma ResolveAbsolute(env: Env, fs: FileSystem, cmd: string)
    requires IsAbsolute(cmd)
    ensures Resolve(env, fs, cmd).Some? <==>
              cmd in fs.meta && fs.meta[cmd].isFile && IsExecutable(fs.meta[cmd]) && Allowed(fs, env.home, cmd)
    ensures Resolve(env, fs, cmd).Some? ==> Resolve(env, fs, cmd) == Some(fs.canon[cmd])
  {
  }

  /** An absolute command consults neither `PATH` nor the metadata of any
      other path (no directory writability check): snapshots that agree on
      the command's own metadata and on canonicalisation give the same answer. */
  lemma ResolveAbsoluteFrame(env1: Env, fs1: FileSystem, env2: Env, fs2: FileSystem, cmd: string)
    requires IsAbsolute(cmd)
    requires env1.home == env2.home && fs1.canon == fs2.canon
    requires cmd in fs1.meta <==> cmd in fs2.meta
    requires cmd in fs1.meta ==> fs1.meta[cmd] == fs2.meta[cmd]
    ensures Resolve(env1, fs1, cmd) == Resolve(env2, fs2, cmd)
  {
    assert Allowed(fs1, env1.home, cmd) == Allowed(fs2, env2.home, cmd) by {
      assert forall base :: BaseCovers(fs1, base, cmd) == BaseCovers(fs2, base, cmd);
    }
  }

  /** A bare name with `PATH` unset is refused. */
  lemma RelativeWithoutPathRefused(home: Option<string>, fs: FileSystem, cmd: string)
    requires !IsAbsolute(cmd)
    ensures Resolve(Env(home, None), fs, cmd) == None
  {
  }

  /** Setting `HOME` only widens the allowlist. */
  lemma AllowedGrowsWithHome(fs: FileSystem, home: string, path: string)
    requires Allowed(fs, None, path)
    ensures Allowed(fs, Some(home), path)
  {
    var k :| 0 <= k < |AllowedBins(None)| && BaseCovers(fs, AllowedBins(None)[k], path);
    assert AllowedBins(Some(home))[k] == AllowedBins(None)[k];
  }
}
