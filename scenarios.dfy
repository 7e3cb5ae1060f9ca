/** Concrete situations the resolver is meant to get right, each proved on
    an explicit snapshot. Modes are written in hex: 0x3FF is `0o1777`,
    0x1FF is `0o777`, 0x1ED is `0o755`. */
module LauncherScenarios {
  import opened Optional
  import opened TextSplit
  import opened Paths
  import opened Launcher
  import opened LauncherProperties

  const Dir755: Meta := Meta(false, 0x1ED)
  const Exe755: Meta := Meta(true, 0x1ED)

  /** Canonical forms of the system directories on a conventional layout. */
  const SystemCanon: map<string, CanonPath> :=
    map["/usr/bin" := ["usr", "bin"], "/usr/local/bin" := ["usr", "local", "bin"], "/bin" := ["bin"]]

  /** Canonical paths that differ in their first name are not nested. */
  lemma DifferentFirstName(p: CanonPath, base: CanonPath)
    requires p != [] && base != [] && p[0] != [] && base[0] != [] && p[0][0] != base[0][0]
    ensures !StartsWith(p, base)
  {
    if |base| <= |p| {
      assert p[..|base|][0] != base[0];
    }
  }

  /** Without `HOME`, a path is in the allowlist only if one of the three
      system directories covers it. */
  lemma SystemBinsOnly(fs: FileSystem, path: string)
    requires !BaseCovers(fs, "/usr/bin", path)
    requires !BaseCovers(fs, "/usr/local/bin", path)
    requires !BaseCovers(fs, "/bin", path)
    ensures !Allowed(fs, None, path)
  {
    assert AllowedBins(None) == ["/usr/bin", "/usr/local/bin", "/bin"];
  }

  /** `/tmp` is world-writable and holds an executable `ls`; `/usr/bin/ls`
      is an ordinary executable. */
  const TmpShadow: FileSystem := FileSystem(
    map["/tmp" := Meta(false, 0x3FF), "/tmp/ls" := Exe755, "/usr/bin" := Dir755, "/usr/bin/ls" := Exe755],
    SystemCanon + map["/tmp/ls" := ["tmp", "ls"], "/usr/bin/ls" := ["usr", "bin", "ls"]])

  lemma TmpThenUsrBin()
    ensures Split("/tmp:/usr/bin", PathListSeparator) == ["/tmp", "/usr/bin"]
  {
    assert "/tmp:/usr/bin" == "/tmp" + [PathListSeparator] + "/usr/bin";
    SplitTwoPieces("/tmp", "/usr/bin", PathListSeparator);
  }

  lemma UsrBinLsAccepted(home: Option<string>)
    ensures SegmentAccepted(TmpShadow, home, "/usr/bin", "ls")
    ensures TmpShadow.canon[Join("/usr/bin", "ls")] == ["usr", "bin", "ls"]
  {
    assert Join("/usr/bin", "ls") == "/usr/bin/ls";
    assert TmpShadow.canon["/usr/bin/ls"] == ["usr", "bin", "ls"];
    assert TmpShadow.canon["/usr/bin"] == ["usr", "bin"];
    assert BaseCovers(TmpShadow, AllowedBins(home)[0], "/usr/bin/ls");
  }

  /** A two-entry `PATH` whose first entry is rejected resolves through the second. */
  lemma SecondEntryWins(env: Env, fs: FileSystem, cmd: string, first: string, second: string)
    requires !IsAbsolute(cmd) && env.path.Some?
    requires Split(env.path.value, PathListSeparator) == [first, second]
    requires !SegmentAccepted(fs, env.home, first, cmd) && SegmentAccepted(fs, env.home, second, cmd)
    ensures Resolve(env, fs, cmd) == Some(fs.canon[Join(second, cmd)])
  {
    ResolveFirstEntry(env, fs, cmd, 1);
  }

  /** With `PATH=/tmp:/usr/bin`, `ls` resolves to `/usr/bin/ls`. */
  lemma TmpEntryDoesNotShadow(home: Option<string>)
    ensures Resolve(Env(home, Some("/tmp:/usr/bin")), TmpShadow, "ls") == Some(["usr", "bin", "ls"])
  {
    TmpThenUsrBin();
    UsrBinLsAccepted(home);
    assert !SegmentAccepted(TmpShadow, home, "/tmp", "ls") by {
      assert DirWorldWritable(TmpShadow, "/tmp");
    }
    assert !IsAbsolute("ls");
    SecondEntryWins(Env(home, Some("/tmp:/usr/bin")), TmpShadow, "ls", "/tmp", "/usr/bin");
  }

  /** A misconfigured trusted directory that is world-writable is skipped even
      though it is in the allowlist. */
  const WritableLocal: FileSystem := FileSystem(
    map["/usr/local/bin" := Meta(false, 0x1FF), "/usr/local/bin/ls" := Exe755],
    SystemCanon + map["/usr/local/bin/ls" := ["usr", "local", "bin", "ls"]])

  /** When the only hit is in a writable `PATH` entry, the whole resolution
      fails rather than use it. */
  lemma WritableOnlyHitRefused(home: Option<string>)
    ensures Resolve(Env(home, Some("/usr/local/bin")), WritableLocal, "ls") == None
  {
    SplitNoSeparator("/usr/local/bin", PathListSeparator);
    assert !SegmentAccepted(WritableLocal, home, "/usr/local/bin", "ls") by {
      assert DirWorldWritable(WritableLocal, "/usr/local/bin");
    }
    assert !IsAbsolute("ls");
    ResolveBareNameRefused(Env(home, Some("/usr/local/bin")), WritableLocal, "ls");
  }

  /** A symbolic link inside `/usr/bin` that points to `/opt/evil`. */
  const SymlinkOut: FileSystem := FileSystem(
    map["/usr/bin" := Dir755, "/usr/bin/evil" := Exe755],
    SystemCanon + map["/usr/bin/evil" := ["opt", "evil"]])

  lemma SymlinkTargetNotAllowed()
    ensures !Allowed(SymlinkOut, None, "/usr/bin/evil")
  {
    assert SymlinkOut.canon["/usr/bin/evil"] == ["opt", "evil"];
    assert SymlinkOut.canon["/usr/bin"] == ["usr", "bin"];
    assert SymlinkOut.canon["/usr/local/bin"] == ["usr", "local", "bin"];
    assert SymlinkOut.canon["/bin"] == ["bin"];
    DifferentFirstName(["opt", "evil"], ["usr", "bin"]);
    DifferentFirstName(["opt", "evil"], ["bin"]);
    SystemBinsOnly(SymlinkOut, "/usr/bin/evil");
  }

  /** The allowlist is checked after symbolic links are resolved: the link is
      refused whether it is named by absolute path or found along `PATH`. */
  lemma SymlinkOutOfTrustedDirRefused()
    ensures Resolve(Env(None, Some("/usr/bin")), SymlinkOut, "/usr/bin/evil") == None
    ensures Resolve(Env(None, Some("/usr/bin")), SymlinkOut, "evil") == None
  {
    SymlinkAbsoluteRefused();
    SymlinkBareNameRefused();
  }

  lemma SymlinkAbsoluteRefused()
    ensures Resolve(Env(None, Some("/usr/bin")), SymlinkOut, "/usr/bin/evil") == None
  {
    assert !CandidateAccepted(SymlinkOut, None, "/usr/bin/evil") by {
      SymlinkTargetNotAllowed();
    }
  }

  lemma SymlinkEntryRejected()
    ensures !SegmentAccepted(SymlinkOut, None, "/usr/bin", "evil")
  {
    assert Join("/usr/bin", "evil") == "/usr/bin/evil";
    SymlinkTargetNotAllowed();
  }

  lemma SymlinkBareNameRefused()
    ensures Resolve(Env(None, Some("/usr/bin")), SymlinkOut, "evil") == None
  {
    assert Split("/usr/bin", PathListSeparator) == ["/usr/bin"] by {
      SplitNoSeparator("/usr/bin", PathListSeparator);
    }
    SymlinkEntryRejected();
    assert !IsAbsolute("evil");
    assert ["/usr/bin"][1..] == [];
    assert Search(SymlinkOut, None, [], "evil") == None;
  }

  /** An executable at `/opt/custom/tool`, outside every trusted directory. */
  function OptTool(mode: bv32): FileSystem {
    FileSystem(map["/opt/custom/tool" := Meta(true, mode)],
               SystemCanon + map["/opt/custom/tool" := ["opt", "custom", "tool"]])
  }

  /** An absolute path outside the trusted directories is refused whatever
      its permissions and whatever `PATH` says. */
  lemma OutsideAbsoluteRefused(path: Option<string>, mode: bv32)
    ensures Resolve(Env(None, path), OptTool(mode), "/opt/custom/tool") == None
  {
    var fs := OptTool(mode);
    assert fs.canon["/opt/custom/tool"] == ["opt", "custom", "tool"];
    assert fs.canon["/usr/bin"] == ["usr", "bin"];
    assert fs.canon["/usr/local/bin"] == ["usr", "local", "bin"];
    assert fs.canon["/bin"] == ["bin"];
    DifferentFirstName(["opt", "custom", "tool"], ["usr", "bin"]);
    DifferentFirstName(["opt", "custom", "tool"], ["bin"]);
    assert !BaseCovers(fs, "/usr/bin", "/opt/custom/tool");
    assert !BaseCovers(fs, "/usr/local/bin", "/opt/custom/tool");
    assert !BaseCovers(fs, "/bin", "/opt/custom/tool");
    SystemBinsOnly(fs, "/opt/custom/tool");
  }

  /** `/usr/bin-evil/x` starts with the text `/usr/bin` but does not lie
      under `/usr/bin`: the comparison is by components. */
  lemma SiblingDirectoryNotUnderBase()
    ensures Render(["usr", "bin-evil", "x"])[..|Render(["usr", "bin"])|] == Render(["usr", "bin"])
    ensures !StartsWith(["usr", "bin-evil", "x"], ["usr", "bin"])
    ensures !PrefixAtBoundary(Render(["usr", "bin-evil", "x"]), Render(["usr", "bin"]))
  {
    assert Render(["usr", "bin"]) == "/usr/bin";
    assert Render(["usr", "bin-evil", "x"]) == "/usr/bin-evil/x";
  }

  /** `HOME` set but empty still adds a trusted directory: the relative path
      `.local/bin`, which canonicalises against the working directory. */
  lemma EmptyHomeAddsRelativeDir()
    ensures AllowedBins(Some(""))[3] == ".local/bin"
    ensures !IsAbsolute(AllowedBins(Some(""))[3])
  {
  }

  /** The execute test accepts a file executable by others only, with the
      owner's execute bit clear. */
  lemma OtherExecuteBitSuffices()
    ensures IsExecutable(Meta(true, OtherExecute))
    ensures OtherExecute & OwnerExecute == 0
  {
  }
}
