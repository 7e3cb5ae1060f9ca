# term-launcher: verified model of command resolution

term-launcher is a keyboard-driven terminal menu that starts programs named in
a user's configuration. Its one security decision lives in `src/launcher.rs`:
`resolve_command` decides whether a command string may run and, if so, returns
a single canonical absolute path. This project models that engine in Dafny and
proves its safety promise: whatever it returns is the canonical form of a
regular, executable file that lies under the canonical form of a trusted
directory, and a bare name is only ever found through an absolute `PATH`
entry that neither its group nor others can write.

The model takes the environment and the filesystem as explicit values:

- `Launcher.Env` holds `HOME` and `PATH` (`None` when unset);
- `Launcher.FileSystem` is a snapshot with two maps, one answering
  `fs::metadata` (regular-file flag and the 32-bit mode) and one answering
  `fs::canonicalize`, per path string; a path missing from a map is a call
  that fails;
- canonical paths are sequences of names below the root (`Paths.CanonPath`),
  so `Path::starts_with` is a component-wise prefix test (`Paths.StartsWith`).

Files:

- `text_split.dfy` (module `TextSplit`): `str::split(char)` as a function, with
  its inverse and both round trips.
- `paths.dfy` (module `Paths`): `is_absolute`, `PathBuf::join` on unix,
  canonical paths, `starts_with`, and the theorem that a component-wise prefix
  is exactly a textual prefix that stops at a `/`.
- `launcher.dfy` (module `Launcher`): `allowed_bins`, `is_executable`,
  `dir_world_writable`, `is_allowed_path` (a method with a loop and an early
  return, proved equal to the allowlist predicate `Allowed`) and
  `resolve_command` (a method with a loop, `continue` skips and an early
  return, proved equal to the specification function `Resolve`).
- `properties.dfy` (module `LauncherProperties`): first match in `PATH` order,
  refusal exactly when nothing is accepted, irrelevance of skipped entries,
  soundness, and the behaviour of absolute commands.
- `scenarios.dfy` (module `LauncherScenarios`): concrete snapshots: a
  world-writable `/tmp` ahead of `/usr/bin`, a writable trusted directory as the
  only hit, a symbolic link out of `/usr/bin`, `/opt/custom/tool`, and
  `/usr/bin-evil/x`.

Where the project's design description and the code differ, the model
follows the code:

- `HOME` set to the empty string still adds a trusted directory, the relative
  path `.local/bin` (`LauncherScenarios.EmptyHomeAddsRelativeDir`); the design
  description adds it only for a non-empty `HOME`.
- The execute test accepts any of the owner, group and other execute bits
  (`LauncherScenarios.OtherExecuteBitSuffices`); the design description's
  invariant speaks of a file executable by its owner.
- `starts_with` also accepts a path equal to a trusted directory's canonical
  form, not only paths strictly below it.
- The design description's legacy fallback (splitting a command on whitespace
  into a program and leading arguments) and its argument vector do not exist
  in the code, so neither is modelled.

## Model

| member | source | states |
|---|---|---|
| `TextSplit.Split` | src/launcher.rs:67 | splitting `PATH` on `:` yields at least one piece and no piece contains `:` |
| `TextSplit.JoinSplit` | src/launcher.rs:67 | the pieces joined with the separator give back the original `PATH` string |
| `TextSplit.SplitJoin` | src/launcher.rs:67 | pieces free of the separator, once joined, split back into exactly those pieces |
| `Paths.Join` | src/launcher.rs:72 | joining keeps the directory as a prefix and, for a non-empty directory and a relative name, keeps its absoluteness; an absolute name replaces the directory |
| `Paths.JoinAppendsNames` | src/launcher.rs:72 | joining a relative name appends its names to the directory's names |
| `Paths.StartsWithIffBoundaryPrefix` | src/launcher.rs:47 | a component-wise prefix holds exactly when the canonical text is a prefix that ends at a `/` or at the end |
| `Launcher.UserBin` | src/launcher.rs:15 | `HOME` joined with `.local/bin` has the home names followed by `.local`, `bin`, is absolute exactly when a non-empty `HOME` is, and is `.local/bin` for an empty `HOME` |
| `Launcher.AllowedBins` | src/launcher.rs:8-18 | `/usr/bin`, `/usr/local/bin`, `/bin` in that order, all absolute, followed by the user directory exactly when `HOME` is set |
| `Launcher.IsExecutable` | src/launcher.rs:20-23 | true exactly when the owner, group or other execute bit is set |
| `Launcher.DirWorldWritable` | src/launcher.rs:30-38 | true exactly when metadata is unavailable or the group or other write bit is set |
| `Launcher.IsAllowedPath` | src/launcher.rs:43-54 | the loop answers true exactly when the path canonicalises and some trusted directory that canonicalises is a component prefix of it |
| `Launcher.ResolveCommand` | src/launcher.rs:56-82 | the resolver's answer equals the specification `Resolve`: the gates for an absolute command, refusal without `PATH`, the first accepted `PATH` entry otherwise |
| `LauncherProperties.CandidateIsTrusted` | src/launcher.rs:74-77 | a candidate passing the gates is a regular executable whose canonical form lies under a canonical trusted directory |
| `LauncherProperties.SearchPicksFirst` | src/launcher.rs:67-81 | the search returns the canonical candidate of the first accepted entry |
| `LauncherProperties.SearchNoneIffNoneAccepted` | src/launcher.rs:67-81 | the search refuses exactly when no entry is accepted |
| `LauncherProperties.SearchWitness` | src/launcher.rs:67-81 | a found path comes from an accepted entry with no accepted entry before it |
| `LauncherProperties.SkippedEntryIrrelevant` | src/launcher.rs:68-71 | inserting an empty, relative or group/world-writable entry anywhere in `PATH` never changes the result |
| `LauncherProperties.ResolveSound` | src/launcher.rs:56-82 | a returned path is the canonical form of a regular executable under a canonical trusted directory; for a bare name it came from an absolute, non-writable `PATH` entry |
| `LauncherProperties.ResolveFirstEntry` | src/launcher.rs:67-81 | a bare name resolves to the canonical `dir/cmd` of the first accepted `PATH` entry |
| `LauncherProperties.ResolveBareNameRefused` | src/launcher.rs:66-81 | a bare name is refused exactly when `PATH` is unset or no entry is accepted |
| `LauncherProperties.ResolveAbsolute` | src/launcher.rs:58-64 | an absolute command resolves exactly when it has metadata, is a regular file, is executable and is in the allowlist, and then to its canonical form |
| `LauncherProperties.ResolveAbsoluteFrame` | src/launcher.rs:58-64 | an absolute command's answer depends on neither `PATH` nor any other path's metadata, so no directory writability is checked |
| `LauncherProperties.RelativeWithoutPathRefused` | src/launcher.rs:66 | a bare name with `PATH` unset is refused |
| `LauncherProperties.AllowedGrowsWithHome` | src/launcher.rs:14-16 | setting `HOME` only adds to the allowlist |
| `LauncherScenarios.TmpEntryDoesNotShadow` | src/launcher.rs:71 | with `PATH=/tmp:/usr/bin` and a world-writable `/tmp` holding `ls`, `ls` resolves to `/usr/bin/ls` |
| `LauncherScenarios.WritableOnlyHitRefused` | src/launcher.rs:71 | when the only hit is in a writable `PATH` entry, even a trusted one, resolution fails |
| `LauncherScenarios.SymlinkOutOfTrustedDirRefused` | src/launcher.rs:44-47 | a link in `/usr/bin` pointing outside every trusted directory is refused by absolute path and by bare name |
| `LauncherScenarios.OutsideAbsoluteRefused` | src/launcher.rs:58-63 | `/opt/custom/tool` is refused whatever its mode and whatever `PATH` holds |
| `LauncherScenarios.SiblingDirectoryNotUnderBase` | src/launcher.rs:47 | `/usr/bin-evil/x` begins with the text `/usr/bin` but is not under it |
| `LauncherScenarios.EmptyHomeAddsRelativeDir` | src/launcher.rs:14-15 | an empty `HOME` adds the relative directory `.local/bin` |
| `LauncherScenarios.OtherExecuteBitSuffices` | src/launcher.rs:22 | a file with only the other-execute bit passes the execute test |

## Left out

- `src/main.rs` is not part of this model: configuration loading, TOML parsing,
  terminal raw mode and alternate screen, rendering, the key loop, cursor
  bounds and process spawning are terminal I/O and foreign calls. `main`
  launches the configured command directly and never calls `resolve_command`.
- `src/config.rs` is not part of this model: a plain record deserialised by a
  library, with no behaviour of its own.
- The non-unix variants of `is_executable` and `dir_world_writable`: the model
  fixes the platform to unix.
- Real filesystem semantics: `fs::metadata` and `fs::canonicalize` are maps over
  one snapshot, so symbolic-link resolution is whatever the snapshot says, and
  changes between the calls of one resolution (a check-then-use race, or a
  second `canonicalize` that fails after `is_allowed_path` succeeded) are not
  captured; in the snapshot the final `canonicalize` cannot fail once the
  allowlist test has passed.
- `env::var` failing on a value that is not valid Unicode is modelled as the
  variable being unset.
- `Paths.Names` keeps `.` pieces, whereas Rust's `Path::components` drops
  interior ones; it is used only to describe what `join` appends.
- Repeated calls agreeing on an unchanged snapshot needs no lemma: `Resolve` is
  a function of the environment, the snapshot and the command.
- The legacy whitespace-splitting fallback and the argument vector: no such
  code exists in the repository.
