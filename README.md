# guv environment lifecycle, modelled in Dafny

guv is a small command-line manager for Python virtual environments kept under
one per-user directory, `<home>/.guv/envs`, and created through the external
`uv` tool. This project models its environment lifecycle — `venv`, `clone`,
`reset` (one name or `--all`), `activate` and `list` — together with the path
and command-line construction these operations use and the dispatch table of the
command line, and proves what each operation does to the environment root and
which commands it hands to the shell.

Structure:

- `paths.dfy`, module `Paths`: the platform adapter. It holds the environment
  root, environment paths, activation-script suffixes, the activation hint, the
  `uv` probe and the `venv`, freeze and install command lines. Each builder has a
  decoder beside it, and round-trip lemmas show that a built path or command gives
  back the name it was built from. Further lemmas show that the four kinds of
  command line never coincide.
- `shell.dfy`, module `Shell`: how the POSIX shell reads the path argument of
  the `uv venv` command line. It shows where the unescaped command goes wrong
  and gives an escaped command with its round trip.
- `cli.dfy`, module `Cli`: `Dispatch`, the decision table from the argument
  vector to a `Command`, checked against a reference table of argument counts.
- `lifecycle.dfy`, module `Lifecycle`: the class `EnvStore`, an abstract
  filesystem with a log of shell commands. Its methods are the lifecycle
  operations, plus `Run`, which is the program's `run` and `main`.
- `scenarios.dfy`, module `Scenarios`: client methods. Each builds a fresh
  store, runs a sequence of invocations, and states what the operations'
  contracts guarantee for that sequence.

The filesystem is abstract. `EnvStore` records:

- whether the root exists;
- its directory entries (`envs`) and its other entries (`files`);
- which environments contain the platform's activation script (`scripts`);
- whether the freeze manifest `<home>/.guv/temp.txt` exists;
- the sequence of command lines given to `std::system`.

The `uv` tool is an oracle, a parameter `uv: string -> bool`. `uv(cmd)` is true
when the command line `cmd` exits with status 0. A successful `uv venv` creates
the environment directory and its activation script. A failed one creates
nothing. The home directory and the platform are parameters of the store.

A few things the code does that a reader might not expect, all of them modelled:

- `fs::exists(ENVS_PATH + "/" + name)` is also true for a root entry that is not
  a directory. So `venv` reports "already exists" for such a name, `clone`
  accepts it as a source and refuses it as a destination, and `reset <name>`
  removes it.
- The `uv` probe (`which uv` / `where uv`) is itself a shell command, so it is
  the first entry the log gets from `venv` and from `clone`.
- `list` prints paths built by `std::filesystem` from the directory iterator.
  These paths join the root and the entry name with the platform's preferred
  separator, a backslash on Windows. `activate` and `clone` build their paths
  with `"/"`. `Paths.IterPath` captures this.
- On Windows, `clone`'s shell commands source `Scripts/activate`. `list` and
  `activate` use `Scripts/Activate.ps1`.

The path and command builders of `Paths` are the source's string
expressions. `GuvHome`, `EnvsPath` and `TempFile` are lines 16-17 and 162.
`EnvPath` is `ENVS_PATH + "/" + name` at lines 96, 124 and 160-161.
`IterPath` is `entry.path()` at line 72. `ActivateSuffix` and `ScriptPath` are
lines 72-73 and 135-136. `ActivationHint` is the hint printed at lines 76-78
and 145-147. `ProbeCommand` is lines 28-30. `VenvCommand` is lines 103 and 178.
`CloneActivateSuffix`, `FreezeCommand` and `InstallCommand` are lines 173-182.
`Lifecycle.EntryFor` is one item of the listing, lines 69-79.
`Lifecycle.EnvStore.Exists` is the `fs::exists(ENVS_PATH + "/" + name)` test
at lines 97, 125, 164 and 168. The rows below name the lemmas and methods whose
contracts state what these builders guarantee.

## Model

| member | source | states |
|---|---|---|
| `Paths.EnvPathRoundTrip` | guv_0.2.1.cpp:96 | the name is recovered from `ENVS_PATH + "/" + name` by stripping `root + "/"` |
| `Paths.EnvPathInjective` | guv_0.2.1.cpp:160-161 | two names have the same environment path if and only if they are equal, so source and destination paths of a clone differ whenever the names do |
| `Paths.TempFileOutsideRoot` | guv_0.2.1.cpp:162 | the manifest `GUV_HOME + "/temp.txt"` is neither the environment root nor any environment path, so removing it never touches an environment |
| `Paths.IterPath` | guv_0.2.1.cpp:72-73 | the path of a listed entry equals `root + "/" + name` on POSIX and differs from it on Windows |
| `Paths.CloneActivateSuffix` | guv_0.2.1.cpp:173 | clone's activation suffix is the one list and activate use exactly on POSIX (`/bin/activate`); on Windows `/Scripts/activate` differs from `/Scripts/Activate.ps1` |
| `Paths.ActivationHintRoundTrip` | guv_0.2.1.cpp:76-78 | the activation hint printed by list and activate sources exactly the script it was built for, on both platforms |
| `Paths.VenvRoundTrip` | guv_0.2.1.cpp:178 | the text between the quotes of `uv venv "<path>"` is exactly the path it was built for |
| `Shell.VenvCommandLiteral` | guv_0.2.1.cpp:103 | the shell hands `uv` exactly the path of `uv venv "<path>"` when the path holds no double quote, backslash, `$` or backquote |
| `Shell.VenvCommandDropsQuotes` | guv_0.2.1.cpp:103 | for the name `a"b"` the command as written makes `uv` create `<root>/ab`, which is not the environment's path |
| `Shell.VenvCommandSubstitutes` | guv_0.2.1.cpp:103 | for the name `$(touch pwn)` the shell reaches an unescaped `$` inside the quotes: the argument of the command as written begins an expansion rather than being literal text |
| `Shell.QuotedVenvRoundTrip` | guv_0.2.1.cpp:103 | with the path escaped, the shell hands `uv` exactly the path, whatever characters it holds |
| `Shell.QuotedVenvAgrees` | guv_0.2.1.cpp:178 | on a path without those four characters, the escaped command is the command as written |
| `Shell.AdmittedNamesInert` | guv_0.2.1.cpp:103 | every name `venv` admits (also free of `%`, for cmd.exe) and every name `clone` admits is free of those four characters |
| `Paths.ChainRoundTrip` | guv_0.2.1.cpp:174-182 | a one-shot shell chain (`bash -c 'source …'` / `cmd /c "…"`) built for an environment's clone script gives back that environment's name |
| `Paths.FreezeRoundTrip` | guv_0.2.1.cpp:173-176 | the freeze command activates the source environment and no other |
| `Paths.InstallRoundTrip` | guv_0.2.1.cpp:179-182 | the install command activates the destination environment and no other |
| `Paths.ProbeIsNoOtherCommand` | guv_0.2.1.cpp:26-31 | the probe command line never equals a venv, freeze or install command |
| `Paths.VenvIsNoShellChain` | guv_0.2.1.cpp:178 | a venv command never equals a freeze or install command |
| `Paths.FreezeIsNoInstall` | guv_0.2.1.cpp:174-182 | no freeze command equals an install command, whatever the paths |
| `Cli.Dispatch` | guv_0.2.1.cpp:198-226 | fewer than 2 arguments shows help. Otherwise the result is `Unknown` exactly when the verb is unrecognised or has fewer arguments than the reference table requires (venv, reset, activate: 3; clone: 4). Any other result is the command the verb names, with the arguments after the verb as its operands |
| `Cli.DispatchIgnoresExtraArguments` | guv_0.2.1.cpp:204-213 | the command depends neither on the program name nor on arguments beyond those the verb takes |
| `Cli.PrintsHelpExactly` | guv_0.2.1.cpp:199-225 | usage is printed exactly for no verb, a help verb, an unknown verb or a verb missing its operands |
| `Lifecycle.ListsExactlyExtend` | guv_0.2.1.cpp:68-81 | listing one more directory that was not yet listed keeps the listing exact: one item per directory, no repeats |
| `Lifecycle.ScanStep` | guv_0.2.1.cpp:67-83 | visiting one directory entry keeps the enumeration invariant; a directory is listed and sets `found`, any other entry is skipped |
| `Lifecycle.ListingsAgree` | guv_0.2.1.cpp:66-83 | two exact listings of the same root hold the same items, differing at most in order |
| `Lifecycle.DistinctOccursOnce` | guv_0.2.1.cpp:67-83 | in a listing without repeats, each item occurs exactly once |
| `Lifecycle.EnvStore.UvExists` | guv_0.2.1.cpp:26-31 | the probe is appended to the command log and its exit status is the answer |
| `Lifecycle.EnvStore.MakeVenv` | guv_0.2.1.cpp:90-107 | if `uv` is missing, or an entry of that name already exists, only the probe is logged and the filesystem is unchanged. Otherwise the root is created and exactly one `uv venv "<root>/<name>"` is logged. The environment and its script exist afterwards exactly when that command succeeds, and nothing else changes |
| `Lifecycle.EnvStore.ResetEnv` | guv_0.2.1.cpp:110-132 | `--all` with no root changes nothing. `--all` otherwise removes every directory and keeps every non-directory entry, reporting each removed name once. A missing name changes nothing. An existing name is removed, and every other entry is unchanged. No command is issued |
| `Lifecycle.EnvStore.ActivateEnv` | guv_0.2.1.cpp:134-149 | the instructions are produced if and only if the activation script exists, not merely the directory. They name the platform script under `<root>/<name>`. Nothing changes |
| `Lifecycle.EnvStore.CloneEnv` | guv_0.2.1.cpp:154-195 | if `uv` is missing, the source is missing, or the destination exists, only the probe is logged and the filesystem is unchanged. Otherwise it logs probe, freeze(src), venv(dest) and install(dest), in that order. It removes the manifest and reports success whatever those commands returned |
| `Lifecycle.EnvStore.CopyPackages` | guv_0.2.1.cpp:173-193 | the freeze of `<root>/<src>`, the venv of `<root>/<dest>` and the install into `<root>/<dest>` are logged in that order. The destination exists afterwards exactly when its venv command succeeded, and the manifest is gone |
| `Lifecycle.EnvStore.ListEnvs` | guv_0.2.1.cpp:60-87 | with no root, the distinct "no environments directory" message. Otherwise "No environments found" exactly when there is no directory, and else exactly one item per directory with its activation hint. Nothing changes |
| `Lifecycle.EnvStore.ScanRoot` | guv_0.2.1.cpp:66-83 | the loop over the root lists every directory exactly once; `found` is true exactly when there is one |
| `Lifecycle.EnvStore.Run` | guv_0.2.1.cpp:198-231 | runs the dispatched operation and exits with 0 whenever no filesystem call throws. Every command other than venv, clone and reset leaves the filesystem and the command log unchanged |
| `Scenarios.AlphaLifecycle` | guv_0.2.1.cpp:90-132 | on an empty root with `uv` succeeding: after `venv alpha`, list shows alpha alone with its activation hint; after `reset alpha`, list shows "No environments found" |
| `Scenarios.CreateThenListAndActivate` | guv_0.2.1.cpp:134-149 | after a successful `venv name`, list shows the name exactly once and activate gives instructions |
| `Scenarios.ResetAllThenList` | guv_0.2.1.cpp:111-122 | after `reset --all`, list shows no environment |
| `Scenarios.ListTwice` | guv_0.2.1.cpp:66-86 | listing twice without a change in between shows the same items, in possibly different order |
| `Scenarios.CloneRefused` | guv_0.2.1.cpp:164-171 | a clone from a missing source or onto an existing destination issues only the probe and changes nothing |
| `Scenarios.CloneOrder` | guv_0.2.1.cpp:184-194 | an admitted clone logs the probe, then a freeze of src, a venv of dest and an install into dest, and reports success |

## Left out

- Process execution (`std::system`) and the behaviour of `uv` are foreign. They are the oracle `uv` plus the command log. A failed `uv venv` is modelled as creating nothing, although the real tool could leave a partial directory behind.
- Installed packages are not modelled. Freeze and install affect only the manifest flag and the log.
- The order of directory enumeration is unspecified. Listings are stated up to order, and the `--all` loop chooses entries in any order.
- Home resolution through `std::getenv` is not modelled. The home path is a parameter of the store. When the variable is unset, the source constructs a `std::string` from a null pointer, which is undefined.
- ANSI colours, the usage text, the install prompt and the exact console wording are not modelled. Each operation instead returns an outcome value naming the message it prints. `config` and `version` are modelled only as dispatched commands.
- The check-then-act race between concurrent invocations is concurrency, outside a sequential model.
- Windows file systems compare names without regard to case. The model compares names exactly.
- Every `std::filesystem` call is assumed to succeed. The source uses the throwing overloads of `fs::exists`, `fs::create_directories`, `fs::directory_iterator`, `fs::remove_all` and `fs::remove`, and catches nothing. A failure (`<home>/.guv` being a regular file, a root that exists but is not a directory, a permission error) ends the program through `std::terminate` with a non-zero status. The model has no such path.
- The home path is assumed to hold no character a shell interprets: quotes, `$`, backquote, `%`, whitespace, `;&|<>()` and the like. For such a home, the directory `uv venv` creates and the environments the clone commands activate differ from the paths the model names.
- cmd.exe's reading of the Windows command lines is not modelled. `Shell` describes the POSIX shell. Of cmd.exe's special characters, only `"` and `%` are excluded from venv names; clone names are restricted further, as stated below.
- Names are one directory entry of the root: non-empty, not `.` or `..`, no `/` and no `\`. The empty name stands for the root itself: `reset ""` finds `ENVS_PATH + "/"` and would hand the root to `fs::remove_all`, whose effect on a path with a trailing separator the model does not describe. `.` and `..` and names with `/` reach outside the entry. `\` is a separator on Windows; the model uses one name rule for both platforms, so POSIX names holding `\` are not described either.
- Lifecycle.EnvStore.MakeVenv: requires a plain entry name that is also free of `"`, `\`, `$`, backquote and `%`. A name with those is read by the shell rather than passed to `uv` unchanged (see Findings), so the model does not describe which directory is created or which command runs.
- Lifecycle.EnvStore.ResetEnv: requires `--all` or a plain entry name, so `reset ""` and path arguments are not described.
- Lifecycle.EnvStore.ActivateEnv: requires a plain entry name, so path arguments are not described.
- Lifecycle.EnvStore.CloneEnv: requires source and destination names made only of ASCII letters, digits and `-_.+@`. The freeze and install commands paste the activation path into `bash -c 'source …'` and `cmd /c "…"` without quotes. A name with a space, a quote or a shell operator is split there or runs another command, which the model does not describe.
- Lifecycle.EnvStore.Run: requires the dispatched operands to meet the requirements above. It does not return the printed messages and states the resulting state only for the commands that change nothing; venv, clone and reset are stated by their own methods. Its exit code 0 holds only because filesystem failures are left out, as stated above.

## Findings

| source | as written | input that shows it | evidently intended | confidence | as-written member | corrected member |
|---|---|---|---|---|---|---|
| guv_0.2.1.cpp:103 and 178 | `"uv venv \"" + envPath + "\""` puts the path between double quotes without escaping it, and `std::system` hands the string to the shell | name `a"b"`: `uv` creates `<root>/ab`; name `$(touch pwn)`: the argument begins an expansion at the unescaped `$` instead of being literal text (in the POSIX shell, `$(…)` is command substitution) | the path reaches `uv` as one argument, exactly as given | high for the POSIX shell, not executed | `Shell.VenvCommandDropsQuotes`, `Shell.VenvCommandSubstitutes` | `Shell.QuotedVenvCommand` with `Shell.QuotedVenvRoundTrip`; `Shell.QuotedVenvAgrees` shows it equals the command as written on every path free of `"`, `\`, `$` and backquote, which by `Shell.AdmittedNamesInert` includes every name `MakeVenv` and `CloneEnv` admit |
