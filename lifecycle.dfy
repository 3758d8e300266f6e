/** The environment lifecycle manager of guv over an abstract filesystem.

    The store holds what the program can observe of `<home>/.guv`: whether the
    environment root exists, its directory entries (the environments) and its
    other entries, which environments hold the platform's activation script,
    whether the freeze manifest exists, and the log of command lines handed to
    the shell. The `uv` tool is an oracle `uv`: `uv(cmd)` is true when the
    command line `cmd` exits with status 0. */
module Lifecycle {
  import opened Paths
  import Cli

  /** The filesystem part of the store, as one value. */
  datatype FsState = FsState(
    rootExists: bool,
    envs: set<string>,
    files: set<string>,
    scripts: set<string>,
    tempExists: bool)

  /** A directory's entries are either directories or not; activation scripts
      live only inside environments; an absent root has no entries. */
  predicate WellFormed(rootExists: bool, envs: set<string>, files: set<string>, scripts: set<string>) {
    && scripts <= envs
    && envs !! files
    && (!rootExists ==> envs == {} && files == {})
  }

  predicate Distinct<T(==)>(s: seq<T>) {
    forall i, j :: 0 <= i < j < |s| ==> s[i] != s[j]
  }

  // ---------------------------------------------------------------------------
  // Outcomes: the message each operation reports

  datatype MakeOutcome =
    | UvMissing
    | AlreadyExists(name: string)
    | Created(path: string)        // "Creating venv at ..."
    | CreateFailed(path: string)   // ... followed by "Failed to create virtual environment."

  datatype ResetOutcome =
    | NothingToReset               // --all with no environment root
    | DeletedAll(names: seq<string>)
    | NotFound(name: string)
    | Deleted(name: string)

  datatype ActivateOutcome =
    | NoActivateScript(script: string)
    | Instructions(name: string, hint: string)

  datatype CloneOutcome =
    | CloneUvMissing
    | SourceMissing(src: string)
    | DestinationExists(dest: string)
    | Cloned(src: string, dest: string)

  /** One item of the listing. */
  datatype ListLine =
    | Entry(name: string, hint: string)
    | NoEnvironmentsDirectory(path: string)
    | NoEnvironmentsFound

  /** The listing item of environment `name`. */
  function EntryFor(p: Platform, home: string, name: string): ListLine {
    Entry(name, ActivationHint(p, ScriptPath(p, IterPath(p, EnvsPath(home), name))))
  }

  /** `lines` lists each of `names` once and nothing else, in some order. */
  ghost predicate ListsExactly(p: Platform, home: string, lines: seq<ListLine>, names: set<string>) {
    && |lines| == |names|
    && (forall i :: 0 <= i < |lines| ==>
          lines[i].Entry? && lines[i].name in names && lines[i] == EntryFor(p, home, lines[i].name))
    && Distinct(lines)
    && (forall n :: n in names ==> EntryFor(p, home, n) in lines)
  }

  /** Listing one more, new name keeps the listing exact. */
  lemma ListsExactlyExtend(p: Platform, home: string, lines: seq<ListLine>, names: set<string>, n: string)
    requires ListsExactly(p, home, lines, names) && n !in names
    ensures ListsExactly(p, home, lines + [EntryFor(p, home, n)], names + {n})
  {
    var more := lines + [EntryFor(p, home, n)];
    assert |names + {n}| == |names| + 1;
    forall i, j | 0 <= i < j < |more| ensures more[i] != more[j] {
      if j == |lines| {
        assert more[i].name in names;
      }
    }
    forall m | m in names + {n} ensures EntryFor(p, home, m) in more {
      if m in names {
        var k :| 0 <= k < |lines| && lines[k] == EntryFor(p, home, m);
        assert more[k] == lines[k];
      } else {
        assert more[|lines|] == EntryFor(p, home, m);
      }
    }
  }

  /** What the enumeration of the root has established so far: the entries
      not yet visited are `remaining`, the directories visited are `seen`, and
      `lines` lists exactly those. */
  ghost predicate ScanInvariant(p: Platform, home: string, envs: set<string>, files: set<string>,
                                remaining: set<string>, seen: set<string>, lines: seq<ListLine>, found: bool)
  {
    && remaining <= envs + files
    && seen == envs - remaining
    && (found <==> lines != [])
    && ListsExactly(p, home, lines, seen)
  }

  /** Visiting one more entry keeps the enumeration invariant: a directory is
      listed, anything else is skipped. */
  lemma ScanStep(p: Platform, home: string, envs: set<string>, files: set<string>,
                 remaining: set<string>, seen: set<string>, lines: seq<ListLine>, found: bool, entry: string)
    requires ScanInvariant(p, home, envs, files, remaining, seen, lines, found) && entry in remaining
    ensures entry in envs ==>
              ScanInvariant(p, home, envs, files, remaining - {entry}, seen + {entry},
                            lines + [EntryFor(p, home, entry)], true)
    ensures entry !in envs ==>
              ScanInvariant(p, home, envs, files, remaining - {entry}, seen, lines, found)
  {
    if entry in envs {
      ListsExactlyExtend(p, home, lines, seen, entry);
    }
  }

  /** In a sequence without repetitions every element occurs once. */
  lemma {:induction false} DistinctOccursOnce<T>(s: seq<T>, x: T)
    requires Distinct(s)
    ensures multiset(s)[x] == if x in s then 1 else 0
  {
    if s != [] {
      assert s == [s[0]] + s[1..];
      assert Distinct(s[1..]);
      DistinctOccursOnce(s[1..], x);
      assert s[0] !in s[1..];
    }
  }

  /** Two exact listings of the same names differ at most in their order:
      listing an unchanged root twice yields the same items. */
  lemma ListingsAgree(p: Platform, home: string, a: seq<ListLine>, b: seq<ListLine>, names: set<string>)
    requires ListsExactly(p, home, a, names) && ListsExactly(p, home, b, names)
    ensures multiset(a) == multiset(b)
  {
    forall x ensures multiset(a)[x] == multiset(b)[x] {
      DistinctOccursOnce(a, x);
      DistinctOccursOnce(b, x);
      if x in a {
        var i :| 0 <= i < |a| && a[i] == x;
        assert EntryFor(p, home, x.name) in b;
      }
      if x in b {
        var i :| 0 <= i < |b| && b[i] == x;
        assert EntryFor(p, home, x.name) in a;
      }
    }
  }

  /** The operands of a command are names the model speaks about. */
  predicate OperandsValid(c: Cli.Command) {
    match c
    case MakeVenv(n) => ValidName(n) && DoubleQuoteSafe(n)
    case Clone(s, d) => ValidName(s) && BareWord(s) && ValidName(d) && BareWord(d)
    case Reset(t) => t == "--all" || ValidName(t)
    case Activate(n) => ValidName(n)
    case _ => true
  }

  class EnvStore {
    const platform: Platform
    const home: string

    var rootExists: bool
    var envs: set<string>
    var files: set<string>
    var scripts: set<string>
    var tempExists: bool
    var log: seq<string>

    ghost predicate Valid()
      reads this
    {
      WellFormed(rootExists, envs, files, scripts)
    }

    ghost function Fs(): FsState
      reads this
    {
      FsState(rootExists, envs, files, scripts, tempExists)
    }

    /** `fs::exists(ENVS_PATH + "/" + name)`: any entry of the root counts. */
    predicate Exists(name: string)
      reads this
    {
      name in envs || name in files
    }

    function Root(): string { EnvsPath(home) }

    constructor (platform: Platform, home: string, rootExists: bool, envs: set<string>,
                 files: set<string>, scripts: set<string>, tempExists: bool)
      requires WellFormed(rootExists, envs, files, scripts)
      ensures Valid()
      ensures this.platform == platform && this.home == home
      ensures Fs() == FsState(rootExists, envs, files, scripts, tempExists)
      ensures log == []
    {
      this.platform, this.home := platform, home;
      this.rootExists, this.envs, this.files, this.scripts := rootExists, envs, files, scripts;
      this.tempExists, this.log := tempExists, [];
    }

    /** Runs the probe for `uv`; true when it is on the search path. */
    method UvExists(uv: string -> bool) returns (ok: bool)
      modifies this`log
      ensures ok == uv(ProbeCommand(platform))
      ensures log == old(log) + [ProbeCommand(platform)]
    {
      var probe := ProbeCommand(platform);
      log := log + [probe];
      ok := uv(probe);
    }

    /** `guv venv <name>`. */
    method MakeVenv(name: string, uv: string -> bool) returns (outcome: MakeOutcome)
      requires Valid() && ValidName(name) && DoubleQuoteSafe(name)
      modifies this
      ensures Valid()
      ensures !uv(ProbeCommand(platform)) ==>
                outcome == UvMissing && Fs() == old(Fs()) && log == old(log) + [ProbeCommand(platform)]
      ensures uv(ProbeCommand(platform)) && old(Exists(name)) ==>
                outcome == AlreadyExists(name) && Fs() == old(Fs()) &&
                log == old(log) + [ProbeCommand(platform)]
      ensures uv(ProbeCommand(platform)) && !old(Exists(name)) ==>
                var path := EnvPath(Root(), name);
                var made := uv(VenvCommand(path));
                && log == old(log) + [ProbeCommand(platform), VenvCommand(path)]
                && rootExists
                && envs == old(envs) + (if made then {name} else {})
                && scripts == old(scripts) + (if made then {name} else {})
                && files == old(files) && tempExists == old(tempExists)
                && outcome == (if made then Created(path) else CreateFailed(path))
    {
      var available := UvExists(uv);
      if !available {
        return UvMissing;
      }
      var envPath := EnvPath(Root(), name);
      if Exists(name) {
        return AlreadyExists(name);
      }
      rootExists := true;
      var cmd := VenvCommand(envPath);
      log := log + [cmd];
      if uv(cmd) {
        envs := envs + {name};
        scripts := scripts + {name};
        outcome := Created(envPath);
      } else {
        outcome := CreateFailed(envPath);
      }
    }

    /** `guv reset <name>` and `guv reset --all`. */
    method ResetEnv(arg: string) returns (outcome: ResetOutcome)
      requires Valid() && (arg == "--all" || ValidName(arg))
      modifies this
      ensures Valid()
      ensures log == old(log) && rootExists == old(rootExists) && tempExists == old(tempExists)
      ensures arg == "--all" && !old(rootExists) ==> outcome == NothingToReset && Fs() == old(Fs())
      ensures arg == "--all" && old(rootExists) ==>
                && envs == {} && scripts == {} && files == old(files)
                && outcome.DeletedAll? && Distinct(outcome.names)
                && (forall n :: n in outcome.names <==> n in old(envs))
      ensures arg != "--all" && !old(Exists(arg)) ==> outcome == NotFound(arg) && Fs() == old(Fs())
      ensures arg != "--all" && old(Exists(arg)) ==>
                && outcome == Deleted(arg) && !Exists(arg)
                && envs == old(envs) - {arg} && files == old(files) - {arg}
                && scripts == old(scripts) - {arg}
    {
      if arg == "--all" {
        if !rootExists {
          return NothingToReset;
        }
        var remaining := envs + files;
        var deleted: seq<string> := [];
        while remaining != {}
          invariant Valid()
          invariant remaining <= old(envs) + old(files)
          invariant envs == old(envs) * remaining && scripts == old(scripts) * remaining
          invariant files == old(files)
          invariant log == old(log) && rootExists && tempExists == old(tempExists)
          invariant Distinct(deleted)
          invariant forall n :: n in deleted <==> n in old(envs) - remaining
          decreases remaining
        {
          var entry :| entry in remaining;
          if entry in envs {
            assert entry !in deleted;
            envs := envs - {entry};
            scripts := scripts - {entry};
            deleted := deleted + [entry];
          }
          remaining := remaining - {entry};
        }
        outcome := DeletedAll(deleted);
      } else {
        if !Exists(arg) {
          return NotFound(arg);
        }
        envs := envs - {arg};
        files := files - {arg};
        scripts := scripts - {arg};
        outcome := Deleted(arg);
      }
    }

    /** `guv activate <name>`: shows the instruction only when the activation
        script itself exists; never changes anything. */
    method ActivateEnv(name: string) returns (outcome: ActivateOutcome)
      requires Valid() && ValidName(name)
      ensures outcome.Instructions? <==> name in scripts
      ensures var script := ScriptPath(platform, EnvPath(Root(), name));
              outcome == if name in scripts then Instructions(name, ActivationHint(platform, script))
                         else NoActivateScript(script)
    {
      var script := ScriptPath(platform, EnvPath(Root(), name));
      if name !in scripts {
        return NoActivateScript(script);
      }
      outcome := Instructions(name, ActivationHint(platform, script));
    }

    /** `guv clone <src> <dest>`: freeze, create, install, then remove the
        manifest, each attempted whatever the previous step returned. */
    method CloneEnv(src: string, dest: string, uv: string -> bool) returns (outcome: CloneOutcome)
      requires Valid() && ValidName(src) && BareWord(src) && ValidName(dest) && BareWord(dest)
      modifies this
      ensures Valid()
      ensures !uv(ProbeCommand(platform)) ==>
                outcome == CloneUvMissing && Fs() == old(Fs()) && log == old(log) + [ProbeCommand(platform)]
      ensures uv(ProbeCommand(platform)) && !old(Exists(src)) ==>
                outcome == SourceMissing(src) && Fs() == old(Fs()) && log == old(log) + [ProbeCommand(platform)]
      ensures uv(ProbeCommand(platform)) && old(Exists(src)) && old(Exists(dest)) ==>
                outcome == DestinationExists(dest) && Fs() == old(Fs()) &&
                log == old(log) + [ProbeCommand(platform)]
      ensures uv(ProbeCommand(platform)) && old(Exists(src)) && !old(Exists(dest)) ==>
                var srcPath, dstPath, temp := EnvPath(Root(), src), EnvPath(Root(), dest), TempFile(home);
                var made := uv(VenvCommand(dstPath));
                && log == old(log) + [ProbeCommand(platform), FreezeCommand(platform, srcPath, temp),
                                      VenvCommand(dstPath), InstallCommand(platform, dstPath, temp)]
                && outcome == Cloned(src, dest)
                && !tempExists
                && rootExists == old(rootExists) && files == old(files)
                && envs == old(envs) + (if made then {dest} else {})
                && scripts == old(scripts) + (if made then {dest} else {})
    {
      var available := UvExists(uv);
      if !available {
        return CloneUvMissing;
      }
      if !Exists(src) {
        return SourceMissing(src);
      }
      if Exists(dest) {
        return DestinationExists(dest);
      }
      CopyPackages(src, dest, uv);
      outcome := Cloned(src, dest);
    }

    /** The steps of a clone once its guards hold: freeze, create, install,
        then remove the manifest, each attempted whatever the previous step
        returned. */
    method CopyPackages(src: string, dest: string, uv: string -> bool)
      requires Valid() && rootExists && dest !in envs + files
      modifies this
      ensures Valid()
      ensures var srcPath, dstPath, temp := EnvPath(Root(), src), EnvPath(Root(), dest), TempFile(home);
              log == old(log) + [FreezeCommand(platform, srcPath, temp), VenvCommand(dstPath),
                                 InstallCommand(platform, dstPath, temp)]
      ensures var added := if uv(VenvCommand(EnvPath(Root(), dest))) then {dest} else {};
              Fs() == FsState(old(rootExists), old(envs) + added, old(files), old(scripts) + added, false)
    {
      var srcPath := EnvPath(Root(), src);
      var dstPath := EnvPath(Root(), dest);
      var temp := TempFile(home);
      var freezeCmd := FreezeCommand(platform, srcPath, temp);
      var venvCmd := VenvCommand(dstPath);
      var installCmd := InstallCommand(platform, dstPath, temp);

      log := log + [freezeCmd];
      if uv(freezeCmd) {
        tempExists := true;
      }
      log := log + [venvCmd];
      if uv(venvCmd) {
        envs := envs + {dest};
        scripts := scripts + {dest};
      }
      log := log + [installCmd];
      tempExists := false;
    }

    /** `guv list`: one item per directory of the root, in the (unspecified)
        order the directory is enumerated; never changes anything. */
    method ListEnvs() returns (lines: seq<ListLine>)
      requires Valid()
      ensures !rootExists ==> lines == [NoEnvironmentsDirectory(Root())]
      ensures rootExists ==> (envs == {} <==> lines == [NoEnvironmentsFound])
      ensures rootExists && envs != {} ==> ListsExactly(platform, home, lines, envs)
    {
      if !rootExists {
        return [NoEnvironmentsDirectory(Root())];
      }
      var found;
      lines, found := ScanRoot();
      if !found {
        lines := lines + [NoEnvironmentsFound];
      }
    }

    /** The enumeration of the root inside `guv list`: an item for each entry
        that is a directory, and whether there was one. */
    method ScanRoot() returns (lines: seq<ListLine>, found: bool)
      requires Valid() && rootExists
      ensures ListsExactly(platform, home, lines, envs)
      ensures found <==> envs != {}
    {
      found := false;
      var remaining := envs + files;
      lines := [];
      ghost var seen: set<string> := {};
      while remaining != {}
        invariant ScanInvariant(platform, home, envs, files, remaining, seen, lines, found)
        decreases remaining
      {
        var entry :| entry in remaining;
        ScanStep(platform, home, envs, files, remaining, seen, lines, found, entry);
        if entry in envs {
          lines := lines + [EntryFor(platform, home, entry)];
          seen := seen + {entry};
          found := true;
        }
        remaining := remaining - {entry};
      }
    }

    /** The program: dispatch the arguments, perform the command, exit with 0. */
    method Run(args: seq<string>, uv: string -> bool) returns (exitCode: int)
      requires Valid() && OperandsValid(Cli.Dispatch(args))
      modifies this
      ensures Valid()
      ensures exitCode == 0
      ensures !(Cli.Dispatch(args).MakeVenv? || Cli.Dispatch(args).Clone? || Cli.Dispatch(args).Reset?) ==>
                Fs() == old(Fs()) && log == old(log)
    {
      var cmd := Cli.Dispatch(args);
      match cmd {
        case MakeVenv(name) =>
          var _ := MakeVenv(name, uv);
        case Clone(src, dest) =>
          var _ := CloneEnv(src, dest, uv);
        case Reset(target) =>
          var _ := ResetEnv(target);
        case Activate(name) =>
          var _ := ActivateEnv(name);
        case List =>
          var _ := ListEnvs();
        case _ =>
      }
      exitCode := 0;
    }
  }
}
