/** Sequences of guv invocations and what their contracts guarantee about
    them, each run on a fresh store. */
module Scenarios {
  import opened Paths
  import opened Lifecycle

  /** An environment root that exists and is empty; `uv` always succeeds:
      `venv alpha`, `list`, `reset alpha`, `list`. The first listing shows
      alpha alone with its activation hint, the second shows that there are
      no environments. */
  method AlphaLifecycle(p: Platform, home: string) returns (first: seq<ListLine>, second: seq<ListLine>)
    ensures first == [EntryFor(p, home, "alpha")]
    ensures second == [NoEnvironmentsFound]
  {
    var store := new EnvStore(p, home, true, {}, {}, {}, false);
    var uv := (cmd: string) => true;
    var made := store.MakeVenv("alpha", uv);
    first := store.ListEnvs();
    assert first[0].name in {"alpha"};
    var reset := store.ResetEnv("alpha");
    second := store.ListEnvs();
  }

  /** After `venv name` succeeds on any store without that name, the listing
      shows the name exactly once and `activate name` gives instructions. */
  method CreateThenListAndActivate(p: Platform, home: string, rootExists: bool, envs: set<string>,
                                   files: set<string>, scripts: set<string>, name: string)
    returns (lines: seq<ListLine>, activation: ActivateOutcome)
    requires WellFormed(rootExists, envs, files, scripts)
    requires ValidName(name) && DoubleQuoteSafe(name) && name !in envs && name !in files
    ensures multiset(lines)[EntryFor(p, home, name)] == 1
    ensures activation.Instructions? && activation.name == name
  {
    var store := new EnvStore(p, home, rootExists, envs, files, scripts, false);
    var uv := (cmd: string) => true;
    var made := store.MakeVenv(name, uv);
    lines := store.ListEnvs();
    DistinctOccursOnce(lines, EntryFor(p, home, name));
    activation := store.ActivateEnv(name);
  }

  /** `reset --all` followed by `list`: no environment is listed. */
  method ResetAllThenList(p: Platform, home: string, rootExists: bool, envs: set<string>,
                          files: set<string>, scripts: set<string>)
    returns (lines: seq<ListLine>)
    requires WellFormed(rootExists, envs, files, scripts)
    ensures lines == if rootExists then [NoEnvironmentsFound] else [NoEnvironmentsDirectory(EnvsPath(home))]
  {
    var store := new EnvStore(p, home, rootExists, envs, files, scripts, false);
    var reset := store.ResetEnv("--all");
    lines := store.ListEnvs();
  }

  /** Listing twice with nothing in between gives the same items, up to the
      order in which the directory is enumerated. */
  method ListTwice(p: Platform, home: string, rootExists: bool, envs: set<string>,
                   files: set<string>, scripts: set<string>)
    returns (first: seq<ListLine>, second: seq<ListLine>)
    requires WellFormed(rootExists, envs, files, scripts)
    ensures multiset(first) == multiset(second)
  {
    var store := new EnvStore(p, home, rootExists, envs, files, scripts, false);
    first := store.ListEnvs();
    second := store.ListEnvs();
    if rootExists && envs != {} {
      ListingsAgree(p, home, first, second, envs);
    }
  }

  /** `clone src dest` onto an existing destination, or from a missing source,
      leaves the filesystem alone and issues nothing but the probe. */
  method CloneRefused(p: Platform, home: string, rootExists: bool, envs: set<string>,
                      files: set<string>, scripts: set<string>, src: string, dest: string,
                      uv: string -> bool)
    returns (outcome: CloneOutcome, log: seq<string>, fs: FsState)
    requires WellFormed(rootExists, envs, files, scripts)
    requires ValidName(src) && BareWord(src) && ValidName(dest) && BareWord(dest)
    requires src !in envs + files || dest in envs + files
    ensures !outcome.Cloned?
    ensures log == [ProbeCommand(p)]
    ensures fs == FsState(rootExists, envs, files, scripts, false)
  {
    var store := new EnvStore(p, home, rootExists, envs, files, scripts, false);
    outcome := store.CloneEnv(src, dest, uv);
    log := store.log;
    fs := FsState(store.rootExists, store.envs, store.files, store.scripts, store.tempExists);
  }

  /** `clone src dest` on a store where it may proceed issues the probe, then
      freeze of src, venv of dest and install into dest, in that order, and
      always reports success. */
  method CloneOrder(p: Platform, home: string, rootExists: bool, envs: set<string>,
                    files: set<string>, scripts: set<string>, src: string, dest: string,
                    uv: string -> bool)
    returns (outcome: CloneOutcome, log: seq<string>)
    requires WellFormed(rootExists, envs, files, scripts)
    requires ValidName(src) && BareWord(src) && ValidName(dest) && BareWord(dest)
    requires uv(ProbeCommand(p)) && src in envs + files && dest !in envs + files
    ensures outcome == Cloned(src, dest)
    ensures |log| == 4 && log[0] == ProbeCommand(p)
    ensures ChainEnv(p, EnvsPath(home), FreezeStep(TempFile(home)), log[1]) == Some(src)
    ensures VenvTarget(log[2]) == Some(EnvPath(EnvsPath(home), dest))
    ensures ChainEnv(p, EnvsPath(home), InstallStep(TempFile(home)), log[3]) == Some(dest)
  {
    var store := new EnvStore(p, home, rootExists, envs, files, scripts, false);
    outcome := store.CloneEnv(src, dest, uv);
    log := store.log;
    FreezeRoundTrip(p, home, src);
    VenvRoundTrip(EnvPath(EnvsPath(home), dest));
    InstallRoundTrip(p, home, dest);
  }
}
