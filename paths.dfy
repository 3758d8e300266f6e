/** Platform adapter of guv: where environments live, which activation script
    each platform uses, and the command lines handed to the shell. Every
    builder has a decoder beside it, and the lemmas show that a built path or
    command gives back exactly the name it was built from. */
module Paths {

  datatype Option<T> = None | Some(value: T)

  /** The two platform families the program is compiled for. */
  datatype Platform = Posix | Windows

  /** An environment name the model speaks about: one directory entry of the
      environment root, so no separator and no "." or "..". */
  predicate ValidName(n: string) {
    && n != "" && n != "." && n != ".."
    && forall i :: 0 <= i < |n| ==> n[i] != '/' && n[i] != '\\'
  }

  /** A name the `uv venv "<path>"` command line carries unchanged: no
      character that keeps a meaning inside double quotes, for the POSIX
      shell (quote, backslash, `$`, backquote) or for cmd.exe (`%`). */
  predicate DoubleQuoteSafe(n: string) {
    forall i :: 0 <= i < |n| ==>
      n[i] != '"' && n[i] != '\\' && n[i] != '$' && n[i] != '`' && n[i] != '%'
  }

  /** A character neither shell treats specially in an unquoted word. */
  predicate BareChar(c: char) {
    || ('a' <= c <= 'z') || ('A' <= c <= 'Z') || ('0' <= c <= '9')
    || c == '-' || c == '_' || c == '.' || c == '+' || c == '@'
  }

  /** A name that stays one plain word where the clone commands paste it
      without quotes. */
  predicate BareWord(n: string) {
    forall i :: 0 <= i < |n| ==> BareChar(n[i])
  }

  function GuvHome(home: string): string { home + "/.guv" }

  /** The environment root, `<home>/.guv/envs`. */
  function EnvsPath(home: string): string { GuvHome(home) + "/envs" }

  /** The freeze manifest used by clone, `<home>/.guv/temp.txt`. */
  function TempFile(home: string): string { GuvHome(home) + "/temp.txt" }

  /** The manifest is neither the environment root nor any environment in it,
      so removing it never touches an environment. */
  lemma TempFileOutsideRoot(home: string, name: string)
    ensures TempFile(home) != EnvsPath(home)
    ensures TempFile(home) != EnvPath(EnvsPath(home), name)
  {
    var g := GuvHome(home);
    assert TempFile(home)[|g| + 1] == 't';
    assert EnvsPath(home)[|g| + 1] == 'e';
    assert EnvPath(EnvsPath(home), name) == g + "/envs/" + name;
    assert EnvPath(EnvsPath(home), name)[|g| + 1] == 'e';
  }

  /** The directory of environment `name`: the root, a slash, the name. */
  function EnvPath(root: string, name: string): string { root + "/" + name }

  /** The separator std::filesystem inserts when it joins a directory and an
      entry name (its preferred separator), as in the paths of the entries a
      directory iteration yields. */
  function PreferredSeparator(p: Platform): char {
    if p.Windows? then '\\' else '/'
  }

  /** The path of an entry of `root` as the directory iterator reports it. */
  function IterPath(p: Platform, root: string, name: string): (r: string)
    ensures p.Posix? ==> r == EnvPath(root, name)
    ensures p.Windows? ==> r != EnvPath(root, name)
  {
    var r := root + [PreferredSeparator(p)] + name;
    assert r[|root|] == PreferredSeparator(p) && EnvPath(root, name)[|root|] == '/';
    r
  }

  /** The activation script that list and activate look for. */
  function ActivateSuffix(p: Platform): string {
    if p.Windows? then "/Scripts/Activate.ps1" else "/bin/activate"
  }

  /** The activation script that clone's shell commands source: on Windows it
      is not the PowerShell script that list and activate use. */
  function CloneActivateSuffix(p: Platform): (s: string)
    ensures p.Posix? <==> s == ActivateSuffix(p)
  {
    var s := if p.Windows? then "/Scripts/activate" else "/bin/activate";
    assert p.Windows? ==> s[9] == 'a' != ActivateSuffix(p)[9];
    s
  }

  function ScriptPath(p: Platform, envDir: string): string {
    envDir + ActivateSuffix(p)
  }

  function HintPrefix(p: Platform): string {
    if p.Windows? then "Invoke-Expression -Command \"& '" else "source \""
  }

  function HintSuffix(p: Platform): string {
    if p.Windows? then "'\"" else "\""
  }

  /** The instruction shown to the user for activating a script. */
  function ActivationHint(p: Platform, script: string): string {
    HintPrefix(p) + script + HintSuffix(p)
  }

  /** The command that probes whether `uv` is on the search path. */
  function ProbeCommand(p: Platform): string {
    if p.Windows? then "where uv > nul 2>&1" else "which uv > /dev/null 2>&1"
  }

  function VenvPrefix(): string { "uv venv \"" }

  /** `uv venv "<path>"`. */
  function VenvCommand(path: string): string { VenvPrefix() + path + "\"" }

  /** The opening of a one-shot shell invocation that activates a script. */
  function ChainPrefix(p: Platform): string {
    if p.Windows? then "cmd /c \"" else "bash -c 'source "
  }

  function ChainClose(p: Platform): string {
    if p.Windows? then "\"" else "'"
  }

  /** One shell invocation: activate `script`, then run `sub`. */
  function ShellChain(p: Platform, script: string, sub: string): string {
    ChainPrefix(p) + script + " && " + sub + ChainClose(p)
  }

  function FreezeStep(temp: string): string { "uv pip freeze > \"" + temp + "\"" }

  function InstallStep(temp: string): string { "uv pip install -r \"" + temp + "\"" }

  /** Writes the packages of the environment at `srcDir` to `temp`. */
  function FreezeCommand(p: Platform, srcDir: string, temp: string): string {
    ShellChain(p, srcDir + CloneActivateSuffix(p), FreezeStep(temp))
  }

  /** Installs the packages listed in `temp` into the environment at `dstDir`. */
  function InstallCommand(p: Platform, dstDir: string, temp: string): string {
    ShellChain(p, dstDir + CloneActivateSuffix(p), InstallStep(temp))
  }

  // ---------------------------------------------------------------------------
  // Decoders

  /** The middle of `s` when `s` starts with `prefix` and ends with `suffix`. */
  function StripAround(s: string, prefix: string, suffix: string): (r: Option<string>)
    ensures r.Some? ==> prefix + r.value + suffix == s
    ensures r.None? ==> forall m :: prefix + m + suffix != s
  {
    if |prefix| + |suffix| <= |s| && s[..|prefix|] == prefix && s[|s| - |suffix|..] == suffix then
      var m := s[|prefix|..|s| - |suffix|];
      assert s == s[..|prefix|] + m + s[|s| - |suffix|..];
      Some(m)
    else
      assert forall m :: prefix + m + suffix == s ==>
        (prefix + m + suffix)[..|prefix|] == prefix &&
        (prefix + m + suffix)[|s| - |suffix|..] == suffix;
      None
  }

  /** The environment name a path under `root` denotes. */
  function EnvNameOf(root: string, path: string): Option<string> {
    StripAround(path, root + "/", "")
  }

  /** The text between the quotes of a `uv venv` command. This strips the
      quotes as text; how the shell reads the command is in module `Shell`. */
  function VenvTarget(cmd: string): Option<string> {
    StripAround(cmd, VenvPrefix(), "\"")
  }

  /** The script an activation hint sources. */
  function HintScript(p: Platform, hint: string): Option<string> {
    StripAround(hint, HintPrefix(p), HintSuffix(p))
  }

  /** The environment of `root` whose clone script a shell chain running
      `sub` activates. */
  function ChainEnv(p: Platform, root: string, sub: string, cmd: string): Option<string> {
    StripAround(cmd, ChainPrefix(p) + root + "/", CloneActivateSuffix(p) + " && " + sub + ChainClose(p))
  }

  // ---------------------------------------------------------------------------
  // Round trips

  lemma StripAroundWrap(prefix: string, m: string, suffix: string)
    ensures StripAround(prefix + m + suffix, prefix, suffix) == Some(m)
  {
    var s := prefix + m + suffix;
    assert s[..|prefix|] == prefix;
    assert s[|s| - |suffix|..] == suffix;
    assert s[|prefix|..|s| - |suffix|] == m;
  }

  /** The environment path gives back its name. */
  lemma EnvPathRoundTrip(root: string, name: string)
    ensures EnvNameOf(root, EnvPath(root, name)) == Some(name)
  {
    assert EnvPath(root, name) == (root + "/") + name + "";
    StripAroundWrap(root + "/", name, "");
  }

  /** Two names never share an environment path. */
  lemma EnvPathInjective(root: string, a: string, b: string)
    ensures EnvPath(root, a) == EnvPath(root, b) <==> a == b
  {
    EnvPathRoundTrip(root, a);
    EnvPathRoundTrip(root, b);
  }

  /** The hint shown by list and activate sources exactly the script it was
      built for. */
  lemma ActivationHintRoundTrip(p: Platform, script: string)
    ensures HintScript(p, ActivationHint(p, script)) == Some(script)
  {
    StripAroundWrap(HintPrefix(p), script, HintSuffix(p));
  }

  /** The quoted text of a venv command is the path it was built for. */
  lemma VenvRoundTrip(path: string)
    ensures VenvTarget(VenvCommand(path)) == Some(path)
  {
    StripAroundWrap(VenvPrefix(), path, "\"");
  }

  lemma ChainRoundTrip(p: Platform, root: string, name: string, sub: string)
    ensures ChainEnv(p, root, sub, ShellChain(p, EnvPath(root, name) + CloneActivateSuffix(p), sub))
              == Some(name)
  {
    var pre := ChainPrefix(p) + root + "/";
    var post := CloneActivateSuffix(p) + " && " + sub + ChainClose(p);
    assert ShellChain(p, EnvPath(root, name) + CloneActivateSuffix(p), sub) == pre + name + post;
    StripAroundWrap(pre, name, post);
  }

  /** Clone's freeze command activates the source environment and no other. */
  lemma FreezeRoundTrip(p: Platform, home: string, src: string)
    ensures ChainEnv(p, EnvsPath(home), FreezeStep(TempFile(home)),
                     FreezeCommand(p, EnvPath(EnvsPath(home), src), TempFile(home))) == Some(src)
  {
    ChainRoundTrip(p, EnvsPath(home), src, FreezeStep(TempFile(home)));
  }

  /** Clone's install command activates the destination environment and no other. */
  lemma InstallRoundTrip(p: Platform, home: string, dest: string)
    ensures ChainEnv(p, EnvsPath(home), InstallStep(TempFile(home)),
                     InstallCommand(p, EnvPath(EnvsPath(home), dest), TempFile(home))) == Some(dest)
  {
    ChainRoundTrip(p, EnvsPath(home), dest, InstallStep(TempFile(home)));
  }

  /** The probe, a venv, a freeze and an install command never coincide, so
      a command log tells them apart. */
  lemma ProbeIsNoOtherCommand(p: Platform, a: string, b: string, t: string)
    ensures ProbeCommand(p) != VenvCommand(a)
    ensures ProbeCommand(p) != FreezeCommand(p, b, t) && ProbeCommand(p) != InstallCommand(p, b, t)
  {
    assert ProbeCommand(p)[0] == 'w';
    assert VenvCommand(a)[0] == 'u';
    assert FreezeCommand(p, b, t)[0] == ChainPrefix(p)[0];
    assert InstallCommand(p, b, t)[0] == ChainPrefix(p)[0];
  }

  lemma VenvIsNoShellChain(p: Platform, a: string, b: string, t: string)
    ensures VenvCommand(a) != FreezeCommand(p, b, t) && VenvCommand(a) != InstallCommand(p, b, t)
  {
    assert VenvCommand(a)[0] == 'u';
    assert FreezeCommand(p, b, t)[0] == ChainPrefix(p)[0];
    assert InstallCommand(p, b, t)[0] == ChainPrefix(p)[0];
  }

  /** A freeze and an install differ at the character just before the quoted
      manifest name: '>' in "freeze > " and 'r' in "install -r ". */
  lemma FreezeIsNoInstall(p: Platform, b: string, c: string, t: string)
    ensures FreezeCommand(p, b, t) != InstallCommand(p, c, t)
  {
    var f, i := FreezeCommand(p, b, t), InstallCommand(p, c, t);
    if |f| == |i| {
      var fTail, iTail := FreezeStep(t) + ChainClose(p), InstallStep(t) + ChainClose(p);
      var k := |ChainClose(p)| + |t| + 4;
      assert FreezeStep(t)[14] == '>' && fTail[14] == '>' && |fTail| - k == 14;
      assert InstallStep(t)[16] == 'r' && iTail[16] == 'r' && |iTail| - k == 16;
      var fHead := ChainPrefix(p) + (b + CloneActivateSuffix(p)) + " && ";
      var iHead := ChainPrefix(p) + (c + CloneActivateSuffix(p)) + " && ";
      assert f == fHead + fTail;
      assert i == iHead + iTail;
      CharFromEnd(fHead, fTail, k);
      CharFromEnd(iHead, iTail, k);
      assert f[|f| - k] != i[|i| - k];
    }
  }

  lemma CharFromEnd(x: string, y: string, k: nat)
    requires 0 < k <= |y|
    ensures (x + y)[|x + y| - k] == y[|y| - k]
  {
  }
}
