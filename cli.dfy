/** The command-line dispatcher of guv: which lifecycle operation an argument
    vector selects. `args` is the whole vector the program receives, program
    name first, so `|args|` is the argument count the source calls argc. */
module Cli {

  /** What one invocation does. `Unknown` reports an unknown or invalid command
      and then shows the usage text; `ShowHelp` shows only the usage text. */
  datatype Command =
    | ShowHelp
    | MakeVenv(name: string)
    | Clone(src: string, dest: string)
    | Reset(target: string)
    | Activate(name: string)
    | List
    | Config
    | Version
    | Unknown

  /** Reference table: for each recognised verb, how many entries the argument
      vector needs (program name and verb included) for the verb to run. */
  const MinArgs: map<string, nat> := map[
    "venv" := 3, "clone" := 4, "reset" := 3, "activate" := 3,
    "list" := 2, "config" := 2, "help" := 2, "--help" := 2, "-h" := 2,
    "version" := 2]

  /** The verbs that select a command. */
  function Verbs(c: Command): set<string> {
    match c
    case ShowHelp => {"help", "--help", "-h"}
    case MakeVenv(_) => {"venv"}
    case Clone(_, _) => {"clone"}
    case Reset(_) => {"reset"}
    case Activate(_) => {"activate"}
    case List => {"list"}
    case Config => {"config"}
    case Version => {"version"}
    case Unknown => {}
  }

  /** The operands a command carries, in argument order. */
  function Operands(c: Command): seq<string> {
    match c
    case MakeVenv(n) => [n]
    case Clone(s, d) => [s, d]
    case Reset(t) => [t]
    case Activate(n) => [n]
    case _ => []
  }

  /** True when the invocation prints the usage text. */
  predicate PrintsHelp(c: Command) { c.ShowHelp? || c.Unknown? }

  /** The if/else chain of the dispatcher. Its contract is the table: a verb
      runs exactly when it is recognised and enough arguments follow it; then
      the command is the one named by the verb and its operands are the
      arguments right after the verb; everything else is `Unknown`. */
  function Dispatch(args: seq<string>): (c: Command)
    ensures |args| < 2 ==> c == ShowHelp
    ensures |args| >= 2 ==> (c.Unknown? <==> args[1] !in MinArgs || |args| < MinArgs[args[1]])
    ensures |args| >= 2 && !c.Unknown? ==>
              args[1] in Verbs(c) && Operands(c) == args[2..MinArgs[args[1]]]
  {
    if |args| < 2 then ShowHelp
    else
      var cmd := args[1];
      if cmd == "venv" && |args| >= 3 then MakeVenv(args[2])
      else if cmd == "clone" && |args| >= 4 then Clone(args[2], args[3])
      else if cmd == "reset" && |args| >= 3 then Reset(args[2])
      else if cmd == "activate" && |args| >= 3 then Activate(args[2])
      else if cmd == "list" then List
      else if cmd == "config" then Config
      else if cmd == "help" || cmd == "--help" || cmd == "-h" then ShowHelp
      else if cmd == "version" then Version
      else Unknown
  }

  /** The command is decided by the verb and neither by the program name nor by
      arguments beyond those the verb takes. */
  lemma {:induction false} DispatchIgnoresExtraArguments(args: seq<string>, prog: string, extra: seq<string>)
    requires |args| >= 2 && args[1] in MinArgs && |args| >= MinArgs[args[1]]
    ensures Dispatch([prog] + args[1..] + extra) == Dispatch(args)
  {
    var longer := [prog] + args[1..] + extra;
    assert |longer| >= |args|;
    assert forall i :: 1 <= i < |args| ==> longer[i] == args[i];
  }

  /** Usage is printed exactly for a missing, a help or an unrecognised verb,
      and for a verb that lacks its operands. */
  lemma PrintsHelpExactly(args: seq<string>)
    ensures PrintsHelp(Dispatch(args)) <==>
              |args| < 2 || args[1] in {"help", "--help", "-h"} ||
              args[1] !in MinArgs || |args| < MinArgs[args[1]]
  {
  }
}
