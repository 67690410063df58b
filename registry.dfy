/**
 * The command registry's dispatcher: argument shifting, `execute`
 * (dispatch to the first applicable subcommand), tab completion, and the
 * forwarding of the host's callbacks. `Run` and `TabComplete` are the
 * specifications; the methods `Execute` and `OnTabComplete` are the loops
 * of the registry proved to meet them.
 */
module Registry {
  import opened Wrappers
  import opened Strings
  import opened Commands

  /** `ChatColor.DARK_RED` and `ChatColor.YELLOW` as the colour codes they print as. */
  const DarkRed := "\U{A7}4"
  const Yellow := "\U{A7}e"

  /** Sent instead of running a player-only command for a sender that is not a player. */
  const PlayersOnly := "The command is for players only"

  /** One run of a command implementation's `execute`: which command, with which command word and arguments. */
  datatype Call = Call(handler: string, command: string, args: seq<string>)

  /** What running a command amounts to: its result, the messages sent to the sender, and the implementations run. */
  datatype Effect = Effect(ok: bool, messages: seq<string>, calls: seq<Call>)

  /** The exception tab completion throws when asked with no arguments. */
  datatype TabError = ArrayIndexOutOfBounds

  /** `moveArgs` on values: drop the first argument and shift the rest down. */
  function Shift(a: seq<string>): (r: seq<string>)
    ensures |r| == if |a| == 0 then 0 else |a| - 1
    ensures forall i :: 0 <= i < |r| ==> r[i] == a[i + 1]
  {
    if |a| <= 1 then [] else a[1..]
  }

  /** `moveArgs`: a new array holding all arguments but the first; the input array is left alone. */
  method MoveArgs(args: array<string>) returns (newArgs: array<string>)
    ensures fresh(newArgs)
    ensures newArgs[..] == Shift(args[..])
  {
    if args.Length <= 1 {
      newArgs := new string[0];
      return;
    }
    newArgs := new string[args.Length - 1];
    for i := 0 to newArgs.Length
      invariant forall k :: 0 <= k < i ==> newArgs[k] == args[k + 1]
    {
      newArgs[i] := args[i + 1];
    }
  }

  /** The index of the first subcommand, in list order, that is applicable; `None` if there is none. */
  function FirstApplicable<P>(subs: seq<ExecutableCommand<P>>, isPlayer: bool, command: string, args: seq<string>)
    : (r: Option<nat>)
    ensures r.Some? ==> r.value < |subs| && IsApplicable(subs[r.value], isPlayer, command, args)
    ensures r.Some? ==> forall j :: 0 <= j < r.value ==> !IsApplicable(subs[j], isPlayer, command, args)
    ensures r.None? ==> forall j :: 0 <= j < |subs| ==> !IsApplicable(subs[j], isPlayer, command, args)
  {
    if subs == [] then None
    else if IsApplicable(subs[0], isPlayer, command, args) then Some(0)
    else match FirstApplicable(subs[1..], isPlayer, command, args)
      case None => None
      case Some(k) => Some(k + 1)
  }

  /**
   * `execute` of a command as a value. An implementation runs its oracle. A
   * registry takes the first argument as the command word and the shifted rest
   * as its arguments and hands them to the first applicable subcommand; a
   * player-only subcommand is refused to a non-player; a subcommand that returns
   * false has its usage sent in dark red; with no argument or no applicable
   * subcommand the registry's own usage is sent in yellow. A registry always
   * returns true.
   */
  function Run<P>(h: ExecutableCommand<P>, isPlayer: bool, command: string, args: seq<string>): (r: Effect)
    ensures h.Command? ==> r.calls == [Call(h.name, command, args)]
    ensures h.Registry? ==> r.ok && |r.calls| <= 1
    decreases h
  {
    match h
    case Command(name, _, _, _, run, _, _) =>
      var reply := run(isPlayer, command, args);
      Effect(reply.ok, reply.messages, [Call(name, command, args)])
    case Registry(_, _, subs) =>
      if |args| == 0 then Effect(true, [Yellow + Usage(h)], [])
      else
        match FirstApplicable(subs, isPlayer, args[0], Shift(args))
        case None => Effect(true, [Yellow + Usage(h)], [])
        case Some(i) =>
          if IsForPlayerOnly(subs[i]) && !isPlayer then Effect(true, [PlayersOnly], [])
          else
            var e := Run(subs[i], isPlayer, args[0], Shift(args));
            Effect(true, e.messages + (if e.ok then [] else [DarkRed + Usage(subs[i])]), e.calls)
  }

  /** The one-argument completions: lower-cased subcommand names, in order, that start with the lower-cased argument. */
  function NameCompletions<P>(subs: seq<ExecutableCommand<P>>, arg: string): (r: seq<string>)
    ensures |r| <= |subs|
    ensures forall x :: x in r <==>
      exists i :: 0 <= i < |subs| && x == Lower(GetName(subs[i])) && StartsWith(x, Lower(arg))
    ensures forall x :: x in r ==> Lower(x) == x
  {
    if subs == [] then []
    else
      var n := Lower(GetName(subs[0]));
      LowerIdempotent(GetName(subs[0]));
      (if StartsWith(n, Lower(arg)) then [n] else []) + NameCompletions(subs[1..], arg)
  }

  /**
   * `onTabComplete` of a command as a value. An implementation answers with its
   * oracle. A registry completes subcommand names for exactly one argument,
   * delegates longer argument lists to the first applicable subcommand (with the
   * shifted arguments) or answers nothing, and throws on an empty argument list,
   * where it reads the first argument. That is the only failure: a registry
   * never passes an empty argument list down, so nesting adds none.
   */
  function TabComplete<P>(h: ExecutableCommand<P>, isPlayer: bool, command: string, args: seq<string>)
    : (r: Result<seq<string>, TabError>)
    ensures r.Failure? <==> h.Registry? && |args| == 0
    decreases h
  {
    match h
    case Command(_, _, _, _, _, complete, _) => Success(complete(isPlayer, command, args))
    case Registry(_, _, subs) =>
      if |args| == 1 then Success(NameCompletions(subs, args[0]))
      else if |args| == 0 then Failure(ArrayIndexOutOfBounds)
      else
        match FirstApplicable(subs, isPlayer, args[0], Shift(args))
        case None => Success([])
        case Some(i) => TabComplete(subs[i], isPlayer, args[0], Shift(args))
  }

  /** A registry's `execute` always returns true. */
  lemma RegistryAlwaysSucceeds<P>(h: ExecutableCommand<P>, isPlayer: bool, command: string, args: seq<string>)
    requires h.Registry?
    ensures Run(h, isPlayer, command, args).ok
  {
  }

  /**
   * With no arguments, or when no subcommand is applicable, a registry sends
   * exactly its own usage in yellow and runs nothing.
   */
  lemma NothingApplicableSendsUsage<P>(h: ExecutableCommand<P>, isPlayer: bool, command: string, args: seq<string>)
    requires h.Registry?
    requires |args| == 0 ||
             forall j :: 0 <= j < |h.subcommands| ==> !IsApplicable(h.subcommands[j], isPlayer, args[0], Shift(args))
    ensures Run(h, isPlayer, command, args) == Effect(true, [Yellow + Usage(h)], [])
  {
  }

  /**
   * A registry hands the first argument and the shifted rest to the first
   * applicable subcommand `i`: a player-only one is refused to a non-player with
   * a single message and not run; otherwise it runs, and its usage follows in
   * dark red exactly when it returned false.
   */
  lemma DispatchesToFirstApplicable<P>(h: ExecutableCommand<P>, isPlayer: bool, command: string, args: seq<string>,
                                       i: nat)
    requires h.Registry? && |args| > 0 && i < |h.subcommands|
    requires IsApplicable(h.subcommands[i], isPlayer, args[0], Shift(args))
    requires forall j :: 0 <= j < i ==> !IsApplicable(h.subcommands[j], isPlayer, args[0], Shift(args))
    ensures IsForPlayerOnly(h.subcommands[i]) && !isPlayer ==>
              Run(h, isPlayer, command, args) == Effect(true, [PlayersOnly], [])
    ensures !(IsForPlayerOnly(h.subcommands[i]) && !isPlayer) ==>
              var e := Run(h.subcommands[i], isPlayer, args[0], Shift(args));
              && Run(h, isPlayer, command, args).calls == e.calls
              && (Run(h, isPlayer, command, args).messages == e.messages + [DarkRed + Usage(h.subcommands[i])] <==> !e.ok)
              && (Run(h, isPlayer, command, args).messages == e.messages <==> e.ok)
  {
  }

  /** Subcommands registered after an applicable one change nothing: dispatch stops at the first match. */
  lemma {:induction false} FirstApplicableAppend<P>(subs: seq<ExecutableCommand<P>>, extra: seq<ExecutableCommand<P>>,
                                                    isPlayer: bool, command: string, args: seq<string>)
    requires FirstApplicable(subs, isPlayer, command, args).Some?
    ensures FirstApplicable(subs + extra, isPlayer, command, args) == FirstApplicable(subs, isPlayer, command, args)
  {
    if !IsApplicable(subs[0], isPlayer, command, args) {
      assert (subs + extra)[1..] == subs[1..] + extra;
      FirstApplicableAppend(subs[1..], extra, isPlayer, command, args);
    }
  }

  /**
   * Once some subcommand of a registry is applicable, no later subcommand is
   * consulted: appending subcommands changes neither `execute` nor delegated
   * tab completion.
   */
  lemma LaterSubcommandsNotConsulted<P>(name: string, plugin: P, subs: seq<ExecutableCommand<P>>,
                                        extra: seq<ExecutableCommand<P>>, isPlayer: bool, command: string,
                                        args: seq<string>, i: nat)
    requires |args| > 0 && i < |subs| && IsApplicable(subs[i], isPlayer, args[0], Shift(args))
    ensures Run(Registry(name, plugin, subs + extra), isPlayer, command, args) ==
            Run(Registry(name, plugin, subs), isPlayer, command, args)
    ensures |args| >= 2 ==>
              TabComplete(Registry(name, plugin, subs + extra), isPlayer, command, args) ==
              TabComplete(Registry(name, plugin, subs), isPlayer, command, args)
  {
    FirstApplicableAppend(subs, extra, isPlayer, args[0], Shift(args));
    var k := FirstApplicable(subs, isPlayer, args[0], Shift(args)).value;
    assert (subs + extra)[k] == subs[k];
  }

  /**
   * A registry nested in a registry consumes one more argument: when it is the
   * first applicable subcommand, the outer `execute` is exactly the inner one
   * on the shifted arguments, with the first argument as command word.
   */
  lemma NestedRegistryConsumesOneArgument<P>(h: ExecutableCommand<P>, isPlayer: bool, command: string,
                                             args: seq<string>, i: nat)
    requires h.Registry? && |args| > 0 && i < |h.subcommands| && h.subcommands[i].Registry?
    requires IsApplicable(h.subcommands[i], isPlayer, args[0], Shift(args))
    requires forall j :: 0 <= j < i ==> !IsApplicable(h.subcommands[j], isPlayer, args[0], Shift(args))
    ensures Run(h, isPlayer, command, args) == Run(h.subcommands[i], isPlayer, args[0], Shift(args))
  {
    DispatchesToFirstApplicable(h, isPlayer, command, args, i);
    RegistryAlwaysSucceeds(h.subcommands[i], isPlayer, args[0], Shift(args));
  }

  /** With two or more arguments, tab completion is that of the first applicable subcommand on the shifted arguments. */
  lemma TabCompleteDelegatesToFirstApplicable<P>(h: ExecutableCommand<P>, isPlayer: bool, command: string,
                                                 args: seq<string>, i: nat)
    requires h.Registry? && |args| >= 2 && i < |h.subcommands|
    requires IsApplicable(h.subcommands[i], isPlayer, args[0], Shift(args))
    requires forall j :: 0 <= j < i ==> !IsApplicable(h.subcommands[j], isPlayer, args[0], Shift(args))
    ensures TabComplete(h, isPlayer, command, args) == TabComplete(h.subcommands[i], isPlayer, args[0], Shift(args))
  {
  }

  /** With two or more arguments and no applicable subcommand, tab completion offers nothing. */
  lemma TabCompleteNothingApplicable<P>(h: ExecutableCommand<P>, isPlayer: bool, command: string, args: seq<string>)
    requires h.Registry? && |args| >= 2
    requires forall j :: 0 <= j < |h.subcommands| ==> !IsApplicable(h.subcommands[j], isPlayer, args[0], Shift(args))
    ensures TabComplete(h, isPlayer, command, args) == Success([])
  {
  }

  /** Name completion keeps registration order: it distributes over concatenation of the subcommand list. */
  lemma {:induction false} NameCompletionsAppend<P>(a: seq<ExecutableCommand<P>>, b: seq<ExecutableCommand<P>>,
                                                    arg: string)
    ensures NameCompletions(a + b, arg) == NameCompletions(a, arg) + NameCompletions(b, arg)
  {
    if a == [] {
      assert a + b == b;
    } else {
      assert (a + b)[0] == a[0] && (a + b)[1..] == a[1..] + b;
      NameCompletionsAppend(a[1..], b, arg);
    }
  }

  /** An empty argument completes to every subcommand name, lower-cased, in registration order. */
  lemma {:induction false} NameCompletionsEmptyArgument<P>(subs: seq<ExecutableCommand<P>>)
    ensures |NameCompletions(subs, "")| == |subs|
    ensures forall i :: 0 <= i < |subs| ==> NameCompletions(subs, "")[i] == Lower(GetName(subs[i]))
  {
    if subs != [] {
      NameCompletionsEmptyArgument(subs[1..]);
    }
  }

  /**
   * `execute`: runs the command for the sender. For a registry this is the loop
   * over the subcommands with early return. `calls` records which command
   * implementations ran, for the statement of the contract only.
   */
  method Execute<P>(h: ExecutableCommand<P>, sender: Sender, command: string, args: array<string>)
    returns (ok: bool, ghost calls: seq<Call>)
    modifies sender
    ensures ok == Run(h, sender.isPlayer, command, args[..]).ok
    ensures sender.log == old(sender.log) + Run(h, sender.isPlayer, command, args[..]).messages
    ensures calls == Run(h, sender.isPlayer, command, args[..]).calls
    decreases h
  {
    match h
    case Command(name, _, _, _, run, _, _) =>
      var reply := run(sender.isPlayer, command, args[..]);
      sender.SendMessages(reply.messages);
      return reply.ok, [Call(name, command, args[..])];
    case Registry(_, _, subs) =>
      ghost var a := args[..];
      if args.Length > 0 {
        var cmd := args[0];
        var rest := MoveArgs(args);
        assert cmd == a[0] && rest[..] == Shift(a);
        for i := 0 to |subs|
          invariant sender.log == old(sender.log)
          invariant forall j :: 0 <= j < i ==> !IsApplicable(subs[j], sender.isPlayer, cmd, rest[..])
        {
          var sub := subs[i];
          if IsApplicable(sub, sender.isPlayer, cmd, rest[..]) {
            DispatchesToFirstApplicable(h, sender.isPlayer, command, a, i);
            if IsForPlayerOnly(sub) && !sender.isPlayer {
              sender.SendMessage(PlayersOnly);
              calls := [];
            } else {
              var subOk;
              subOk, calls := Execute(sub, sender, cmd, rest);
              if !subOk {
                sender.SendMessage(DarkRed + Usage(sub));
              }
            }
            return true, calls;
          }
        }
      }
      NothingApplicableSendsUsage(h, sender.isPlayer, command, a);
      sender.SendMessage(Yellow + Usage(h));
      return true, [];
  }

  /** `onTabComplete`: for a registry, the name filter for one argument and the delegation loop otherwise. */
  method OnTabComplete<P>(h: ExecutableCommand<P>, sender: Sender, command: string, args: array<string>)
    returns (r: Result<seq<string>, TabError>)
    ensures r == TabComplete(h, sender.isPlayer, command, args[..])
    decreases h
  {
    match h
    case Command(_, _, _, _, _, complete, _) =>
      return Success(complete(sender.isPlayer, command, args[..]));
    case Registry(_, _, subs) =>
      if args.Length == 1 {
        return Success(NameCompletions(subs, args[0]));
      }
      if args.Length == 0 {
        return Failure(ArrayIndexOutOfBounds);
      }
      var cmd := args[0];
      var rest := MoveArgs(args);
      for i := 0 to |subs|
        invariant forall j :: 0 <= j < i ==> !IsApplicable(subs[j], sender.isPlayer, cmd, rest[..])
      {
        var sub := subs[i];
        if IsApplicable(sub, sender.isPlayer, cmd, rest[..]) {
          r := OnTabComplete(sub, sender, cmd, rest);
          return;
        }
      }
      return Success([]);
  }

  /** `onCommand`: the host's callback; runs `execute` with the host command's name and the unchanged arguments, ignoring the label. */
  method OnCommand<P>(h: ExecutableCommand<P>, sender: Sender, bukkitCommand: BukkitCommand, commandLabel: string,
                      args: array<string>)
    returns (ok: bool, ghost calls: seq<Call>)
    modifies sender
    ensures ok == Run(h, sender.isPlayer, bukkitCommand.name, args[..]).ok
    ensures sender.log == old(sender.log) + Run(h, sender.isPlayer, bukkitCommand.name, args[..]).messages
    ensures calls == Run(h, sender.isPlayer, bukkitCommand.name, args[..]).calls
  {
    ok, calls := Execute(h, sender, bukkitCommand.name, args);
  }

  /** The host's tab-completion callback; forwards the host command's name and the unchanged arguments, ignoring the alias. */
  method OnTabCompleteCommand<P>(h: ExecutableCommand<P>, sender: Sender, bukkitCommand: BukkitCommand,
                                 alias: string, args: array<string>)
    returns (r: Result<seq<string>, TabError>)
    ensures r == TabComplete(h, sender.isPlayer, bukkitCommand.name, args[..])
  {
    r := OnTabComplete(h, sender, bukkitCommand.name, args);
  }
}
