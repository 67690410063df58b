/**
 * Commands as the dispatcher sees them: a command implementation or a nested
 * command registry, with the defaults both inherit from the abstract
 * command base class (name matching, forwarding, the plugin they belong to).
 */
module Commands {
  import opened Strings

  /** What a command implementation's own `execute` does: its boolean result and the messages it sends. */
  datatype Reply = Reply(ok: bool, messages: seq<string>)

  /**
   * How a command decides `isApplicable`: the inherited default (its name,
   * ignoring case) or an override that may look at the sender's player flag,
   * the command word and the arguments.
   */
  datatype Applicability = ByName | Custom(test: (bool, string, seq<string>) -> bool)

  /**
   * A command handler. `Command` is a user implementation, whose behaviour is
   * given by the oracles `run` (its `execute`) and `complete` (its
   * `onTabComplete`), both of which see the sender's player flag, the command
   * word and the arguments. `Registry` is a command registry, itself a command,
   * holding its subcommands in registration order.
   */
  datatype ExecutableCommand<P> =
    | Command(name: string, playerOnly: bool, usageText: string, applicability: Applicability,
              run: (bool, string, seq<string>) -> Reply,
              complete: (bool, string, seq<string>) -> seq<string>,
              plugin: P)
    | Registry(name: string, plugin: P, subcommands: seq<ExecutableCommand<P>>)

  /** The text every registry usage starts with. */
  const UsagePrefix := "Available subcommands: "

  /** `getName`: a command's declared name; a registry's is the name it was constructed with. */
  function GetName<P>(h: ExecutableCommand<P>): string
  {
    h.name
  }

  /** `getPlugin`: the plugin the command was constructed with. */
  function GetPlugin<P>(h: ExecutableCommand<P>): P
  {
    h.plugin
  }

  /** `isForPlayerOnly`: the command's own flag; a registry is never player-only. */
  predicate IsForPlayerOnly<P>(h: ExecutableCommand<P>)
  {
    h.Command? && h.playerOnly
  }

  /** The names of the given commands, in order. */
  function Names<P>(subs: seq<ExecutableCommand<P>>): (r: seq<string>)
    ensures |r| == |subs|
    ensures forall i :: 0 <= i < |subs| ==> r[i] == GetName(subs[i])
  {
    seq(|subs|, i requires 0 <= i < |subs| => GetName(subs[i]))
  }

  /** `usage`: a command's own usage text; a registry lists its subcommand names. */
  function Usage<P>(h: ExecutableCommand<P>): (r: string)
    ensures h.Registry? ==> UsagePrefix <= r
    ensures h.Registry? && h.subcommands != [] ==> UsagePrefix + GetName(h.subcommands[0]) <= r
  {
    match h
    case Command(_, _, usageText, _, _, _, _) => usageText
    case Registry(_, _, subs) => UsagePrefix + Join(", ", Names(subs))
  }

  /**
   * `isApplicable`: the default compares the command word with the name,
   * ignoring case; a registry always uses the default.
   */
  predicate IsApplicable<P>(h: ExecutableCommand<P>, isPlayer: bool, command: string, args: seq<string>)
    ensures h.Registry? || h.applicability.ByName? ==>
              (IsApplicable(h, isPlayer, command, args) <==> Lower(command) == Lower(GetName(h)))
  {
    EqualsIgnoreCaseIffLower(command, GetName(h));
    match h
    case Registry(_, _, _) => EqualsIgnoreCase(command, GetName(h))
    case Command(_, _, _, applicability, _, _, _) =>
      match applicability
      case ByName => EqualsIgnoreCase(command, GetName(h))
      case Custom(test) => test(isPlayer, command, args)
  }

  /** The default `isApplicable` ignores the sender and the arguments. */
  lemma DefaultApplicability<P>(h: ExecutableCommand<P>, isPlayer: bool, command: string, args: seq<string>,
                                otherIsPlayer: bool, otherArgs: seq<string>)
    requires h.Registry? || h.applicability.ByName?
    ensures IsApplicable(h, isPlayer, command, args) == IsApplicable(h, otherIsPlayer, command, otherArgs)
  {
  }

  /** A registry is named by its constructor argument, is never player-only, and keeps its plugin. */
  lemma RegistryIdentity<P>(name: string, plugin: P, subs: seq<ExecutableCommand<P>>)
    ensures GetName(Registry(name, plugin, subs)) == name
    ensures !IsForPlayerOnly(Registry(name, plugin, subs))
    ensures GetPlugin(Registry(name, plugin, subs)) == plugin
  {
  }

  /** Any command returns from `getPlugin` the plugin it was constructed with. */
  lemma CommandPlugin<P>(name: string, playerOnly: bool, usageText: string, applicability: Applicability,
                         run: (bool, string, seq<string>) -> Reply,
                         complete: (bool, string, seq<string>) -> seq<string>, plugin: P)
    ensures GetPlugin(Command(name, playerOnly, usageText, applicability, run, complete, plugin)) == plugin
  {
  }

  /**
   * The registry usage lists subcommands in registration order: registering
   * one more command adds its name at the end, after ", " unless it is the first.
   */
  lemma UsageAppend<P>(name: string, plugin: P, subs: seq<ExecutableCommand<P>>, s: ExecutableCommand<P>)
    ensures Usage(Registry(name, plugin, subs + [s])) ==
            Usage(Registry(name, plugin, subs)) + (if subs == [] then "" else ", ") + GetName(s)
  {
    assert Names(subs + [s]) == Names(subs) + [GetName(s)];
    if subs != [] {
      JoinSnoc(", ", Names(subs), GetName(s));
    }
  }

  /** A registry without subcommands reports only the prefix; with one, the prefix and that name. */
  lemma UsageSmall<P>(name: string, plugin: P, s: ExecutableCommand<P>)
    ensures Usage(Registry(name, plugin, [])) == UsagePrefix
    ensures Usage(Registry(name, plugin, [s])) == UsagePrefix + GetName(s)
  {
  }

  /** A host-side command object; only its name is used (`Command.getName`). */
  datatype BukkitCommand = BukkitCommand(name: string)

  /** A command sender: whether it is a player, and the messages sent to it so far. */
  class Sender {
    const isPlayer: bool
    var log: seq<string>

    constructor (isPlayer: bool)
      ensures this.isPlayer == isPlayer && log == []
    {
      this.isPlayer := isPlayer;
      log := [];
    }

    /** `sendMessage`: appends one message to the log. */
    method SendMessage(message: string)
      modifies this
      ensures log == old(log) + [message]
    {
      log := log + [message];
    }

    /** Several `sendMessage` calls in a row. */
    method SendMessages(messages: seq<string>)
      modifies this
      ensures log == old(log) + messages
    {
      log := log + messages;
    }
  }
}
