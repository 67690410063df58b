# Command registry of Minecraft Plugin Base, in Dafny

This project models the command dispatcher of the Minecraft Plugin Base
library: the `CommandRegistry`, which holds subcommands and routes a
text command to the first one that accepts it, and the defaults every
command inherits from `ExecutableCommand` (name matching, forwarding of the
host's callbacks, the plugin a command belongs to). A registry is itself a
command, so registries nest; each level consumes one argument.

Files:

- `wrappers.dfy` — `Option` and `Result`.
- `strings.dfy` — case folding, `equalsIgnoreCase`, `startsWith`, `String.join`.
- `commands.dfy` — the `ExecutableCommand` datatype (a user command or a
  registry), `getName`, `getPlugin`, `isForPlayerOnly`, `usage`, the default
  `isApplicable`, and the `Sender` class whose `sendMessage` appends to a log.
- `registry.dfy` — `moveArgs`, dispatch (`execute`), tab completion and the
  `onCommand` / `onTabComplete` forwarding. The pure functions `Run` and
  `TabComplete` are the specification; the methods `Execute` and
  `OnTabComplete` are the source's loops with early return, proved equal to it.
- `injection.dfy` — the scanning constructor: `findClasses`, the injection
  table, constructor-parameter resolution and the scan loop.
- `fixtures.dfy` — the repository's registry test and its test command,
  restated as lemmas, and a client method that replays that test through
  the imperative `OnCommand`.

A user command's own behaviour (`execute`, `onTabComplete`, optionally an
overridden `isApplicable`) is unknown code; it is given by function-valued
fields that see the sender's player flag, the command word and the arguments.
`Run` records every user command run as a `Call` (name, command word,
arguments) so that the contracts can say which command ran with what.

The code does not check subcommand names for uniqueness; with two matching
subcommands the first one registered wins.

## Model

| member | source | states |
|---|---|---|
| Registry.Shift | src/main/java/de/headshotharp/plugin/base/command/CommandRegistry.java:216-225 | The shifted arguments have length max(0, n-1) and element i is input element i+1. |
| Registry.MoveArgs | src/main/java/de/headshotharp/plugin/base/command/CommandRegistry.java:216-225 | Returns a new array whose contents are the input without its first element; the input array is not modified. |
| Registry.FirstApplicable | src/main/java/de/headshotharp/plugin/base/command/CommandRegistry.java:167-168 | Finds the index of the first applicable subcommand in list order (applicable, none before it applicable), or reports that none applies. |
| Registry.Run | src/main/java/de/headshotharp/plugin/base/command/CommandRegistry.java:162-180 | `execute` as a value: a user command's run records exactly that command with the given command word and arguments; a registry always returns true and runs at most one user command. |
| Registry.RegistryAlwaysSucceeds | src/main/java/de/headshotharp/plugin/base/command/CommandRegistry.java:174-179 | A registry's `execute` returns true on every input. |
| Registry.NothingApplicableSendsUsage | src/main/java/de/headshotharp/plugin/base/command/CommandRegistry.java:164-179 | With no arguments, or no applicable subcommand, exactly one message is sent, the registry usage after the yellow code, and no command runs. |
| Registry.DispatchesToFirstApplicable | src/main/java/de/headshotharp/plugin/base/command/CommandRegistry.java:165-175 | The first applicable subcommand gets the first argument and the shifted rest; a player-only one is refused to a non-player with one message and not run; otherwise its runs are the registry's, and its usage in dark red follows its messages if and only if it returned false. |
| Registry.FirstApplicableAppend | src/main/java/de/headshotharp/plugin/base/command/CommandRegistry.java:167-175 | Subcommands after an applicable one do not change which subcommand is chosen. |
| Registry.LaterSubcommandsNotConsulted | src/main/java/de/headshotharp/plugin/base/command/CommandRegistry.java:167-175 | Once a subcommand applies, appending more subcommands changes neither `execute` nor delegated tab completion. |
| Registry.NestedRegistryConsumesOneArgument | src/main/java/de/headshotharp/plugin/base/command/CommandRegistry.java:165-174 | A nested registry chosen by the outer one behaves as the outer `execute`, with the first argument as its command word and the rest as its arguments. |
| Registry.NameCompletions | src/main/java/de/headshotharp/plugin/base/command/CommandRegistry.java:184-186 | A string is offered if and only if it is some subcommand's lower-cased name that starts with the lower-cased argument; at most one entry per subcommand; every entry is lower-case. |
| Registry.NameCompletionsAppend | src/main/java/de/headshotharp/plugin/base/command/CommandRegistry.java:185-186 | The completions keep registration order: completing over a concatenated list is the concatenation of the completions. |
| Registry.NameCompletionsEmptyArgument | src/main/java/de/headshotharp/plugin/base/command/CommandRegistry.java:185-186 | An empty argument yields every subcommand name, lower-cased, in registration order. |
| Registry.TabComplete | src/main/java/de/headshotharp/plugin/base/command/CommandRegistry.java:182-197 | `onTabComplete` as a value: it fails if and only if a registry is asked with no arguments; nested registries never receive an empty argument list. |
| Registry.TabCompleteDelegatesToFirstApplicable | src/main/java/de/headshotharp/plugin/base/command/CommandRegistry.java:187-193 | With two or more arguments, the answer is the first applicable subcommand's tab completion on the first argument and the shifted rest. |
| Registry.TabCompleteNothingApplicable | src/main/java/de/headshotharp/plugin/base/command/CommandRegistry.java:187-196 | With two or more arguments and no applicable subcommand, the answer is the empty list. |
| Registry.Execute | src/main/java/de/headshotharp/plugin/base/command/CommandRegistry.java:162-180 | The loop over the subcommands with early return: its result, the messages appended to the sender's log and the commands run are those of `Run`. |
| Registry.OnTabComplete | src/main/java/de/headshotharp/plugin/base/command/CommandRegistry.java:182-197 | The one-argument name filter and the delegation loop return exactly `TabComplete`, including the exception for no arguments. |
| Registry.OnCommand | src/main/java/de/headshotharp/plugin/base/command/generic/ExecutableCommand.java:113-116 | Runs `execute` with the host command's name and the unchanged arguments; the label plays no part. |
| Registry.OnTabCompleteCommand | src/main/java/de/headshotharp/plugin/base/command/generic/ExecutableCommand.java:121-124 | Tab completion with the host command's name and the unchanged arguments; the alias plays no part. |
| Commands.DefaultApplicability | src/main/java/de/headshotharp/plugin/base/command/generic/ExecutableCommand.java:105-108 | The default `isApplicable` (also a registry's) does not change when the sender or the arguments change. |
| Commands.IsApplicable | src/main/java/de/headshotharp/plugin/base/command/generic/ExecutableCommand.java:105-108 | For the default (and for every registry) the command applies if and only if the command word equals the name up to case. |
| Commands.RegistryIdentity | src/main/java/de/headshotharp/plugin/base/command/CommandRegistry.java:147-151 | A registry's name is its constructor argument, it is never player-only, and `getPlugin` returns its plugin. |
| Commands.CommandPlugin | src/main/java/de/headshotharp/plugin/base/command/generic/ExecutableCommand.java:49-51 | `getPlugin` returns the plugin given at construction. |
| Commands.UsageAppend | src/main/java/de/headshotharp/plugin/base/command/CommandRegistry.java:204-207 | Registering one more subcommand appends its name to the usage, after ", " unless it is the first, so names appear in registration order. |
| Commands.UsageSmall | src/main/java/de/headshotharp/plugin/base/command/CommandRegistry.java:204-207 | The usage of an empty registry is "Available subcommands: "; with one subcommand it is that text and the name. |
| Commands.Usage | src/main/java/de/headshotharp/plugin/base/command/CommandRegistry.java:204-207 | A registry's usage starts with "Available subcommands: ", followed by the first subcommand's name when there is one. |
| Strings.EqualsIgnoreCaseIffLower | src/main/java/de/headshotharp/plugin/base/command/generic/ExecutableCommand.java:107 | Case-insensitive equality holds if and only if the lower-cased strings are equal. |
| Strings.LowerIdempotent | src/main/java/de/headshotharp/plugin/base/command/CommandRegistry.java:185-186 | Lower-casing an already lower-cased string changes nothing. |
| Strings.JoinSnoc | src/main/java/de/headshotharp/plugin/base/command/CommandRegistry.java:206 | Joining one more element appends the separator and the element. |
| Injection.InjectionTableKeys | src/main/java/de/headshotharp/plugin/base/command/CommandRegistry.java:230-235 | The table's keys are exactly the plugin class and the injectables' runtime classes. |
| Injection.InjectionTableLastWins | src/main/java/de/headshotharp/plugin/base/command/CommandRegistry.java:233-235 | A class maps to the last injectable of exactly that class: a later entry overwrites an earlier one. |
| Injection.InjectionTablePlugin | src/main/java/de/headshotharp/plugin/base/command/CommandRegistry.java:232 | The plugin class maps to the plugin unless an injectable of exactly that class replaced it. |
| Injection.BuildInjectables | src/main/java/de/headshotharp/plugin/base/command/CommandRegistry.java:230-235 | The map-filling loop yields the injection table. |
| Injection.FindClasses | src/main/java/de/headshotharp/plugin/base/command/CommandRegistry.java:263-275 | Keeps exactly the scanned classes that are not abstract and, for a non-recursive scan, lie in the package itself. |
| Injection.ResolveParams | src/main/java/de/headshotharp/plugin/base/command/CommandRegistry.java:247-257 | Succeeds if and only if every parameter type is a key of the table, giving the objects in parameter order; otherwise the error names the first missing type. |
| Injection.Resolve | src/main/java/de/headshotharp/plugin/base/command/CommandRegistry.java:240-257 | A class with other than one constructor fails with the constructor-count error; it succeeds if and only if it has one constructor whose parameter types are all keys of the table, with the objects in parameter order; otherwise the error is the parameter error for the first missing type. |
| Injection.InjectParams | src/main/java/de/headshotharp/plugin/base/command/CommandRegistry.java:240-257 | The parameter-filling loop with its early throw returns exactly `Resolve`. |
| Injection.ScanCommands | src/main/java/de/headshotharp/plugin/base/command/CommandRegistry.java:227-261 | Visits found classes without repetition; on success every found class gave one command with its resolved parameters; on failure the last visited class is the first that failed and its error is thrown; it fails if and only if some found class cannot be resolved. |
| Injection.NewScannedRegistry | src/main/java/de/headshotharp/plugin/base/command/CommandRegistry.java:120-124 | On success, a registry with the given name and plugin whose subcommands are, in visiting order, `newInstance` of each found class (each visited once) with its resolved parameters; on failure the error is that of the last visited class, every class visited before it having resolved; fails if and only if some found class cannot be resolved. |
| Injection.ErrorMessage | src/main/java/de/headshotharp/plugin/base/command/CommandRegistry.java:240-256 | Both exception texts start with "The class " and the simple name of the command class; the parameter error ends with the simple name of the missing type. |
| Fixtures.ScanInjectsPluginAndDataSource | src/test/java/de/headshotharp/plugin/base/command/CommandRegistryTest.java:49-58 | The test command's constructor receives the plugin mock (through the explicit plugin class) and the data source, in that order. |
| Fixtures.ScanWithoutDataSourceFails | src/test/java/de/headshotharp/plugin/base/command/testplugin/TestCommandImpl.java:33-36 | Without the data source the scan throws for the constructor's data-source parameter, with the message "The class TestCommandImpl has an invalid constructor param type: TestDataSource". |
| Fixtures.SameSimpleNameDoesNotInject | src/main/java/de/headshotharp/plugin/base/command/CommandRegistry.java:250-255 | An injectable of a nested class `Outer$Config` does not fill a parameter of the top-level class `Config` of the same package: the lookup is by exact class. |
| Fixtures.SameSimpleNameCommandsBothFound | src/main/java/de/headshotharp/plugin/base/command/CommandRegistry.java:264-274 | Two nested command classes with the same simple name are both found. |
| Fixtures.DispatchReachesTestCommand | src/test/java/de/headshotharp/plugin/base/command/CommandRegistryTest.java:60-62 | The arguments "test", "Hello", "World!" run the test command once with "Hello", "World!", giving the plugin message "[MC] Hello World!" and no message to the sender. |
| Fixtures.NestedDispatchReachesTestCommand | src/main/java/de/headshotharp/plugin/base/command/CommandRegistry.java:165-171 | Two registry levels consume "admin" and "test"; the command gets "Hello". |
| Fixtures.UnknownSubcommandGetsUsage | src/main/java/de/headshotharp/plugin/base/command/CommandRegistry.java:178 | An unknown subcommand gets "Available subcommands: test" in yellow. |
| Fixtures.CompletionOfTestCommand | src/main/java/de/headshotharp/plugin/base/command/CommandRegistry.java:184-188 | "T" completes to "test"; no argument throws. |

## Left out

- Host runtime: `registerCommands` and `getServer` call into the game server's API and are not modelled; `Command` and `CommandSender` are reduced to a name and to a player flag with a message log.
- Reflection: the classpath scan of the reflection library is an input (the set of subtypes it reports); classes are described by binary name, package, simple name, abstract flag and constructor parameter types; `Constructor.newInstance` is an opaque function parameter that cannot fail, so its own exceptions (instantiation, access, invocation) are not modelled.
- Injection.ScanCommands: the order in which the hash set of classes is visited is left unspecified; the contract holds for every order, and so the order of the scanned subcommands (and, when several classes fail, which error is thrown) is not pinned down.
- Null values: a null plugin (which makes its table entry count as missing), a null injectable or a null command word (which throw `NullPointerException`) are not modelled. Neither is a null sender: the model's sender always exists, while in the code any path that sends a message (CommandRegistry.java lines 170, 172 and 178) then throws `NullPointerException`.
- Class identity: a class is identified by its binary name; the package and simple name it also carries are taken to be determined by the binary name, as in Java. Class loaders, under which two classes of one binary name can differ, are not modelled.
- Case folding: `toLowerCase` and `equalsIgnoreCase` are modelled on ASCII letters only; locale and Unicode case mappings are not modelled.
- Colours: `ChatColor.DARK_RED` and `ChatColor.YELLOW` are the colour codes made of the character U+00A7 followed by `4` and by `e`; nothing else of the colour API is modelled.
- `getCommands` is the registry datatype's `subcommands` field and has no member of its own.
- The constructors that take a base class instead of a package name only compute the package of that class (for the shortest one, the plugin class's package) and then call the scanning constructor that `NewScannedRegistry` models.
- The configuration service and the logging plugin base are file and logging pass-throughs and are not part of this model.
