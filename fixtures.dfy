/**
 * The repository's registry test, restated on the model: a plugin with one
 * command `test` that is found by the scan, receives the shifted arguments,
 * and reports "[MC] " followed by its arguments joined by spaces.
 */
module Fixtures {
  import opened Wrappers
  import opened Strings
  import opened Commands
  import opened Registry
  import opened Injection

  const TestPackage := "de.headshotharp.plugin.base.command.testplugin"
  const PluginClass := ClassRef(TestPackage + ".TestPluginImpl", TestPackage, "TestPluginImpl")
  const DataSourceClass := ClassRef(TestPackage + ".TestDataSource", TestPackage, "TestDataSource")
  const CommandClass := ClassRef(TestPackage + ".TestCommandImpl", TestPackage, "TestCommandImpl")

  /**
   * The plugin mock. The injection table holds the plugin only under the
   * explicit plugin class, never under the plugin object's own runtime class,
   * so the mock's runtime class plays no part in injection.
   */
  const PluginMock :=
    Obj(ClassRef(TestPackage + ".TestPluginImpl$MockitoMock", TestPackage, "TestPluginImpl$MockitoMock"), 0)
  const DataSource := Obj(DataSourceClass, 1)

  /** The test command class as reflection sees it: one constructor taking the plugin and the data source. */
  const CommandClassInfo := ClassInfo(CommandClass, false, [[PluginClass, DataSourceClass]])

  /** The server name the test data source supplies. */
  const ServerName := "MC"

  /** What the test command hands to the plugin: the server name in brackets, then its arguments joined by spaces. */
  function PluginMessage(args: seq<string>): string
  {
    "[" + ServerName + "] " + Join(" ", args)
  }

  /** The test command: named "test", not player-only, always succeeding, sending nothing and completing nothing. */
  function TestCommand(plugin: Obj): ExecutableCommand<Obj>
  {
    Command("test", false, "/test <msg>", ByName,
            (isPlayer: bool, command: string, args: seq<string>) => Reply(true, []),
            (isPlayer: bool, command: string, args: seq<string>) => [],
            plugin)
  }

  /** The scan resolves the test command's constructor to the plugin mock and the data source, in parameter order. */
  lemma ScanInjectsPluginAndDataSource()
    ensures Resolve(InjectionTable(PluginClass, PluginMock, [DataSource]), CommandClassInfo) ==
            Success([PluginMock, DataSource])
  {
    var table := InjectionTable(PluginClass, PluginMock, [DataSource]);
    assert [DataSource][..0] == [] && [DataSource][0] == DataSource;
    assert InjectionTable(PluginClass, PluginMock, []) == map[PluginClass := PluginMock];
    assert table == InjectionTable(PluginClass, PluginMock, [])[DataSource.cls := DataSource];
    assert PluginClass in table && table[PluginClass] == PluginMock;
    assert DataSourceClass in table && table[DataSourceClass] == DataSource;
    var params := [PluginClass, DataSourceClass];
    assert params[0] in table && params[1] in table;
    var r := ResolveParams(table, CommandClass, params);
    assert r.Success?;
    assert r.value[0] == PluginMock && r.value[1] == DataSource;
    assert r.value == [PluginMock, DataSource];
  }

  /** Without the data source among the injectables, the scan throws for the test command's second parameter. */
  lemma ScanWithoutDataSourceFails()
    ensures Resolve(InjectionTable(PluginClass, PluginMock, []), CommandClassInfo) ==
            Failure(InvalidParam(CommandClass, DataSourceClass))
    ensures ErrorMessage(InvalidParam(CommandClass, DataSourceClass)) ==
            "The class " + "TestCommandImpl" + " has an invalid constructor param type: " + "TestDataSource"
  {
    var table := InjectionTable(PluginClass, PluginMock, []);
    assert table == map[PluginClass := PluginMock];
    var params := [PluginClass, DataSourceClass];
    assert params[1..] == [DataSourceClass];
    assert ResolveParams(table, CommandClass, params[1..]) == Failure(InvalidParam(CommandClass, DataSourceClass));
    assert CommandClass.simpleName == "TestCommandImpl" && DataSourceClass.simpleName == "TestDataSource";
  }

  /** Two classes of one package that share a simple name: a top-level class and a static nested one. */
  const TopConfig := ClassRef("com.example.Config", "com.example", "Config")
  const NestedConfig := ClassRef("com.example.Outer$Config", "com.example", "Config")

  /** An injectable of the nested class does not satisfy a constructor parameter of the top-level class. */
  lemma SameSimpleNameDoesNotInject()
    ensures var plugin := Obj(ClassRef("com.example.Plugin", "com.example", "Plugin"), 0);
            var cmd := ClassInfo(ClassRef("com.example.Cmd", "com.example", "Cmd"), false, [[TopConfig]]);
            Resolve(InjectionTable(plugin.cls, plugin, [Obj(NestedConfig, 1)]), cmd) ==
            Failure(InvalidParam(cmd.ref, TopConfig))
  {
    var plugin := Obj(ClassRef("com.example.Plugin", "com.example", "Plugin"), 0);
    assert TopConfig.binaryName[12] == 'C' && NestedConfig.binaryName[12] == 'O' && plugin.cls.binaryName[12] == 'P';
    InjectionTableKeys(plugin.cls, plugin, [Obj(NestedConfig, 1)], TopConfig);
  }

  /** Two nested command classes with the same simple name are two classes, and the scan finds both. */
  lemma SameSimpleNameCommandsBothFound()
    ensures var helpA := ClassInfo(ClassRef("com.example.A$Help", "com.example", "Help"), false, [[]]);
            var helpB := ClassInfo(ClassRef("com.example.B$Help", "com.example", "Help"), false, [[]]);
            |FindClasses({helpA, helpB}, "com.example", false)| == 2
  {
    var helpA := ClassInfo(ClassRef("com.example.A$Help", "com.example", "Help"), false, [[]]);
    var helpB := ClassInfo(ClassRef("com.example.B$Help", "com.example", "Help"), false, [[]]);
    assert helpA.ref.binaryName[12] == 'A' && helpB.ref.binaryName[12] == 'B';
    assert FindClasses({helpA, helpB}, "com.example", false) == {helpA, helpB};
  }

  /**
   * `onCommand` with arguments "test", "Hello", "World!" runs the test command
   * once with "Hello", "World!", which makes the plugin message "[MC] Hello World!",
   * and sends the sender nothing.
   */
  lemma DispatchReachesTestCommand()
    ensures var e := Run(Registry("test", PluginMock, [TestCommand(PluginMock)]), false, "test",
                         ["test", "Hello", "World!"]);
            && e.ok && e.messages == []
            && e.calls == [Call("test", "test", ["Hello", "World!"])]
            && PluginMessage(e.calls[0].args) == "[MC] Hello World!"
  {
  }

  /**
   * The repository's test through the imperative entry point: `onCommand` on a
   * registry holding the test command. The test passes a null sender and a null
   * label; here they are a non-player sender and an empty label. On this path
   * that makes no difference: the label is never read, the test command is not
   * player-only so the sender's kind is never asked, and nothing is sent to the
   * sender.
   */
  method TestCommandImplInstantiation()
  {
    var registry := Registry("test", PluginMock, [TestCommand(PluginMock)]);
    var sender := new Sender(false);
    var args := new string[3];
    args[0], args[1], args[2] := "test", "Hello", "World!";
    assert args[..] == ["test", "Hello", "World!"];
    var ok;
    ghost var calls;
    ok, calls := OnCommand(registry, sender, BukkitCommand("test"), "", args);
    DispatchReachesTestCommand();
    assert ok && sender.log == [];
    assert calls == [Call("test", "test", ["Hello", "World!"])];
  }

  /** Nesting: a registry "admin" inside the root consumes "admin", and the test command inside it gets "Hello". */
  lemma NestedDispatchReachesTestCommand()
    ensures Run(Registry("root", PluginMock, [Registry("admin", PluginMock, [TestCommand(PluginMock)])]), false,
                "root", ["admin", "test", "Hello"]).calls == [Call("test", "test", ["Hello"])]
  {
    var test := TestCommand(PluginMock);
    var admin := Registry("admin", PluginMock, [test]);
    var root := Registry("root", PluginMock, [admin]);
    var args := ["admin", "test", "Hello"];
    assert Shift(args) == ["test", "Hello"];
    assert Shift(["test", "Hello"]) == ["Hello"];
    assert EqualsIgnoreCase("admin", "admin");
    assert EqualsIgnoreCase("test", "test");
    assert FirstApplicable([test], false, "test", ["Hello"]) == Some(0);
    assert Run(admin, false, "admin", ["test", "Hello"]).calls == [Call("test", "test", ["Hello"])];
    assert FirstApplicable([admin], false, "admin", ["test", "Hello"]) == Some(0);
  }

  /** An unknown subcommand gets the registry usage in yellow, which lists the test command. */
  lemma UnknownSubcommandGetsUsage()
    ensures Run(Registry("test", PluginMock, [TestCommand(PluginMock)]), true, "test", ["help"]) ==
            Effect(true, [Yellow + "Available subcommands: test"], [])
  {
    var test := TestCommand(PluginMock);
    assert LowerChar("help"[0]) != LowerChar("test"[0]);
    assert !IsApplicable(test, true, "help", []);
    assert Shift(["help"]) == [] && ["help"][0] == "help";
    NothingApplicableSendsUsage(Registry("test", PluginMock, [test]), true, "test", ["help"]);
    UsageSmall("test", PluginMock, test);
    assert UsagePrefix + GetName(test) == "Available subcommands: test";
  }

  /** Completing "T" offers "test"; completing with no argument at all throws. */
  lemma CompletionOfTestCommand()
    ensures TabComplete(Registry("test", PluginMock, [TestCommand(PluginMock)]), false, "test", ["T"]) ==
            Success(["test"])
    ensures TabComplete(Registry("test", PluginMock, [TestCommand(PluginMock)]), false, "test", []) ==
            Failure(ArrayIndexOutOfBounds)
  {
    assert Lower("T") == "t";
    assert Lower("test") == "test";
    assert StartsWith("test", "t");
    assert NameCompletions([TestCommand(PluginMock)], "T") == ["test"];
  }
}
