/**
 * The registry's scanning constructor: it finds the concrete command classes
 * in a package, builds a table of injectable objects keyed by exact class,
 * and calls each command class's single constructor with the objects its
 * parameter types select. Reflection is modelled by class descriptions; the
 * classpath scan result and the constructor call itself are parameters.
 */
module Injection {
  import opened Wrappers
  import opened Commands

  /**
   * A class. `binaryName` identifies it (`p.Outer$Config` and `p.Config` are
   * different classes); `packageName` is what `getPackageName` reports and
   * `simpleName` what `getSimpleName` reports, used only in error messages.
   * Equality compares all three fields; the model takes the package and the
   * simple name to be determined by the binary name, as they are in Java.
   */
  datatype ClassRef = ClassRef(binaryName: string, packageName: string, simpleName: string)

  /** What reflection reports of a command class: whether it is abstract, and the parameter types of each declared constructor. */
  datatype ClassInfo = ClassInfo(ref: ClassRef, isAbstract: bool, constructors: seq<seq<ClassRef>>)

  /** An object: its runtime class and an identity. */
  datatype Obj = Obj(cls: ClassRef, id: nat)

  /** The two `IllegalStateException`s the scan throws. */
  datatype ScanError =
    | ConstructorCount(cls: ClassRef)
    | InvalidParam(cls: ClassRef, paramType: ClassRef)

  /** The exception message of a scan error: it names the class by its simple name, and the parameter type likewise. */
  function ErrorMessage(e: ScanError): (r: string)
    ensures "The class " + e.cls.simpleName <= r
    ensures e.InvalidParam? ==> |r| >= |e.paramType.simpleName| && r[|r| - |e.paramType.simpleName|..] == e.paramType.simpleName
  {
    match e
    case ConstructorCount(cls) =>
      "The class " + cls.simpleName + " must have exactly one constructor for auto-instantiation"
    case InvalidParam(cls, paramType) =>
      "The class " + cls.simpleName + " has an invalid constructor param type: " + paramType.simpleName
  }

  /** No object appears twice in `s`. */
  ghost predicate Distinct<T>(s: seq<T>)
  {
    forall i, j :: 0 <= i < j < |s| ==> s[i] != s[j]
  }

  /**
   * The injection table: the plugin under `pluginClass`, then each injectable
   * under its own runtime class, a later one replacing an earlier one.
   */
  function InjectionTable(pluginClass: ClassRef, plugin: Obj, instances: seq<Obj>): map<ClassRef, Obj>
    decreases |instances|
  {
    if instances == [] then map[pluginClass := plugin]
    else
      var last := instances[|instances| - 1];
      InjectionTable(pluginClass, plugin, instances[..|instances| - 1])[last.cls := last]
  }

  /** The table's keys are exactly the plugin class and the injectables' classes. */
  lemma {:induction false} InjectionTableKeys(pluginClass: ClassRef, plugin: Obj, instances: seq<Obj>, c: ClassRef)
    ensures c in InjectionTable(pluginClass, plugin, instances) <==>
              c == pluginClass || exists j :: 0 <= j < |instances| && instances[j].cls == c
    decreases |instances|
  {
    if instances != [] {
      var n := |instances| - 1;
      var init := instances[..n];
      InjectionTableKeys(pluginClass, plugin, init, c);
      if exists j :: 0 <= j < |instances| && instances[j].cls == c {
        var j :| 0 <= j < |instances| && instances[j].cls == c;
        if j < n {
          assert init[j].cls == c;
        }
      }
      if exists j :: 0 <= j < n && init[j].cls == c {
        var j :| 0 <= j < n && init[j].cls == c;
        assert instances[j].cls == c;
      }
    }
  }

  /** A class maps to the last injectable of that class: a later entry replaces an earlier one. */
  lemma {:induction false} InjectionTableLastWins(pluginClass: ClassRef, plugin: Obj, instances: seq<Obj>, j: nat)
    requires j < |instances|
    requires forall k :: j < k < |instances| ==> instances[k].cls != instances[j].cls
    ensures instances[j].cls in InjectionTable(pluginClass, plugin, instances)
    ensures InjectionTable(pluginClass, plugin, instances)[instances[j].cls] == instances[j]
    decreases |instances|
  {
    var n := |instances| - 1;
    if j < n {
      var init := instances[..n];
      assert init[j] == instances[j];
      assert forall k :: j < k < n ==> init[k] == instances[k];
      InjectionTableLastWins(pluginClass, plugin, init, j);
    }
  }

  /** The plugin class maps to the plugin unless an injectable of exactly that class replaced it. */
  lemma {:induction false} InjectionTablePlugin(pluginClass: ClassRef, plugin: Obj, instances: seq<Obj>)
    requires forall j :: 0 <= j < |instances| ==> instances[j].cls != pluginClass
    ensures pluginClass in InjectionTable(pluginClass, plugin, instances)
    ensures InjectionTable(pluginClass, plugin, instances)[pluginClass] == plugin
    decreases |instances|
  {
    if instances != [] {
      var n := |instances| - 1;
      var init := instances[..n];
      assert forall j :: 0 <= j < n ==> init[j] == instances[j];
      InjectionTablePlugin(pluginClass, plugin, init);
    }
  }

  /** Builds the injection table the way the scan fills its hash map. */
  method BuildInjectables(pluginClass: ClassRef, plugin: Obj, instances: seq<Obj>) returns (table: map<ClassRef, Obj>)
    ensures table == InjectionTable(pluginClass, plugin, instances)
  {
    table := map[pluginClass := plugin];
    for i := 0 to |instances|
      invariant table == InjectionTable(pluginClass, plugin, instances[..i])
    {
      assert instances[..i + 1][..i] == instances[..i];
      table := table[instances[i].cls := instances[i]];
    }
    assert instances[..|instances|] == instances;
  }

  /**
   * `findClasses`: of the scanned subtypes of the command base class, keep those
   * declared in the package itself when the scan is not recursive, and drop
   * abstract classes always.
   */
  function FindClasses(scanned: set<ClassInfo>, packageName: string, recursive: bool): (r: set<ClassInfo>)
    ensures r <= scanned
    ensures forall c :: c in r ==> !c.isAbstract
    ensures !recursive ==> forall c :: c in r ==> c.ref.packageName == packageName
    ensures forall c :: c in scanned && !c.isAbstract && (recursive || c.ref.packageName == packageName) ==> c in r
  {
    set c | c in scanned && (recursive || c.ref.packageName == packageName) && !c.isAbstract
  }

  /**
   * Resolves constructor parameter types in order by exact lookup in the table;
   * the first type that has no entry is the error.
   */
  function ResolveParams(table: map<ClassRef, Obj>, cls: ClassRef, params: seq<ClassRef>)
    : (r: Result<seq<Obj>, ScanError>)
    ensures r.Success? <==> forall i :: 0 <= i < |params| ==> params[i] in table
    ensures r.Success? ==>
              && |r.value| == |params|
              && forall i :: 0 <= i < |params| ==> params[i] in table && r.value[i] == table[params[i]]
    ensures r.Failure? ==>
              exists i :: 0 <= i < |params| && r.error == InvalidParam(cls, params[i]) && params[i] !in table &&
                          forall k :: 0 <= k < i ==> params[k] in table
  {
    if params == [] then Success([])
    else if params[0] !in table then Failure(InvalidParam(cls, params[0]))
    else
      match ResolveParams(table, cls, params[1..])
      case Success(rest) => Success([table[params[0]]] + rest)
      case Failure(e) => Failure(e)
  }

  /** The arguments the scan passes to a command class's constructor, or why it cannot. */
  function Resolve(table: map<ClassRef, Obj>, c: ClassInfo): (r: Result<seq<Obj>, ScanError>)
    ensures r == Failure(ConstructorCount(c.ref)) <==> |c.constructors| != 1
    ensures r.Success? <==>
              |c.constructors| == 1 && forall i :: 0 <= i < |c.constructors[0]| ==> c.constructors[0][i] in table
    ensures r.Failure? && |c.constructors| == 1 ==> r.error.InvalidParam?
    ensures r.Success? ==>
              && |c.constructors| == 1 && |r.value| == |c.constructors[0]|
              && forall i :: 0 <= i < |r.value| ==> c.constructors[0][i] in table && r.value[i] == table[c.constructors[0][i]]
    ensures r.Failure? && r.error.InvalidParam? ==>
              && |c.constructors| == 1 && r.error.cls == c.ref && r.error.paramType !in table
              && exists i :: 0 <= i < |c.constructors[0]| && c.constructors[0][i] == r.error.paramType &&
                             forall k :: 0 <= k < i ==> c.constructors[0][k] in table
  {
    if |c.constructors| != 1 then Failure(ConstructorCount(c.ref))
    else ResolveParams(table, c.ref, c.constructors[0])
  }

  /** The inner loop of the scan: fills the constructor's argument array, or throws. */
  method InjectParams(table: map<ClassRef, Obj>, c: ClassInfo) returns (r: Result<seq<Obj>, ScanError>)
    ensures r == Resolve(table, c)
  {
    if |c.constructors| != 1 {
      return Failure(ConstructorCount(c.ref));
    }
    var types := c.constructors[0];
    var params := new Obj[|types|];
    for i := 0 to |types|
      invariant forall k :: 0 <= k < i ==> types[k] in table && params[k] == table[types[k]]
    {
      if types[i] !in table {
        ghost var expected := ResolveParams(table, c.ref, types);
        assert expected.Failure?;
        ghost var j :| 0 <= j < |types| && expected.error == InvalidParam(c.ref, types[j]) && types[j] !in table &&
                       forall k :: 0 <= k < j ==> types[k] in table;
        assert j == i;
        return Failure(InvalidParam(c.ref, types[i]));
      }
      params[i] := table[types[i]];
    }
    ghost var expected := ResolveParams(table, c.ref, types);
    assert expected.Success?;
    assert params[..] == expected.value;
    return Success(params[..]);
  }

  /** A duplicate-free sequence has as many elements as the set of its elements. */
  lemma {:induction false} DistinctCardinality<T>(s: seq<T>, elems: set<T>)
    requires Distinct(s)
    requires forall x :: x in s <==> x in elems
    ensures |s| == |elems|
  {
    if s != [] {
      var n := |s| - 1;
      var last := s[n];
      forall x ensures x in s[..n] <==> x in elems - {last} {
        if x in s[..n] {
          var j :| 0 <= j < n && s[..n][j] == x;
          assert s[j] == x;
        }
        if x in elems - {last} {
          assert x in s;
          var j :| 0 <= j < |s| && s[j] == x;
          assert j != n;
          assert s[..n][j] == x;
        }
      }
      DistinctCardinality(s[..n], elems - {last});
    }
  }

  /**
   * `scanCommands`: builds the injection table, then instantiates every class
   * `findClasses` returns. The classes are visited in an order that is not
   * specified (that of a hash set); `order` records the classes visited. On
   * success every found class was visited once and produced exactly one command,
   * in visiting order; otherwise the last class visited is the first one whose
   * constructor could not be resolved, and its error is thrown. The scan fails
   * exactly when some found class cannot be resolved.
   */
  method ScanCommands(packageName: string, recursive: bool, plugin: Obj, pluginClass: ClassRef, injectables: seq<Obj>,
                      scanned: set<ClassInfo>, newInstance: (ClassInfo, seq<Obj>) -> ExecutableCommand<Obj>)
    returns (r: Result<seq<ExecutableCommand<Obj>>, ScanError>, ghost order: seq<ClassInfo>)
    ensures Distinct(order)
    ensures forall c :: c in order ==> c in FindClasses(scanned, packageName, recursive)
    ensures r.Success? ==>
              && |r.value| == |order| == |FindClasses(scanned, packageName, recursive)|
              && (forall c :: c in FindClasses(scanned, packageName, recursive) ==> c in order)
              && forall k :: 0 <= k < |order| ==>
                   var params := Resolve(InjectionTable(pluginClass, plugin, injectables), order[k]);
                   params.Success? && r.value[k] == newInstance(order[k], params.value)
    ensures r.Failure? ==>
              && |order| > 0
              && (forall k :: 0 <= k < |order| - 1 ==>
                    Resolve(InjectionTable(pluginClass, plugin, injectables), order[k]).Success?)
              && Resolve(InjectionTable(pluginClass, plugin, injectables), order[|order| - 1]) == Failure(r.error)
    ensures r.Failure? <==>
              exists c :: c in FindClasses(scanned, packageName, recursive) &&
                          Resolve(InjectionTable(pluginClass, plugin, injectables), c).Failure?
  {
    var table := BuildInjectables(pluginClass, plugin, injectables);
    var classes := FindClasses(scanned, packageName, recursive);
    var commands: seq<ExecutableCommand<Obj>> := [];
    var remaining := classes;
    order := [];
    while remaining != {}
      invariant remaining <= classes
      invariant forall c :: c in order ==> c in classes && c !in remaining
      invariant forall c :: c in classes ==> c in remaining || c in order
      invariant Distinct(order)
      invariant |commands| == |order|
      invariant forall k :: 0 <= k < |order| ==>
                  Resolve(table, order[k]).Success? && commands[k] == newInstance(order[k], Resolve(table, order[k]).value)
      decreases remaining
    {
      var c :| c in remaining;
      var params := InjectParams(table, c);
      order := order + [c];
      if params.Failure? {
        return Failure(params.error), order;
      }
      commands := commands + [newInstance(c, params.value)];
      remaining := remaining - {c};
    }
    DistinctCardinality(order, classes);
    return Success(commands), order;
  }

  /**
   * The scanning registry constructors: a registry named `name` for `plugin`
   * whose subcommands are the scanned commands of `basePackageName`, one per
   * concrete class found and in the order the scan visited them (`order`), or
   * the exception of the first class whose constructor could not be resolved.
   */
  method NewScannedRegistry(name: string, plugin: Obj, pluginClass: ClassRef, basePackageName: string, recursive: bool,
                            injectables: seq<Obj>, scanned: set<ClassInfo>,
                            newInstance: (ClassInfo, seq<Obj>) -> ExecutableCommand<Obj>)
    returns (r: Result<ExecutableCommand<Obj>, ScanError>, ghost order: seq<ClassInfo>)
    ensures Distinct(order)
    ensures forall c :: c in order ==> c in FindClasses(scanned, basePackageName, recursive)
    ensures r.Success? ==>
              && r.value.Registry? && GetName(r.value) == name && GetPlugin(r.value) == plugin
              && |r.value.subcommands| == |order| == |FindClasses(scanned, basePackageName, recursive)|
              && (forall c :: c in FindClasses(scanned, basePackageName, recursive) ==> c in order)
              && forall k :: 0 <= k < |order| ==>
                   var params := Resolve(InjectionTable(pluginClass, plugin, injectables), order[k]);
                   params.Success? && r.value.subcommands[k] == newInstance(order[k], params.value)
    ensures r.Failure? ==>
              && |order| > 0
              && (forall k :: 0 <= k < |order| - 1 ==>
                    Resolve(InjectionTable(pluginClass, plugin, injectables), order[k]).Success?)
              && Resolve(InjectionTable(pluginClass, plugin, injectables), order[|order| - 1]) == Failure(r.error)
    ensures r.Failure? <==>
              exists c :: c in FindClasses(scanned, basePackageName, recursive) &&
                          Resolve(InjectionTable(pluginClass, plugin, injectables), c).Failure?
  {
    var commands;
    commands, order := ScanCommands(basePackageName, recursive, plugin, pluginClass, injectables, scanned, newInstance);
    match commands
    case Success(subs) => r := Success(Registry(name, plugin, subs));
    case Failure(e) => r := Failure(e);
  }
}
