/** Invocation resolution in the entry routine: once the merged tree has
    parsed the arguments, a top-level name that is a catalog entry forwards
    the raw arguments to the external executor; anything else goes through
    the static variants and `SpinApp::run`. */
module Resolver {
  import opened Options
  import opened Catalog
  import opened Commands

  /** The path one invocation takes. `Forward` hands `args` to the external
      subcommand executor; `Rejected` is a usage error reported by the parser
      before any dispatch. */
  datatype Resolution = BuiltIn(handler: Handler, staticTree: bool) | Forward(args: seq<string>) | Rejected

  /** The resolution of the process arguments `argv` (program name first),
      in the order of the entry routine: the parse comes first and a usage
      error stops there; then the name the parser reports for the top-level
      subcommand (the node's own name for an alias) is looked up in the
      catalog, and a hit forwards the arguments without the program name;
      otherwise the parsed variant is dispatched. The top-level subcommand is
      the token after the program name. */
  function Resolve(argv: seq<string>, catalog: seq<Entry>, helpOnly: string): (r: Resolution)
    ensures r.Rejected? <==>
      |argv| < 2 || (argv[1] == "trigger" && (|argv| < 3 || !Declares(TriggerSubcommands(helpOnly), argv[2])))
    ensures !r.Rejected? && HasName(catalog, ReportedName(argv[1])) ==> r == Forward(argv[1..])
    ensures r.Forward? ==> |argv| >= 2 && r.args == argv[1..]
    ensures r.BuiltIn? ==> Declares(SpinAppSubcommands, argv[1]) && !HasName(catalog, ReportedName(argv[1]))
    ensures |argv| >= 2 && !Declares(SpinAppSubcommands, argv[1]) ==> r == Forward(argv[1..])
  {
    if |argv| < 2 then Rejected
    else
      FromArgMatchesRejects(argv[1], argv[2..], helpOnly);
      FromArgMatchesExternal(argv[1], argv[2..], helpOnly);
      assert [argv[1]] + argv[2..] == argv[1..];
      match FromArgMatches(argv[1], argv[2..], helpOnly)
      case None => Rejected
      case Some(app) =>
        if HasName(catalog, ReportedName(argv[1])) then Forward(argv[1..])
        else
          match Run(app)
          case Handle(h, staticTree) => BuiltIn(h, staticTree)
          case ExecuteExternal(args) => Forward(args)
  }

  /** A declared name or alias whose reported name is not a catalog entry
      runs a built-in handler, and it is the handler of the node the parser
      reports; an alias runs it even when a catalog entry has the alias as its
      name. A trigger runs the executor named by the token after `trigger`,
      and only deploy and login are handed the static tree. */
  lemma DeclaredNameRunsBuiltIn(argv: seq<string>, catalog: seq<Entry>, helpOnly: string)
    requires |argv| >= 2 && Declares(SpinAppSubcommands, argv[1]) && !HasName(catalog, ReportedName(argv[1]))
    requires argv[1] == "trigger" ==> |argv| >= 3 && Declares(TriggerSubcommands(helpOnly), argv[2])
    ensures Resolve(argv, catalog, helpOnly).BuiltIn?
    ensures NodeName(Serves(Resolve(argv, catalog, helpOnly).handler)) == ReportedName(argv[1])
    ensures Resolve(argv, catalog, helpOnly).handler.RunTrigger? ==>
      TriggerNodeName(Resolve(argv, catalog, helpOnly).handler.executor, helpOnly) == argv[2]
    ensures Resolve(argv, catalog, helpOnly).staticTree <==>
      ReportedName(argv[1]) == "deploy" || ReportedName(argv[1]) == "login"
  {
    var rest := argv[2..];
    DeclaredNamesRunBuiltIns(argv[1], rest, helpOnly);
    var app := FromArgMatches(argv[1], rest, helpOnly).value;
    RunFollowsParse(argv[1], rest, helpOnly);
    assert Resolve(argv, catalog, helpOnly) == BuiltIn(Run(app).handler, Run(app).staticTree);
  }

  /** Every catalog name forwards when it is what the parser reports: typed as
      itself, or as an alias of a built-in node of that name. The forwarded
      tokens are the arguments without the program name, the typed token
      included. A catalog entry named `trigger` still needs a trigger
      subcommand after it, since the parse comes first. */
  lemma CatalogNamesForward(store: Store, predefined: seq<(string, string)>, k: nat,
                            program: string, token: string, rest: seq<string>, helpOnly: string)
    requires k < |PluginCatalog(store, predefined)|
    requires ReportedName(token) == PluginCatalog(store, predefined)[k].name
    requires token == "trigger" ==> rest != [] && Declares(TriggerSubcommands(helpOnly), rest[0])
    ensures Resolve([program, token] + rest, PluginCatalog(store, predefined), helpOnly) == Forward([token] + rest)
  {
    var catalog := PluginCatalog(store, predefined);
    var argv := [program, token] + rest;
    assert argv[1] == token && argv[2..] == rest;
    assert argv[1..] == [token] + rest;
    assert HasName(catalog, ReportedName(argv[1]));
  }

  /** Every predefined plugin forwards, installed or not, when its name is
      what the parser reports. */
  lemma PredefinedNamesForward(store: Store, predefined: seq<(string, string)>, j: nat,
                               program: string, token: string, rest: seq<string>, helpOnly: string)
    requires j < |predefined| && ReportedName(token) == predefined[j].0
    requires token == "trigger" ==> rest != [] && Declares(TriggerSubcommands(helpOnly), rest[0])
    ensures Resolve([program, token] + rest, PluginCatalog(store, predefined), helpOnly) == Forward([token] + rest)
  {
    var argv := [program, token] + rest;
    CatalogListsPredefined(store, predefined, j);
    assert argv[1] == token && argv[2..] == rest;
    assert argv[1..] == [token] + rest;
  }

  /** Three consequences of parsing first: a catalog entry named `trigger`
      does not rescue a bare `trigger`; an entry named like an alias is never
      reached, since the alias is reported under its node's name; and an
      alias forwards when its node's name is a catalog entry. */
  lemma ParseBeforeLookup(helpOnly: string)
    ensures Resolve(["spin", "trigger"], [Entry("trigger", "")], helpOnly) == Rejected
    ensures Resolve(["spin", "template", "list"], [Entry("template", "")], helpOnly) == BuiltIn(RunTemplates, false)
    ensures Resolve(["spin", "template", "list"], [Entry("templates", "")], helpOnly) == Forward(["template", "list"])
  {
    assert ["spin", "template", "list"][1..] == ["template", "list"];
  }
}
