/** The statically declared command set of the Spin CLI: the `SpinApp` and
    `TriggerCommands` enums as a name table, the step that turns a parsed
    subcommand into a variant, and the dispatch of `SpinApp::run`. */
module Commands {
  import opened Options

  /** The trigger executors; each stands for one instantiation of the generic
      trigger command. */
  datatype TriggerCommands = Http | Redis | HelpArgsOnly

  /** The top-level variants. Their own arguments, which clap parses together
      with the subcommand name, are not modelled, so only the choice of
      variant is kept; `External` carries the raw tokens clap collected for an
      unknown name. */
  datatype SpinApp =
    | Templates | New | Add | Up | Deploy | Login | Registry | Build | Plugins
    | Trigger(trigger: TriggerCommands)
    | External(args: seq<string>)
    | Watch | Doctor

  /** A subcommand node of the static tree: its name, its aliases, and whether
      help hides it. */
  datatype Declared = Declared(name: string, aliases: seq<string>, hidden: bool)

  /** The top-level nodes in declaration order. `External` is clap's catch-all
      and has no node. */
  const SpinAppSubcommands: seq<Declared> := [
    Declared("templates", ["template"], false),
    Declared("new", [], false),
    Declared("add", [], false),
    Declared("up", [], false),
    Declared("deploy", [], false),
    Declared("login", [], false),
    Declared("registry", ["oci"], false),
    Declared("build", [], false),
    Declared("plugins", ["plugin"], false),
    Declared("trigger", [], true),
    Declared("watch", [], false),
    Declared("doctor", [], false)
  ]

  /** The nodes under the hidden `trigger` node. The name of the help-only
      trigger is a constant of a crate that is not part of this model, so it
      is a parameter here. */
  function TriggerSubcommands(helpOnly: string): seq<Declared>
  {
    [Declared("http", [], false), Declared("redis", [], false), Declared(helpOnly, [], true)]
  }

  /** The name of the node under `trigger` that selects an executor. */
  function TriggerNodeName(t: TriggerCommands, helpOnly: string): (r: string)
    ensures Declares(TriggerSubcommands(helpOnly), r)
  {
    var ts := TriggerSubcommands(helpOnly);
    match t
    case Http => assert ts[0].name == "http"; "http"
    case Redis => assert ts[1].name == "redis"; "redis"
    case HelpArgsOnly => assert ts[2].name == helpOnly; helpOnly
  }

  /** Whether `name` is the name or an alias of a node of `table`. */
  predicate Declares(table: seq<Declared>, name: string)
  {
    exists k :: 0 <= k < |table| && (table[k].name == name || name in table[k].aliases)
  }

  /** The name clap reports for a variant that has a node. */
  function NodeName(app: SpinApp): string
  {
    match app
    case Templates => "templates"
    case New => "new"
    case Add => "add"
    case Up => "up"
    case Deploy => "deploy"
    case Login => "login"
    case Registry => "registry"
    case Build => "build"
    case Plugins => "plugins"
    case Trigger(_) => "trigger"
    case External(_) => ""
    case Watch => "watch"
    case Doctor => "doctor"
  }

  /** The variant for a parsed top-level subcommand `name` followed by the
      tokens `rest`. A declared name or alias selects its variant; `trigger`
      needs one of its own subcommands next, and without one the parse is
      rejected (None); any other name becomes `External`, with the name kept
      as the first token. */
  function FromArgMatches(name: string, rest: seq<string>, helpOnly: string): (r: Option<SpinApp>)
    ensures r.None? ==> name == "trigger"
    ensures r.Some? && r.value.External? ==> r.value.args == [name] + rest
  {
    if name == "templates" || name == "template" then Some(Templates)
    else if name == "new" then Some(New)
    else if name == "add" then Some(Add)
    else if name == "up" then Some(Up)
    else if name == "deploy" then Some(Deploy)
    else if name == "login" then Some(Login)
    else if name == "registry" || name == "oci" then Some(Registry)
    else if name == "build" then Some(Build)
    else if name == "plugins" || name == "plugin" then Some(Plugins)
    else if name == "trigger" then
      if rest == [] then None
      else if rest[0] == "http" then Some(Trigger(Http))
      else if rest[0] == "redis" then Some(Trigger(Redis))
      else if rest[0] == helpOnly then Some(Trigger(HelpArgsOnly))
      else None
    else if name == "watch" then Some(Watch)
    else if name == "doctor" then Some(Doctor)
    else Some(External([name] + rest))
  }

  /** The position of the node a name or alias selects, or -1. */
  function DeclaredIndex(name: string): int
  {
    if name == "templates" || name == "template" then 0
    else if name == "new" then 1
    else if name == "add" then 2
    else if name == "up" then 3
    else if name == "deploy" then 4
    else if name == "login" then 5
    else if name == "registry" || name == "oci" then 6
    else if name == "build" then 7
    else if name == "plugins" || name == "plugin" then 8
    else if name == "trigger" then 9
    else if name == "watch" then 10
    else if name == "doctor" then 11
    else -1
  }

  lemma DeclaredIndexFindsNode(name: string)
    ensures Declares(SpinAppSubcommands, name) <==> DeclaredIndex(name) >= 0
    ensures DeclaredIndex(name) >= 0 ==>
      DeclaredIndex(name) < |SpinAppSubcommands|
      && (SpinAppSubcommands[DeclaredIndex(name)].name == name || name in SpinAppSubcommands[DeclaredIndex(name)].aliases)
  {
    var t := SpinAppSubcommands;
    if DeclaredIndex(name) < 0 {
      forall i | 0 <= i < |t| ensures t[i].name != name && name !in t[i].aliases { }
    } else {
      assert t[DeclaredIndex(name)].name == name || name in t[DeclaredIndex(name)].aliases;
    }
  }

  lemma TriggerSubcommandFound(token: string, helpOnly: string)
    ensures Declares(TriggerSubcommands(helpOnly), token) <==> token == "http" || token == "redis" || token == helpOnly
  {
    var ts := TriggerSubcommands(helpOnly);
    if token == "http" || token == "redis" || token == helpOnly {
      assert ts[if token == "http" then 0 else if token == "redis" then 1 else 2].name == token;
    } else {
      forall i | 0 <= i < |ts| ensures ts[i].name != token && token !in ts[i].aliases { }
    }
  }

  /** Whether `token` is an alias of a node of the top-level table. */
  predicate IsAlias(token: string)
  {
    exists k :: 0 <= k < |SpinAppSubcommands| && token in SpinAppSubcommands[k].aliases
  }

  /** The names in the top-level table are pairwise different, names and
      aliases alike (clap refuses a tree that repeats one), and `trigger` is
      the only hidden node. */
  lemma SpinAppSubcommandsWellFormed()
    ensures forall i, j :: 0 <= i < j < |SpinAppSubcommands| ==>
      SpinAppSubcommands[i].name != SpinAppSubcommands[j].name
      && SpinAppSubcommands[i].name !in SpinAppSubcommands[j].aliases
      && SpinAppSubcommands[j].name !in SpinAppSubcommands[i].aliases
      && forall a :: a in SpinAppSubcommands[i].aliases ==> a !in SpinAppSubcommands[j].aliases
    ensures forall k :: 0 <= k < |SpinAppSubcommands| ==>
      SpinAppSubcommands[k].name !in SpinAppSubcommands[k].aliases
    ensures forall k :: 0 <= k < |SpinAppSubcommands| ==>
      (SpinAppSubcommands[k].hidden <==> SpinAppSubcommands[k].name == "trigger")
  {
  }

  /** The only aliases are `template`, `oci` and `plugin`. */
  lemma AliasesOfTable(token: string)
    ensures IsAlias(token) <==> token == "template" || token == "oci" || token == "plugin"
  {
    var t := SpinAppSubcommands;
    if IsAlias(token) {
      var k :| 0 <= k < |t| && token in t[k].aliases;
    } else {
      assert "template" in t[0].aliases && "oci" in t[6].aliases && "plugin" in t[8].aliases;
    }
  }

  /** The help-only trigger can be selected exactly when its name differs from
      the two visible trigger names; clap, like this table, needs the three
      names to be different. */
  lemma HelpOnlySelectable(rest: seq<string>, helpOnly: string)
    ensures FromArgMatches("trigger", [helpOnly] + rest, helpOnly) == Some(Trigger(HelpArgsOnly))
      <==> helpOnly != "http" && helpOnly != "redis"
  {
  }

  /** The name clap reports for a parsed top-level token: the node's own name
      when the token is a name or an alias of that node, the token itself when
      it is external. */
  function ReportedName(token: string): (r: string)
    ensures !Declares(SpinAppSubcommands, token) ==> r == token
    ensures Declares(SpinAppSubcommands, token) ==>
      exists k :: 0 <= k < |SpinAppSubcommands| && SpinAppSubcommands[k].name == r
        && (token == r || token in SpinAppSubcommands[k].aliases)
  {
    DeclaredIndexFindsNode(token);
    var k := DeclaredIndex(token);
    if 0 <= k < |SpinAppSubcommands| then SpinAppSubcommands[k].name else token
  }

  /** An alias is never reported: a token is reported as itself exactly when
      it is no alias, and whatever is reported is no alias. */
  lemma ReportedNameNeverAlias(token: string)
    ensures ReportedName(token) == token <==> !IsAlias(token)
    ensures !IsAlias(ReportedName(token))
  {
    AliasesOfTable(token);
    AliasesOfTable(ReportedName(token));
    DeclaredIndexFindsNode(token);
  }

  /** The reported name is the name of the node whose variant the parse
      selects, and the token itself for an external name. */
  lemma ReportedNameOfParse(name: string, rest: seq<string>, helpOnly: string)
    requires FromArgMatches(name, rest, helpOnly).Some?
    ensures var app := FromArgMatches(name, rest, helpOnly).value;
      && (app.External? ==> ReportedName(name) == name)
      && (!app.External? ==> ReportedName(name) == NodeName(app))
  {
    FromArgMatchesExternal(name, rest, helpOnly);
    if !FromArgMatches(name, rest, helpOnly).value.External? {
      FromArgMatchesSelectsNode(name, rest, helpOnly);
    }
  }

  /** Only a `trigger` that is not followed by one of its own subcommands is
      rejected. */
  lemma FromArgMatchesRejects(name: string, rest: seq<string>, helpOnly: string)
    ensures FromArgMatches(name, rest, helpOnly).None? <==>
      name == "trigger" && (rest == [] || !Declares(TriggerSubcommands(helpOnly), rest[0]))
  {
    if rest != [] {
      TriggerSubcommandFound(rest[0], helpOnly);
    }
  }

  /** A name is external exactly when it is no declared name or alias. */
  lemma FromArgMatchesExternal(name: string, rest: seq<string>, helpOnly: string)
    ensures var r := FromArgMatches(name, rest, helpOnly);
      Declares(SpinAppSubcommands, name) <==> r.None? || !r.value.External?
  {
    DeclaredIndexFindsNode(name);
  }

  /** A declared name or alias selects the variant of its own node, and a
      trigger executor is the one whose node name follows `trigger`. */
  lemma FromArgMatchesSelectsNode(name: string, rest: seq<string>, helpOnly: string)
    requires FromArgMatches(name, rest, helpOnly).Some? && !FromArgMatches(name, rest, helpOnly).value.External?
    ensures var k := DeclaredIndex(name);
      0 <= k < |SpinAppSubcommands|
      && SpinAppSubcommands[k].name == NodeName(FromArgMatches(name, rest, helpOnly).value)
      && (name == SpinAppSubcommands[k].name || name in SpinAppSubcommands[k].aliases)
    ensures var r := FromArgMatches(name, rest, helpOnly).value;
      r.Trigger? ==> rest != [] && rest[0] == TriggerNodeName(r.trigger, helpOnly)
  {
    var t := SpinAppSubcommands;
    var r := FromArgMatches(name, rest, helpOnly).value;
    if name == "templates" || name == "template" {
      assert r == Templates && t[0] == Declared("templates", ["template"], false);
    } else if name == "new" {
      assert r == New && t[1].name == name;
    } else if name == "add" {
      assert r == Add && t[2].name == name;
    } else if name == "up" {
      assert r == Up && t[3].name == name;
    } else if name == "deploy" {
      assert r == Deploy && t[4].name == name;
    } else if name == "login" {
      assert r == Login && t[5].name == name;
    } else if name == "registry" || name == "oci" {
      assert r == Registry && t[6] == Declared("registry", ["oci"], false);
    } else if name == "build" {
      assert r == Build && t[7].name == name;
    } else if name == "plugins" || name == "plugin" {
      assert r == Plugins && t[8] == Declared("plugins", ["plugin"], false);
    } else if name == "trigger" {
      assert r.Trigger? && t[9].name == name;
    } else if name == "watch" {
      assert r == Watch && t[10].name == name;
    } else {
      assert name == "doctor";
      assert r == Doctor && t[11].name == name;
    }
  }

  /** The handlers a built-in variant runs; their bodies are not part of this
      model. */
  datatype Handler =
    | RunTemplates | RunNew | RunAdd | RunUp | RunDeploy | RunLogin | RunRegistry | RunBuild
    | RunPlugins | RunTrigger(executor: TriggerCommands) | RunWatch | RunDoctor

  /** What `SpinApp::run` does: run a handler, or execute an external
      subcommand with the given tokens. `staticTree` records that the handler
      is handed the undecorated command tree. */
  datatype Dispatch = Handle(handler: Handler, staticTree: bool) | ExecuteExternal(args: seq<string>)

  /** The variant a handler serves. */
  function Serves(h: Handler): SpinApp
  {
    match h
    case RunTemplates => Templates
    case RunNew => New
    case RunAdd => Add
    case RunUp => Up
    case RunDeploy => Deploy
    case RunLogin => Login
    case RunRegistry => Registry
    case RunBuild => Build
    case RunPlugins => Plugins
    case RunTrigger(t) => Trigger(t)
    case RunWatch => Watch
    case RunDoctor => Doctor
  }

  /** The `match` of `SpinApp::run`: every named variant runs its own handler;
      `External` executes the external subcommand with its tokens unchanged. */
  function Run(app: SpinApp): (r: Dispatch)
    ensures r.ExecuteExternal? <==> app.External?
    ensures app.External? ==> r.args == app.args
    ensures r.Handle? ==> Serves(r.handler) == app
    ensures r.Handle? ==> (r.staticTree <==> app == Deploy || app == Login)
  {
    match app
    case Templates => Handle(RunTemplates, false)
    case Up => Handle(RunUp, false)
    case New => Handle(RunNew, false)
    case Add => Handle(RunAdd, false)
    case Deploy => Handle(RunDeploy, true)
    case Login => Handle(RunLogin, true)
    case Registry => Handle(RunRegistry, false)
    case Build => Handle(RunBuild, false)
    case Trigger(t) => Handle(RunTrigger(t), false)
    case Plugins => Handle(RunPlugins, false)
    case External(args) => ExecuteExternal(args)
    case Watch => Handle(RunWatch, false)
    case Doctor => Handle(RunDoctor, false)
  }

  /** Distinct built-in variants never share a handler. */
  lemma RunInjective(a: SpinApp, b: SpinApp)
    requires Run(a).Handle? && Run(b).Handle? && a != b
    ensures Run(a).handler != Run(b).handler
  {
    assert Serves(Run(a).handler) == a;
    assert Serves(Run(b).handler) == b;
  }

  /** The handler a parsed built-in runs is the one of the node the parser
      reports; a trigger runs the executor named after `trigger`, and only
      deploy and login are handed the static tree. */
  lemma RunFollowsParse(name: string, rest: seq<string>, helpOnly: string)
    requires FromArgMatches(name, rest, helpOnly).Some? && !FromArgMatches(name, rest, helpOnly).value.External?
    ensures var d := Run(FromArgMatches(name, rest, helpOnly).value);
      && d.Handle?
      && NodeName(Serves(d.handler)) == ReportedName(name)
      && (d.handler.RunTrigger? ==> rest != [] && TriggerNodeName(d.handler.executor, helpOnly) == rest[0])
      && (d.staticTree <==> ReportedName(name) == "deploy" || ReportedName(name) == "login")
  {
    ReportedNameOfParse(name, rest, helpOnly);
    FromArgMatchesSelectsNode(name, rest, helpOnly);
  }

  /** Every declared top-level name and alias reaches a built-in handler, once
      `trigger` is followed by one of its own subcommands. */
  lemma DeclaredNamesRunBuiltIns(name: string, rest: seq<string>, helpOnly: string)
    requires Declares(SpinAppSubcommands, name)
    requires name == "trigger" ==> rest != [] && Declares(TriggerSubcommands(helpOnly), rest[0])
    ensures FromArgMatches(name, rest, helpOnly).Some?
    ensures Run(FromArgMatches(name, rest, helpOnly).value).Handle?
  {
    FromArgMatchesRejects(name, rest, helpOnly);
    FromArgMatchesExternal(name, rest, helpOnly);
  }
}
