/** The command tree of one run: the static Spin command with one synthetic
    leaf per catalog entry, and a footer when there are any. clap's parsing
    and rendering are not modelled; the tree is a plain description. */
module HelpTree {
  import opened Options
  import opened Catalog
  import opened Commands

  /** A subcommand node. A plugin leaf is shown under its display name and
      takes every following token as a value: values that look like flags,
      `--help` itself, and any number of them. */
  datatype Node =
    | BuiltIn(decl: Declared)
    | PluginLeaf(display: string, about: string)

  datatype Command = Command(name: string, subcommands: seq<Node>, afterHelp: Option<string>)

  /** The marker that ends the display name of a plugin leaf. */
  const PluginMarker: char := '*'

  const PluginFooter: string := "* implemented via plugin"

  /** A catalog entry is shown as its name followed by a single marker. */
  function DisplayText(e: Entry): (r: string)
    ensures |r| == |e.name| + 1
    ensures r[..|e.name|] == e.name && r[|e.name|] == PluginMarker
  {
    e.name + [PluginMarker]
  }

  /** The static tree, before any plugin leaf is added. */
  function SpinAppCommand(): (cmd: Command)
    ensures |cmd.subcommands| == |SpinAppSubcommands|
    ensures forall k :: 0 <= k < |cmd.subcommands| ==> cmd.subcommands[k] == BuiltIn(SpinAppSubcommands[k])
    ensures cmd.afterHelp == None
  {
    Command("spin", seq(|SpinAppSubcommands|, k requires 0 <= k < |SpinAppSubcommands| => BuiltIn(SpinAppSubcommands[k])), None)
  }

  /** The leaf for one catalog entry: a plugin leaf with the entry's about
      text, under a display name that no declared node answers to. */
  function PluginSubcommand(e: Entry): (n: Node)
    ensures n.PluginLeaf? && n.about == e.about
    ensures |n.display| == |e.name| + 1 && n.display[..|e.name|] == e.name
    ensures !Declares(SpinAppSubcommands, n.display)
  {
    DisplayTextNeverDeclared(e);
    PluginLeaf(DisplayText(e), e.about)
  }

  /** Builds the tree as the entry routine does: one leaf per entry, in
      catalog order, after the static nodes, and the footer exactly when a
      leaf was added. */
  method BuildCommand(entries: seq<Entry>) returns (cmd: Command)
    ensures cmd.name == SpinAppCommand().name
    ensures |cmd.subcommands| == |SpinAppSubcommands| + |entries|
    ensures cmd.subcommands[..|SpinAppSubcommands|] == SpinAppCommand().subcommands
    ensures forall k :: 0 <= k < |entries| ==>
      cmd.subcommands[|SpinAppSubcommands| + k] == PluginLeaf(DisplayText(entries[k]), entries[k].about)
    ensures cmd.afterHelp.Some? <==> entries != []
    ensures cmd.afterHelp.Some? ==> cmd.afterHelp.value == PluginFooter
    ensures cmd.afterHelp.Some? <==> exists k :: 0 <= k < |cmd.subcommands| && cmd.subcommands[k].PluginLeaf?
  {
    var base := SpinAppCommand();
    cmd := base;
    var i := 0;
    while i < |entries|
      invariant 0 <= i <= |entries|
      invariant cmd.name == base.name && cmd.afterHelp == None
      invariant |cmd.subcommands| == |base.subcommands| + i
      invariant cmd.subcommands[..|base.subcommands|] == base.subcommands
      invariant forall k :: 0 <= k < i ==> cmd.subcommands[|base.subcommands| + k] == PluginSubcommand(entries[k])
    {
      cmd := cmd.(subcommands := cmd.subcommands + [PluginSubcommand(entries[i])]);
      i := i + 1;
    }
    if entries != [] {
      cmd := cmd.(afterHelp := Some(PluginFooter));
      assert cmd.subcommands[|base.subcommands| + 0] == PluginSubcommand(entries[0]);
    } else {
      assert cmd.subcommands == base.subcommands;
    }
  }

  // ---------------------------------------------------------------------------
  // Properties of the display names

  /** The entry name is recovered by dropping the final marker. */
  lemma DisplayTextRoundTrip(e: Entry)
    ensures var d := DisplayText(e); d[..|d| - 1] == e.name && d[|d| - 1] == PluginMarker
  {
  }

  /** Entries with different names get different display names. */
  lemma DisplayTextInjective(a: Entry, b: Entry)
    requires a.name != b.name
    ensures DisplayText(a) != DisplayText(b)
  {
    DisplayTextRoundTrip(a);
    DisplayTextRoundTrip(b);
  }

  /** No declared name or alias contains the marker. */
  lemma BuiltInNamesUnmarked(k: nat)
    requires k < |SpinAppSubcommands|
    ensures PluginMarker !in SpinAppSubcommands[k].name
    ensures forall a :: a in SpinAppSubcommands[k].aliases ==> PluginMarker !in a
  {
  }

  /** A plugin leaf never takes the place of a declared node: its display name
      is no declared name or alias, even when the plugin has the same name as
      a built-in. */
  lemma DisplayTextNeverDeclared(e: Entry)
    ensures !Declares(SpinAppSubcommands, DisplayText(e))
  {
    var d := DisplayText(e);
    assert d[|d| - 1] == PluginMarker;
    forall k | 0 <= k < |SpinAppSubcommands|
      ensures SpinAppSubcommands[k].name != d && d !in SpinAppSubcommands[k].aliases
    {
      BuiltInNamesUnmarked(k);
      assert PluginMarker in d;
    }
  }
}
