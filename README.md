# Spin CLI command resolution, modelled in Dafny

This project models the command-resolution front end of the Spin CLI
(`src/bin/spin.rs`): how the plugin catalog is assembled, how the command tree
gains one synthetic leaf per catalog entry, how a parsed invocation is routed
to a built-in handler or forwarded to an external plugin, and how the causes
of a top-level error are printed.

- `options.dfy` (`Options`): Rust's `Option`, with `unwrap_or`.
- `catalog.dfy` (`Catalog`): `PluginHelpEntry::from_plugin`,
  `hide_plugin_in_help`, `installed_plugin_help_entries` and
  `plugin_help_entries`. The plugin store is an input (`Store`): the manager
  may not open, the listing may fail, or it yields manifests in store order.
  The predefined externals are an input sequence of `(name, about)` pairs. The
  loop that pushes predefined pairs is a method proved against the function
  `AppendPredefined`; the properties of the catalog are lemmas about that
  function.
- `commands.dfy` (`Commands`): the `SpinApp` and `TriggerCommands` enums as a
  name table (names, aliases, hidden flags), the step from a parsed subcommand
  to a variant, and the `match` of `SpinApp::run` as a tag for the handler
  that runs.
- `help_tree.dfy` (`HelpTree`): the loop in the entry routine that adds one
  leaf named `name*` per catalog entry and the footer
  `* implemented via plugin` when the catalog is not empty. The tree is a
  plain description (node names, about texts, footer), not clap.
- `resolver.dfy` (`Resolver`): the decision in the entry routine. The merged
  tree parses first, and a usage error stops there. Then the name the parser
  reports for the top-level subcommand is looked up in the catalog. For an
  alias, that name is the node's own name. A hit forwards the process
  arguments without the program name. Anything else goes through
  `SpinApp::run`, where `External` forwards too.
- `error_chain.dfy` (`ErrorChain`): `print_error_chain`, with the error
  stream modelled as the sequence of lines written to it.

Behaviour that is easy to misread, as the code has it:

- The `trigger-` prefix is only applied to installed manifests
  (`src/bin/spin.rs:170`). A predefined entry with that prefix is kept
  (`Catalog.CatalogListsPredefined` holds for every predefined name).
- Forwarding drops only the program name (`args().skip(1)`, line 67), so
  `execute_external_subcommand` receives the typed subcommand token as its
  first element (`Resolver.CatalogNamesForward`). What the plugin process
  then receives is decided inside that function, which is not part of this
  model.
- Catalog names are distinct only when the installed names are; installed
  entries are never deduplicated among themselves
  (`Catalog.CatalogNamesDistinct` requires it).
- The catalog is consulted after parsing (lines 63-66), with the name the
  parser reports. An alias is reported under its node's name. So `spin
  template list` forwards when the catalog lists `templates`, and a catalog entry
  named `template`, `oci` or `plugin` is never reached. A catalog entry named
  `trigger` is reached only with a trigger subcommand after it, and a built-in
  name that is a catalog entry forwards only once its arguments parse
  (`Resolver.ParseBeforeLookup`, `Commands.ReportedNameNeverAlias`).

## Model

| member | source | states |
|---|---|---|
| `Catalog.FromPlugin` | src/bin/spin.rs:169-178 | a manifest yields no entry exactly when its name starts with `trigger-`; otherwise the entry has the manifest's name and its description, or `""` when it has none |
| `Catalog.VisibleEntries` | src/bin/spin.rs:203-206 | an entry is in the filtered list exactly when some manifest maps to it; the list is no longer than the manifests |
| `Catalog.VisibleEntriesConcat` | src/bin/spin.rs:203-206 | filtering keeps store order: filtering a concatenation is the concatenation of the filtered parts |
| `Catalog.VisibleEntriesSingle` | src/bin/spin.rs:169-178 | one manifest contributes its entry, or nothing when it is hidden |
| `Catalog.InstalledEntries` | src/bin/spin.rs:195-207 | an entry is installed exactly when the store was listed and some listed manifest maps to it; an unopenable or unlistable store gives no entries |
| `Catalog.InstalledNeverHidden` | src/bin/spin.rs:209-211 | no installed entry's name starts with `trigger-` |
| `Catalog.HideInHelp` | src/bin/spin.rs:209-211 | a manifest is hidden exactly when its name starts with `trigger-` |
| `Catalog.HasName` | src/bin/spin.rs:188 | the membership scan holds exactly when some entry carries the name |
| `Catalog.AppendPredefined` | src/bin/spin.rs:187-191 | the loop's specification: the result is at least as long as what is present and at most one entry longer per predefined pair; its other properties are the `AppendPredefined*` lemmas below |
| `Catalog.PluginCatalog` | src/bin/spin.rs:185-193 | the catalog has between the installed count and the installed count plus the predefined count entries; its other properties are the `Catalog*` lemmas below |
| `Catalog.PluginHelpEntries` | src/bin/spin.rs:185-193 | the pushing loop returns the installed entries followed by the predefined pairs it appends, as `AppendPredefined` specifies |
| `Catalog.AppendPredefinedKeepsPrefix` | src/bin/spin.rs:186-192 | entries already present stay, in order, as a prefix of the result |
| `Catalog.AppendPredefinedCovers` | src/bin/spin.rs:187-191 | every name already present and every predefined name is in the result |
| `Catalog.AppendPredefinedSource` | src/bin/spin.rs:187-191 | each appended entry is a predefined pair whose name occurs nowhere before it |
| `Catalog.AppendPredefinedDistinct` | src/bin/spin.rs:187-191 | if the names present are distinct, the result's names are distinct |
| `Catalog.AppendPredefinedFirstWins` | src/bin/spin.rs:187-191 | a name already present keeps its entry; a new name gets the about text of its first predefined pair |
| `Catalog.FirstIndex` | src/bin/spin.rs:187 | the first position of a name in the predefined table, or its length: every earlier pair has another name |
| `Catalog.AppendPredefinedOrder` | src/bin/spin.rs:187-191 | the appended entries keep the predefined declaration order: an entry appended earlier first occurs earlier in the table |
| `Catalog.CatalogStartsWithInstalled` | src/bin/spin.rs:185-193 | the installed entries are a prefix of the catalog |
| `Catalog.CatalogListsPredefined` | src/bin/spin.rs:185-193 | every predefined name is in the catalog, installed or not and whatever its prefix |
| `Catalog.CatalogPrefersInstalled` | src/bin/spin.rs:185-193 | an installed name keeps its installed entry, and no appended entry carries it |
| `Catalog.CatalogNamesDistinct` | src/bin/spin.rs:185-193 | distinct installed names give a catalog with distinct names |
| `Catalog.CatalogWithoutStore` | src/bin/spin.rs:195-201 | a failed store yields exactly the deduplicated predefined table, with distinct names, covering every predefined name |
| `Commands.SpinAppSubcommandsWellFormed` | src/bin/spin.rs:104-125 | the top-level names are pairwise different, no name is an alias of any node (its own included), aliases of different nodes differ, and `trigger` is the only hidden node |
| `Commands.AliasesOfTable` | src/bin/spin.rs:104-125 | the aliases are exactly `template`, `oci` and `plugin` |
| `Commands.DeclaredIndexFindsNode` | src/bin/spin.rs:104-125 | a token is declared exactly when the lookup finds a node, and that node has the token as its name or an alias |
| `Commands.TriggerSubcommandFound` | src/bin/spin.rs:127-133 | a token is a trigger subcommand exactly when it is `http`, `redis` or the help-only trigger name |
| `Commands.HelpOnlySelectable` | src/bin/spin.rs:127-133 | `trigger <help-only name>` selects the help-only executor exactly when that name is neither `http` nor `redis` |
| `Commands.ReportedName` | src/bin/spin.rs:65 | the name the parser reports is the token itself for an undeclared token, and otherwise the name of a node that has the token as its name or an alias |
| `Commands.ReportedNameNeverAlias` | src/bin/spin.rs:65-66 | a token is reported as itself exactly when it is no alias, and no reported name is an alias |
| `Commands.ReportedNameOfParse` | src/bin/spin.rs:65-72 | the reported name is the node name of the variant the parse selects, or the token itself when the variant is `External` |
| `Commands.FromArgMatches` | src/bin/spin.rs:104-133 | only `trigger` can be rejected; an unknown name becomes `External` with the name as its first token |
| `Commands.FromArgMatchesRejects` | src/bin/spin.rs:119-133 | a parse is rejected exactly when `trigger` is not followed by `http`, `redis` or the help-only trigger name |
| `Commands.FromArgMatchesExternal` | src/bin/spin.rs:104-125 | a name is external exactly when it is no declared name or alias |
| `Commands.TriggerNodeName` | src/bin/spin.rs:127-133 | the name that selects each trigger executor is a node of the trigger sub-table |
| `Commands.FromArgMatchesSelectsNode` | src/bin/spin.rs:104-133 | a declared name or alias (`template`, `oci`, `plugin`) selects the variant of the node that declares it; `trigger` selects the executor whose node name is the next token (`http` gives `Http`, `redis` gives `Redis`) |
| `Commands.Run` | src/bin/spin.rs:137-155 | `External` and only it forwards, with its tokens unchanged; every other variant runs the handler that serves it; deploy and login get the static tree |
| `Commands.RunInjective` | src/bin/spin.rs:138-154 | distinct built-in variants run distinct handlers |
| `Commands.RunFollowsParse` | src/bin/spin.rs:104-154 | a parsed built-in runs the handler of the node the parser reports; a trigger runs the executor named by the token after `trigger` (lines 146-148); only deploy and login get the static tree (lines 143-144) |
| `Commands.DeclaredNamesRunBuiltIns` | src/bin/spin.rs:104-154 | every declared name or alias reaches a built-in handler once a trigger is named |
| `HelpTree.DisplayText` | src/bin/spin.rs:180-182 | the display text is the entry name followed by one `*` |
| `HelpTree.DisplayTextRoundTrip` | src/bin/spin.rs:180-182 | dropping the final `*` gives the entry name back |
| `HelpTree.DisplayTextInjective` | src/bin/spin.rs:180-182 | different names give different display texts |
| `HelpTree.BuiltInNamesUnmarked` | src/bin/spin.rs:104-118 | no declared name or alias contains `*` |
| `HelpTree.DisplayTextNeverDeclared` | src/bin/spin.rs:45-57 | no synthetic leaf has a declared name or alias, even for a plugin named like a built-in |
| `HelpTree.SpinAppCommand` | src/bin/spin.rs:45 | the static tree lists exactly the declared top-level nodes, in declaration order, with no footer |
| `HelpTree.PluginSubcommand` | src/bin/spin.rs:47-55 | a catalog entry's leaf carries its about text under a display name of the entry name plus one character, which no declared node answers to |
| `HelpTree.BuildCommand` | src/bin/spin.rs:45-61 | the tree keeps the static nodes first and adds one leaf per entry, in catalog order, named `name*` with its about text; the footer is `* implemented via plugin` exactly when the catalog is not empty, that is, exactly when some plugin leaf exists |
| `Resolver.Resolve` | src/bin/spin.rs:63-72 | a parse error comes first: a missing subcommand or a `trigger` without one of its own subcommands is rejected whatever the catalog holds; otherwise a reported name in the catalog forwards the arguments minus the program name; a forward always carries exactly those tokens; a built-in runs only for a declared token whose reported name is not in the catalog; an undeclared token always forwards. The parse of each variant's own arguments is not modelled, so nothing else is rejected |
| `Resolver.DeclaredNameRunsBuiltIn` | src/bin/spin.rs:63-154 | a declared name or alias whose reported name is not in the catalog runs the handler of the node the parser reports, even when the alias itself is a catalog name; a trigger runs the executor named by the token after `trigger`; the static tree is handed over exactly for `deploy` and `login` |
| `Resolver.CatalogNamesForward` | src/bin/spin.rs:63-69 | a token reported as a catalog name forwards `[token] + rest`, also when the token is an alias of that name; `trigger` needs a trigger subcommand after it |
| `Resolver.PredefinedNamesForward` | src/bin/spin.rs:63-69 | a token reported as a predefined name forwards, whether that plugin is installed or not |
| `Resolver.ParseBeforeLookup` | src/bin/spin.rs:63-72 | a bare `trigger` is rejected even with a catalog entry `trigger`; `template` runs the templates handler even with a catalog entry `template`; `template` forwards with a catalog entry `templates` |
| `ErrorChain.Chain` | src/bin/spin.rs:76-79 | the chain starts with the error's message; it has a second element exactly when the error has a source, and continues with the source's chain |
| `ErrorChain.CauseLine` | src/bin/spin.rs:80-84 | a cause line ends with the cause, is at least six columns longer, starts with the six-space indent when unnumbered (the lone-cause layout of line 83) and puts `": "` right before the cause when numbered |
| `ErrorChain.PrintErrorChain` | src/bin/spin.rs:75-87 | nothing is written without a cause; otherwise the header `\nCaused by:` and exactly one line per cause, in chain order, numbered from 0 exactly when there are two causes or more |
| `ErrorChain.Decimal` | src/bin/spin.rs:81 | the decimal text of a number is a non-empty string of digits |
| `ErrorChain.PadLeft` | src/bin/spin.rs:81 | `{:>4}` right-aligns with spaces and keeps a longer text whole |
| `ErrorChain.DecimalRoundTrip` | src/bin/spin.rs:81 | reading the decimal text back gives the number |
| `ErrorChain.CauseLineMessageColumn` | src/bin/spin.rs:80-84 | numbered and indented lines both put the message at column 6 (below 10000 causes) |
| `ErrorChain.CauseLineNumber` | src/bin/spin.rs:81 | a numbered line shows `": "` at columns 4-5 and its index, right-aligned, before it |

## Left out

- Logging setup, terminal detection and ANSI handling (lines 34-41): output configuration only.
- The async runtime, `terminal::error!` of the top message and `std::process::exit(1)` (lines 24-31): process plumbing; the model starts at the cause lines.
- clap itself: its parsing, `allow_hyphen_values`, `disable_help_flag`, `multiple_values`, help rendering, its own `--help`/`--version` flags and its generated `help` subcommand. The model takes the token after the program name as the parsed top-level subcommand and keeps only the declared name table and the decision taken after parsing. A plugin leaf's pass-through settings are stated in a comment, not modelled.
- Resolver.Resolve: clap's parsing of each variant's own arguments (line 63) is not modelled, so `Resolve` never rejects on them; `spin up --no-such-flag` is a usage error in the program and a `BuiltIn` here, and likewise a forward for a catalog name that is also a built-in name. Only the choice of variant is kept.
- `PluginManager::try_default` and `installed_manifests`: file-system access in another crate, modelled as the `Store` input.
- `predefined_externals`, `execute_external_subcommand` and every handler's `run()`: their bodies are not part of this model; they appear as the predefined input, `Forward` and handler tags. That running the help-only trigger for real is rejected lives in its handler and is not modelled.
- The value of `HELP_ARGS_ONLY_TRIGGER_TYPE`: defined in a crate that is not part of this model, so it is a parameter (`helpOnly`). It is not constrained; `Commands.HelpOnlySelectable` shows that the help-only executor is reachable exactly when the name differs from `http` and `redis`, which clap also needs.
- Invoking a plugin leaf by its display name (`spin foo*`): what clap's derived parser makes of those matches is not modelled; the model treats the token like any other undeclared name.
- `build_info`, `VERSION`, `version()` and `lazy_static` (lines 89-96, 158-161): constant formatting.
- `std::env::args()`: an input sequence.
- Commands.FromArgMatches: only the `trigger` sub-tree is parsed one level down; a declared name such as `templates` without its own subcommand is accepted here, where clap would reject it while parsing.
