/** The plugin catalog of the Spin CLI front end: the installed plugins that are
    shown in help, followed by the predefined external plugins that are not
    installed. First occurrence of a name wins. */
module Catalog {
  import opened Options

  /** What the plugin manager reports about one installed plugin. */
  datatype Manifest = Manifest(name: string, description: Option<string>)

  /** The outcome of opening the plugin manager and listing its store: either
      step may fail, and both failures mean "no installed plugins". */
  datatype Store = ManagerUnavailable | ListingFailed | Listed(manifests: seq<Manifest>)

  /** One plugin-backed pseudo-subcommand of the help tree. */
  datatype Entry = Entry(name: string, about: string)

  /** Plugins whose names start with this prefix provide trigger backends and
      are kept out of help. */
  const HiddenPrefix: string := "trigger-"

  /** Whether a manifest is kept out of help: its name starts with the
      reserved prefix. */
  predicate HideInHelp(m: Manifest)
    ensures HideInHelp(m) <==> |m.name| >= 8 && m.name[..8] == "trigger-"
  {
    HiddenPrefix <= m.name
  }

  /** An entry for a manifest unless it is hidden; the about text is the
      description, or empty when the manifest declares none. */
  function FromPlugin(m: Manifest): (r: Option<Entry>)
    ensures r.None? <==> (|m.name| >= 8 && m.name[..8] == "trigger-")
    ensures r.Some? ==> r.value.name == m.name
    ensures r.Some? && m.description.Some? ==> r.value.about == m.description.value
    ensures r.Some? && m.description.None? ==> r.value.about == ""
  {
    if HideInHelp(m) then None
    else Some(Entry(m.name, m.description.GetOr("")))
  }

  /** The filter-map over the installed manifests, in store order. */
  function VisibleEntries(ms: seq<Manifest>): (r: seq<Entry>)
    ensures |r| <= |ms|
    ensures forall e :: e in r <==> exists i :: 0 <= i < |ms| && FromPlugin(ms[i]) == Some(e)
  {
    if ms == [] then []
    else
      var rest := VisibleEntries(ms[1..]);
      assert forall i :: 0 < i < |ms| ==> ms[i] == ms[1..][i - 1];
      match FromPlugin(ms[0])
      case None => rest
      case Some(e) => [e] + rest
  }

  /** The entries of the installed plugins; a store that cannot be opened or
      listed degrades to no entries, never to an error. */
  function InstalledEntries(store: Store): (r: seq<Entry>)
    ensures forall e :: e in r <==>
      store.Listed? && exists i :: 0 <= i < |store.manifests| && FromPlugin(store.manifests[i]) == Some(e)
  {
    match store
    case Listed(ms) => VisibleEntries(ms)
    case _ => []
  }

  /** Whether some entry already carries `name` (the `iter().any` scan). */
  predicate HasName(entries: seq<Entry>, name: string)
    ensures HasName(entries, name) <==> exists k :: 0 <= k < |entries| && entries[k].name == name
  {
    if entries == [] then false
    else entries[0].name == name || HasName(entries[1..], name)
  }

  /** The first entry carrying `name`, if any: the one help and dispatch see. */
  function Find(entries: seq<Entry>, name: string): (r: Option<Entry>)
    ensures r.Some? <==> HasName(entries, name)
    ensures r.Some? ==> r.value in entries && r.value.name == name
  {
    if entries == [] then None
    else if entries[0].name == name then Some(entries[0])
    else Find(entries[1..], name)
  }

  /** No two entries share a name. */
  predicate NamesDistinct(entries: seq<Entry>)
  {
    forall i, j :: 0 <= i < j < |entries| ==> entries[i].name != entries[j].name
  }

  /** The specification of the loop over the predefined table: each
      (name, about) pair is pushed exactly when no entry built so far has that
      name. */
  function AppendPredefined(entries: seq<Entry>, predefined: seq<(string, string)>): (r: seq<Entry>)
    ensures |entries| <= |r| <= |entries| + |predefined|
    decreases |predefined|
  {
    if predefined == [] then entries
    else
      var (name, about) := predefined[0];
      var next := if HasName(entries, name) then entries else entries + [Entry(name, about)];
      AppendPredefined(next, predefined[1..])
  }

  /** The whole catalog for one run. */
  function PluginCatalog(store: Store, predefined: seq<(string, string)>): (r: seq<Entry>)
    ensures |InstalledEntries(store)| <= |r| <= |InstalledEntries(store)| + |predefined|
  {
    AppendPredefined(InstalledEntries(store), predefined)
  }

  /** Builds the catalog as the source does: start from the installed entries
      and push each predefined pair whose name is not yet present. */
  method PluginHelpEntries(store: Store, predefined: seq<(string, string)>) returns (entries: seq<Entry>)
    ensures entries == PluginCatalog(store, predefined)
  {
    entries := InstalledEntries(store);
    var i := 0;
    while i < |predefined|
      invariant 0 <= i <= |predefined|
      invariant AppendPredefined(entries, predefined[i..]) == PluginCatalog(store, predefined)
    {
      var (name, about) := predefined[i];
      assert predefined[i..][1..] == predefined[i + 1..];
      if !HasName(entries, name) {
        entries := entries + [Entry(name, about)];
      }
      i := i + 1;
    }
  }

  // ---------------------------------------------------------------------------
  // Properties of the installed part

  /** The filter keeps the store order: filtering a concatenation is the
      concatenation of the filtered parts. */
  lemma {:induction false} VisibleEntriesConcat(a: seq<Manifest>, b: seq<Manifest>)
    ensures VisibleEntries(a + b) == VisibleEntries(a) + VisibleEntries(b)
  {
    if a == [] {
      assert a + b == b;
    } else {
      assert (a + b)[0] == a[0];
      assert (a + b)[1..] == a[1..] + b;
      VisibleEntriesConcat(a[1..], b);
    }
  }

  /** A single manifest contributes its entry, or nothing when it is hidden. */
  lemma VisibleEntriesSingle(m: Manifest)
    ensures VisibleEntries([m]) == if HideInHelp(m) then [] else [Entry(m.name, m.description.GetOr(""))]
  {
    assert [m][1..] == [];
  }

  /** No installed entry carries the reserved prefix. */
  lemma {:induction false} InstalledNeverHidden(store: Store, k: nat)
    requires k < |InstalledEntries(store)|
    ensures !(HiddenPrefix <= InstalledEntries(store)[k].name)
  {
    var e := InstalledEntries(store)[k];
    assert e in InstalledEntries(store);
    var i :| 0 <= i < |store.manifests| && FromPlugin(store.manifests[i]) == Some(e);
  }

  // ---------------------------------------------------------------------------
  // Properties of the predefined loop

  lemma {:induction false} AppendPredefinedKeepsPrefix(entries: seq<Entry>, predefined: seq<(string, string)>)
    ensures entries <= AppendPredefined(entries, predefined)
    decreases |predefined|
  {
    if predefined != [] {
      var (name, about) := predefined[0];
      var next := if HasName(entries, name) then entries else entries + [Entry(name, about)];
      AppendPredefinedKeepsPrefix(next, predefined[1..]);
    }
  }

  lemma HasNamePrefix(a: seq<Entry>, b: seq<Entry>, name: string)
    requires a <= b && HasName(a, name)
    ensures HasName(b, name)
  {
    var k :| 0 <= k < |a| && a[k].name == name;
    assert b[k] == a[k];
  }

  /** Every name already listed and every predefined name is in the result. */
  lemma {:induction false} AppendPredefinedCovers(entries: seq<Entry>, predefined: seq<(string, string)>, name: string)
    requires HasName(entries, name) || exists j :: 0 <= j < |predefined| && predefined[j].0 == name
    ensures HasName(AppendPredefined(entries, predefined), name)
    decreases |predefined|
  {
    if HasName(entries, name) {
      AppendPredefinedKeepsPrefix(entries, predefined);
      HasNamePrefix(entries, AppendPredefined(entries, predefined), name);
    } else {
      var (n, about) := predefined[0];
      var next := if HasName(entries, n) then entries else entries + [Entry(n, about)];
      if n == name {
        assert next[|entries|].name == name;
      } else {
        var j :| 0 <= j < |predefined| && predefined[j].0 == name;
        assert predefined[1..][j - 1].0 == name;
      }
      AppendPredefinedCovers(next, predefined[1..], name);
    }
  }

  /** Each appended entry is a predefined pair whose name appears nowhere
      before it. */
  lemma {:induction false} AppendPredefinedSource(entries: seq<Entry>, predefined: seq<(string, string)>, k: nat)
    requires |entries| <= k < |AppendPredefined(entries, predefined)|
    ensures var r := AppendPredefined(entries, predefined);
      (r[k].name, r[k].about) in predefined && !HasName(r[..k], r[k].name)
    decreases |predefined|
  {
    var r := AppendPredefined(entries, predefined);
    if predefined != [] {
      var (name, about) := predefined[0];
      var next := if HasName(entries, name) then entries else entries + [Entry(name, about)];
      assert r == AppendPredefined(next, predefined[1..]);
      AppendPredefinedKeepsPrefix(next, predefined[1..]);
      if k < |next| {
        assert k == |entries| && next == entries + [Entry(name, about)];
        assert r[k] == next[k] == Entry(name, about);
        assert r[..k] == entries;
      } else {
        AppendPredefinedSource(next, predefined[1..], k);
        assert forall x :: x in predefined[1..] ==> x in predefined;
      }
    }
  }

  /** Distinct names stay distinct: nothing already present is pushed again. */
  lemma {:induction false} AppendPredefinedDistinct(entries: seq<Entry>, predefined: seq<(string, string)>)
    requires NamesDistinct(entries)
    ensures NamesDistinct(AppendPredefined(entries, predefined))
    decreases |predefined|
  {
    if predefined != [] {
      var (name, about) := predefined[0];
      var next := if HasName(entries, name) then entries else entries + [Entry(name, about)];
      assert NamesDistinct(next);
      AppendPredefinedDistinct(next, predefined[1..]);
    }
  }

  lemma FindPrefix(a: seq<Entry>, b: seq<Entry>, name: string)
    requires HasName(a, name)
    ensures Find(a + b, name) == Find(a, name)
  {
    if a[0].name != name {
      assert (a + b)[1..] == a[1..] + b;
      FindPrefix(a[1..], b, name);
    }
  }

  lemma FindAfter(a: seq<Entry>, b: seq<Entry>, name: string)
    requires !HasName(a, name)
    ensures Find(a + b, name) == Find(b, name)
  {
    if a == [] {
      assert a + b == b;
    } else {
      assert (a + b)[1..] == a[1..] + b;
      FindAfter(a[1..], b, name);
    }
  }

  /** First occurrence wins: a name already listed keeps its entry, and a new
      name gets the about text of its first predefined pair. */
  lemma {:induction false} AppendPredefinedFirstWins(entries: seq<Entry>, predefined: seq<(string, string)>, name: string)
    ensures var r := AppendPredefined(entries, predefined);
      && (HasName(entries, name) ==> Find(r, name) == Find(entries, name))
      && (forall j :: 0 <= j < |predefined| && predefined[j].0 == name && !HasName(entries, name)
            && (forall i :: 0 <= i < j ==> predefined[i].0 != name)
            ==> Find(r, name) == Some(Entry(name, predefined[j].1)))
    decreases |predefined|
  {
    var r := AppendPredefined(entries, predefined);
    if predefined != [] {
      var (n, about) := predefined[0];
      var next := if HasName(entries, n) then entries else entries + [Entry(n, about)];
      AppendPredefinedFirstWins(next, predefined[1..], name);
      if HasName(entries, name) {
        if next != entries { FindPrefix(entries, [Entry(n, about)], name); }
      } else if n == name {
        FindAfter(entries, [Entry(n, about)], name);
        assert Find(next, name) == Some(Entry(name, about));
      } else {
        forall j | 0 <= j < |predefined| && predefined[j].0 == name
            && (forall i :: 0 <= i < j ==> predefined[i].0 != name)
          ensures Find(r, name) == Some(Entry(name, predefined[j].1))
        {
          assert j > 0;
          assert predefined[1..][j - 1] == predefined[j];
          assert forall i :: 0 <= i < j - 1 ==> predefined[1..][i] == predefined[i + 1];
        }
      }
    }
  }

  /** The position of the first predefined pair named `name`, or the length
      of the table when there is none. */
  function FirstIndex(predefined: seq<(string, string)>, name: string): (j: nat)
    ensures j <= |predefined|
    ensures j < |predefined| ==> predefined[j].0 == name
    ensures forall i :: 0 <= i < j ==> predefined[i].0 != name
    decreases |predefined|
  {
    if predefined == [] then 0
    else if predefined[0].0 == name then 0
    else 1 + FirstIndex(predefined[1..], name)
  }

  /** An entry appended after a point where `name` is already present does
      not carry `name`. */
  lemma AppendedAfterPresent(entries: seq<Entry>, predefined: seq<(string, string)>, name: string, k: nat)
    requires HasName(entries, name) && |entries| <= k < |AppendPredefined(entries, predefined)|
    ensures AppendPredefined(entries, predefined)[k].name != name
  {
    var r := AppendPredefined(entries, predefined);
    AppendPredefinedKeepsPrefix(entries, predefined);
    AppendPredefinedSource(entries, predefined, k);
    HasNamePrefix(entries, r[..k], name);
  }

  /** The appended entries follow the order of the predefined table: an entry
      appended earlier first occurs earlier in the table. */
  lemma {:induction false} AppendPredefinedOrder(entries: seq<Entry>, predefined: seq<(string, string)>, k1: nat, k2: nat)
    requires |entries| <= k1 < k2 < |AppendPredefined(entries, predefined)|
    ensures var r := AppendPredefined(entries, predefined);
      FirstIndex(predefined, r[k1].name) < FirstIndex(predefined, r[k2].name) < |predefined|
    decreases |predefined|
  {
    var r := AppendPredefined(entries, predefined);
    if predefined != [] {
      var (n, about) := predefined[0];
      var next := if HasName(entries, n) then entries else entries + [Entry(n, about)];
      assert r == AppendPredefined(next, predefined[1..]);
      assert HasName(next, n) by {
        if !HasName(entries, n) { assert next[|entries|].name == n; }
      }
      AppendPredefinedSource(next, predefined[1..], k2);
      AppendedAfterPresent(next, predefined[1..], n, k2);
      var j2 :| 0 <= j2 < |predefined[1..]| && predefined[1..][j2] == (r[k2].name, r[k2].about);
      assert FirstIndex(predefined[1..], r[k2].name) <= j2;
      if k1 < |next| {
        AppendPredefinedKeepsPrefix(next, predefined[1..]);
        assert next == entries + [Entry(n, about)];
        assert r[k1] == next[k1] == Entry(n, about);
      } else {
        AppendedAfterPresent(next, predefined[1..], n, k1);
        AppendPredefinedOrder(next, predefined[1..], k1, k2);
      }
    }
  }

  // ---------------------------------------------------------------------------
  // Properties of the whole catalog

  /** The installed entries come first, in store order, unchanged. */
  lemma CatalogStartsWithInstalled(store: Store, predefined: seq<(string, string)>)
    ensures InstalledEntries(store) <= PluginCatalog(store, predefined)
  {
    AppendPredefinedKeepsPrefix(InstalledEntries(store), predefined);
  }

  /** Every predefined name is listed, whether installed or not. */
  lemma CatalogListsPredefined(store: Store, predefined: seq<(string, string)>, j: nat)
    requires j < |predefined|
    ensures HasName(PluginCatalog(store, predefined), predefined[j].0)
  {
    AppendPredefinedCovers(InstalledEntries(store), predefined, predefined[j].0);
  }

  /** An installed plugin that is also predefined keeps its own description. */
  lemma CatalogPrefersInstalled(store: Store, predefined: seq<(string, string)>, name: string)
    requires HasName(InstalledEntries(store), name)
    ensures Find(PluginCatalog(store, predefined), name) == Find(InstalledEntries(store), name)
    ensures forall k :: |InstalledEntries(store)| <= k < |PluginCatalog(store, predefined)| ==>
      PluginCatalog(store, predefined)[k].name != name
  {
    var inst := InstalledEntries(store);
    var r := PluginCatalog(store, predefined);
    AppendPredefinedFirstWins(inst, predefined, name);
    AppendPredefinedKeepsPrefix(inst, predefined);
    forall k | |inst| <= k < |r| ensures r[k].name != name {
      AppendPredefinedSource(inst, predefined, k);
      HasNamePrefix(inst, r[..k], name);
    }
  }

  /** Distinct installed names give a catalog with distinct names. */
  lemma CatalogNamesDistinct(store: Store, predefined: seq<(string, string)>)
    requires NamesDistinct(InstalledEntries(store))
    ensures NamesDistinct(PluginCatalog(store, predefined))
  {
    AppendPredefinedDistinct(InstalledEntries(store), predefined);
  }

  /** A store that cannot be opened or listed leaves exactly the predefined
      table, without duplicate names. */
  lemma CatalogWithoutStore(store: Store, predefined: seq<(string, string)>)
    requires !store.Listed?
    ensures PluginCatalog(store, predefined) == AppendPredefined([], predefined)
    ensures NamesDistinct(PluginCatalog(store, predefined))
    ensures forall j :: 0 <= j < |predefined| ==> HasName(PluginCatalog(store, predefined), predefined[j].0)
  {
    AppendPredefinedDistinct([], predefined);
    forall j | 0 <= j < |predefined| ensures HasName(PluginCatalog(store, predefined), predefined[j].0) {
      CatalogListsPredefined(store, predefined, j);
    }
  }
}
