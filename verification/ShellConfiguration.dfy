/** shell.json as the fake shell of companion/fake-omarchy.ts rewrites it. */
module ShellConfiguration {
  import opened Paths
  import opened Contracts
  import opened Sequences

  const PLUGIN := "omarchestra.agent-console"

  function Occurrences(enabled: seq<string>, id: string): nat {
    if enabled == [] then 0 else (if enabled[0] == id then 1 else 0) + Occurrences(enabled[1..], id)
  }

  predicate HasSource(sources: seq<(string, Option<Path>)>, id: string) {
    exists i :: 0 <= i < |sources| && sources[i].0 == id
  }

  function SourceOf(sources: seq<(string, Option<Path>)>, id: string): Option<Path> {
    if sources == [] then None
    else if sources[0].0 == id then sources[0].1
    else SourceOf(sources[1..], id)
  }

  /** Assignment to an object key: in place when present, at the end otherwise. */
  function SetSource(sources: seq<(string, Option<Path>)>, id: string, root: Path): seq<(string, Option<Path>)> {
    if sources == [] then [(id, Some(root))]
    else if sources[0].0 == id then [(id, Some(root))] + sources[1..]
    else [sources[0]] + SetSource(sources[1..], id, root)
  }

  function DropSource(sources: seq<(string, Option<Path>)>, id: string): seq<(string, Option<Path>)> {
    if sources == [] then []
    else if sources[0].0 == id then DropSource(sources[1..], id)
    else [sources[0]] + DropSource(sources[1..], id)
  }

  function DropEnabled(enabled: seq<string>, id: string): seq<string> {
    if enabled == [] then []
    else if enabled[0] == id then DropEnabled(enabled[1..], id)
    else [enabled[0]] + DropEnabled(enabled[1..], id)
  }

  /** The bytes JSON.stringify produces for a document. */
  function Printed(document: ShellDocument): ShellBytes {
    ShellBytes(document, "")
  }

  /** Exactly one entry for the plugin, enabled, with the owned source. */
  predicate OwnedExactly(bytes: ShellBytes, root: Path) {
    Occurrences(bytes.document.enabled, PLUGIN) == 1 && SourceOf(bytes.document.sources, PLUGIN) == Some(root)
  }

  predicate Enabled(bytes: ShellBytes) {
    Occurrences(bytes.document.enabled, PLUGIN) > 0
  }

  predicate Absent(bytes: ShellBytes) {
    !Enabled(bytes) && !HasSource(bytes.document.sources, PLUGIN)
  }

  predicate Unambiguous(bytes: ShellBytes) {
    forall id :: id in bytes.document.enabled ==> Occurrences(bytes.document.enabled, id) <= 1
  }

  /** The guard of the supported enable operation. */
  predicate MayEnable(bytes: ShellBytes, root: Path) {
    Unambiguous(bytes) && (Absent(bytes) || OwnedExactly(bytes, root))
  }

  function AfterEnable(bytes: ShellBytes, root: Path): ShellBytes {
    var d := bytes.document;
    Printed(d.(
      enabled := if Enabled(bytes) then d.enabled else d.enabled + [PLUGIN],
      sources := SetSource(d.sources, PLUGIN, root)))
  }

  function AfterFilteringDisable(bytes: ShellBytes): ShellBytes {
    var d := bytes.document;
    Printed(d.(enabled := DropEnabled(d.enabled, PLUGIN), sources := DropSource(d.sources, PLUGIN)))
  }

  lemma {:induction false} OccurrencesAppend(enabled: seq<string>, last: string, id: string)
    ensures Occurrences(enabled + [last], id) == Occurrences(enabled, id) + if last == id then 1 else 0
    ensures Occurrences(enabled, id) > 0 <==> id in enabled
  {
    if enabled != [] {
      assert (enabled + [last])[1..] == enabled[1..] + [last];
      OccurrencesAppend(enabled[1..], last, id);
    }
  }

  lemma {:induction false} SetSourceReads(sources: seq<(string, Option<Path>)>, id: string, root: Path)
    ensures SourceOf(SetSource(sources, id, root), id) == Some(root)
    ensures SourceOf(sources, id) == Some(root) ==> SetSource(sources, id, root) == sources
  {
    if sources != [] && sources[0].0 != id {
      SetSourceReads(sources[1..], id, root);
      assert sources == [sources[0]] + sources[1..];
    } else if sources != [] {
      assert sources == [sources[0]] + sources[1..];
    }
  }

  /** Enabling yields the owned entry, whatever was there before. */
  lemma EnableOwns(bytes: ShellBytes, root: Path)
    requires MayEnable(bytes, root)
    ensures OwnedExactly(AfterEnable(bytes, root), root) && MayEnable(AfterEnable(bytes, root), root)
  {
    var d := bytes.document;
    SetSourceReads(d.sources, PLUGIN, root);
    OccurrencesAppend(d.enabled, PLUGIN, PLUGIN);
    if !Enabled(bytes) {
      forall id | id in d.enabled + [PLUGIN] ensures Occurrences(d.enabled + [PLUGIN], id) <= 1 {
        OccurrencesAppend(d.enabled, PLUGIN, id);
      }
    }
  }

  /** Enabling an already owned entry changes no byte exactly when the file has JSON.stringify's layout. */
  lemma EnableIdempotent(bytes: ShellBytes, root: Path)
    requires OwnedExactly(bytes, root)
    ensures AfterEnable(bytes, root) == bytes <==> bytes.layout == ""
  {
    SetSourceReads(bytes.document.sources, PLUGIN, root);
  }

  lemma {:induction false} DropEnabledFacts(enabled: seq<string>, id: string, x: string)
    ensures Occurrences(DropEnabled(enabled, id), x) == if x == id then 0 else Occurrences(enabled, x)
    ensures Occurrences(enabled, id) == 0 ==> DropEnabled(enabled, id) == enabled
    ensures DropEnabled(enabled + [id], id) == DropEnabled(enabled, id)
  {
    if enabled != [] {
      assert enabled == [enabled[0]] + enabled[1..] && (enabled + [id])[1..] == enabled[1..] + [id];
      DropEnabledFacts(enabled[1..], id, x);
    } else {
      assert enabled + [id] == [id];
    }
  }

  lemma {:induction false} DropSourceFacts(sources: seq<(string, Option<Path>)>, id: string, root: Path)
    ensures !HasSource(DropSource(sources, id), id)
    ensures !HasSource(sources, id) ==> DropSource(sources, id) == sources && SetSource(sources, id, root) == sources + [(id, Some(root))]
    ensures DropSource(sources + [(id, Some(root))], id) == DropSource(sources, id)
  {
    var last := (id, Some(root));
    if sources != [] {
      assert sources == [sources[0]] + sources[1..] && (sources + [last])[1..] == sources[1..] + [last];
      DropSourceFacts(sources[1..], id, root);
      assert HasSource(sources[1..], id) ==> HasSource(sources, id) by {
        if i :| 0 <= i < |sources[1..]| && sources[1..][i].0 == id { assert sources[i + 1].0 == id; }
      }
    } else {
      assert sources + [last] == [last];
    }
  }

  /** The plugin's entry and its source come last in their fields, and the source is there once. */
  predicate EntryLast(bytes: ShellBytes, root: Path) {
    var enabled, sources := bytes.document.enabled, bytes.document.sources;
    && enabled != [] && enabled[|enabled| - 1] == PLUGIN
    && sources != [] && sources[|sources| - 1] == (PLUGIN, Some(root)) && !HasSource(sources[..|sources| - 1], PLUGIN)
  }

  lemma EnabledLast(enabled: seq<string>)
    requires Occurrences(enabled, PLUGIN) == 1
    ensures DropEnabled(enabled, PLUGIN) + [PLUGIN] == enabled <==> enabled[|enabled| - 1] == PLUGIN
  {
    var front, last := enabled[..|enabled| - 1], enabled[|enabled| - 1];
    assert enabled == front + [last];
    OccurrencesAppend(front, last, PLUGIN);
    DropEnabledFacts(front, PLUGIN, PLUGIN);
  }

  lemma SourceLast(sources: seq<(string, Option<Path>)>, root: Path)
    ensures SetSource(DropSource(sources, PLUGIN), PLUGIN, root) == sources <==>
      sources != [] && sources[|sources| - 1] == (PLUGIN, Some(root)) && !HasSource(sources[..|sources| - 1], PLUGIN)
  {
    var dropped := DropSource(sources, PLUGIN);
    DropSourceFacts(sources, PLUGIN, root);
    DropSourceFacts(dropped, PLUGIN, root);
    LastApart(sources, dropped, (PLUGIN, Some(root)));
    if sources != [] {
      DropSourceFacts(sources[..|sources| - 1], PLUGIN, root);
    }
    hide *;
  }

  lemma FilteredAbsent(bytes: ShellBytes, root: Path)
    requires Unambiguous(bytes)
    ensures Absent(AfterFilteringDisable(bytes)) && MayEnable(AfterFilteringDisable(bytes), root)
  {
    var d := bytes.document;
    var dropped := DropEnabled(d.enabled, PLUGIN);
    forall id | id in dropped ensures Occurrences(dropped, id) <= 1 {
      DropEnabledFacts(d.enabled, PLUGIN, id);
      OccurrencesAppend(d.enabled, PLUGIN, id);
      OccurrencesAppend(dropped, PLUGIN, id);
    }
    DropEnabledFacts(d.enabled, PLUGIN, PLUGIN);
    DropSourceFacts(d.sources, PLUGIN, root);
  }

  /** Filtering the plugin out and enabling it again changes no byte exactly when it came last, in JSON.stringify's layout. */
  lemma FilteredAndEnabled(bytes: ShellBytes, root: Path)
    requires Unambiguous(bytes) && OwnedExactly(bytes, root)
    ensures MayEnable(AfterFilteringDisable(bytes), root) && !Enabled(AfterFilteringDisable(bytes))
    ensures AfterEnable(AfterFilteringDisable(bytes), root) == bytes <==> bytes.layout == "" && EntryLast(bytes, root)
  {
    FilteredAbsent(bytes, root);
    EnabledLast(bytes.document.enabled);
    SourceLast(bytes.document.sources, root);
    assert bytes.document.enabled != [];
    hide MayEnable, Unambiguous, HasSource, DropEnabled, DropSource, SetSource, Occurrences, SourceOf;
  }

  class FakeConfiguration {
    const pluginRoot: Path
    var bytes: ShellBytes
    /** The bytes recorded when the plugin was last enabled from absence. */
    var restore: Option<ShellBytes>

    constructor (pluginRoot: Path, bytes: ShellBytes)
      ensures this.pluginRoot == pluginRoot && this.bytes == bytes && restore == None
    {
      this.pluginRoot := pluginRoot;
      this.bytes := bytes;
      restore := None;
    }

    method Enable()
      modifies this
      ensures bytes == AfterEnable(old(bytes), pluginRoot)
      ensures restore == if Enabled(old(bytes)) then old(restore) else Some(old(bytes))
    {
      if !Enabled(bytes) {
        restore := Some(bytes);
      }
      bytes := AfterEnable(bytes, pluginRoot);
    }

    method Disable()
      modifies this
      ensures bytes == if old(restore).Some? then old(restore).value else AfterFilteringDisable(old(bytes))
      ensures restore == None
    {
      if restore.Some? {
        bytes := restore.value;
        restore := None;
      } else {
        bytes := AfterFilteringDisable(bytes);
      }
    }
  }
}
