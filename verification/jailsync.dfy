/** The jail clean-up pass (pkg/cron/jailsync.go, `syncJails`): every
    directory under the jail path that belongs to no cluster is removed, except
    the driver jail. Directory listing, file information and removal are
    given as inputs; the cron schedule is not modelled. */
module JailSync {
  import opened Wrappers

  const JailPath := "/opt/jail"
  const DriverJail := "driver-jail"

  datatype FileInfo = FileInfo(name: string, isDir: bool)

  /** A directory entry; `info` is None when reading its information failed,
      in which case Go hands back a nil FileInfo. */
  datatype Entry = Entry(name: string, info: Option<FileInfo>)

  /** The selection rule of the removal loop. */
  predicate ShouldRemove(clusters: set<string>, f: FileInfo): (r: bool)
    ensures !f.isDir || f.name == DriverJail || f.name in clusters ==> !r
    ensures f.isDir && f.name != DriverJail && f.name !in clusters ==> r
  {
    f.isDir && f.name != DriverJail && f.name !in clusters
  }

  function JailDir(name: string): string {
    JailPath + "/" + name
  }

  /** Names of the entries to remove, in listing order; entries whose
      information could not be read are skipped. */
  function Selected(clusters: set<string>, entries: seq<Entry>): (names: seq<string>)
    ensures |names| <= |entries|
  {
    if |entries| == 0 then []
    else
      var last := entries[|entries| - 1];
      Selected(clusters, entries[..|entries| - 1]) +
        (if last.info.Some? && ShouldRemove(clusters, last.info.value) then [last.info.value.name] else [])
  }

  /** Exactly the readable, non-driver directories without a cluster are selected. */
  lemma {:induction false} SelectedExactly(clusters: set<string>, entries: seq<Entry>, name: string)
    ensures name in Selected(clusters, entries) <==>
              exists k :: 0 <= k < |entries| && entries[k].info.Some? &&
                          ShouldRemove(clusters, entries[k].info.value) && entries[k].info.value.name == name
    decreases |entries|
  {
    if |entries| > 0 {
      var init := entries[..|entries| - 1];
      SelectedExactly(clusters, init, name);
      assert forall k :: 0 <= k < |init| ==> init[k] == entries[k];
    }
  }

  /** The driver jail, plain files and directories of live clusters are never selected. */
  lemma NeverSelected(clusters: set<string>, entries: seq<Entry>)
    ensures DriverJail !in Selected(clusters, entries)
    ensures forall c :: c in clusters ==> c !in Selected(clusters, entries)
    ensures forall k :: 0 <= k < |entries| && entries[k].info.Some? && !entries[k].info.value.isDir &&
                        (forall j :: 0 <= j < |entries| && j != k && entries[j].info.Some? ==>
                                     entries[j].info.value.name != entries[k].info.value.name) ==>
                        entries[k].info.value.name !in Selected(clusters, entries)
  {
    SelectedExactly(clusters, entries, DriverJail);
    forall c | c in clusters
      ensures c !in Selected(clusters, entries)
    {
      SelectedExactly(clusters, entries, c);
    }
    forall k | 0 <= k < |entries| && entries[k].info.Some? && !entries[k].info.value.isDir &&
               (forall j :: 0 <= j < |entries| && j != k && entries[j].info.Some? ==>
                            entries[j].info.value.name != entries[k].info.value.name)
      ensures entries[k].info.value.name !in Selected(clusters, entries)
    {
      SelectedExactly(clusters, entries, entries[k].info.value.name);
    }
  }

  /** The names the cluster map is keyed by. */
  function ClusterSet(clusterNames: seq<string>): (s: set<string>)
    ensures forall c :: c in s <==> c in clusterNames
  {
    set c | c in clusterNames
  }

  /** The warning logged for a failed removal. */
  function RemoveWarning(name: string, err: string): string {
    "Error attempting to delete jail " + JailDir(name) + ": " + err
  }

  /** The warnings for the failed removals among `names`, in order. */
  function Failures(names: seq<string>, removeAll: string -> Option<string>): (ws: seq<string>)
    ensures |ws| <= |names|
  {
    if |names| == 0 then []
    else
      var last := names[|names| - 1];
      Failures(names[..|names| - 1], removeAll) +
        (match removeAll(JailDir(last)) case Some(e) => [RemoveWarning(last, e)] case None => [])
  }

  /** `SelectedExactly` for every name at once. */
  lemma SelectedMembers(clusters: set<string>, entries: seq<Entry>)
    ensures forall name :: name in Selected(clusters, entries) <==>
              exists k :: 0 <= k < |entries| && entries[k].info.Some? &&
                          ShouldRemove(clusters, entries[k].info.value) && entries[k].info.value.name == name
  {
    forall name
      ensures name in Selected(clusters, entries) <==>
              exists k :: 0 <= k < |entries| && entries[k].info.Some? &&
                          ShouldRemove(clusters, entries[k].info.value) && entries[k].info.value.name == name
    {
      SelectedExactly(clusters, entries, name);
    }
  }

  /** `syncJails` with unreadable entries skipped: returns the directories it
      tried to remove, in order, and the warnings of those that failed. A
      failure does not stop the pass. */
  method SyncJails(clusterNames: seq<string>, entries: seq<Entry>, removeAll: string -> Option<string>)
    returns (removed: seq<string>, warnings: seq<string>)
    ensures removed == Selected(ClusterSet(clusterNames), entries)
    ensures warnings == Failures(removed, removeAll)
    ensures forall name :: name in removed <==>
              exists k :: 0 <= k < |entries| && entries[k].info.Some? &&
                          ShouldRemove(ClusterSet(clusterNames), entries[k].info.value) && entries[k].info.value.name == name
  {
    var clusters := ClusterSet(clusterNames);
    removed := [];
    warnings := [];
    var i := 0;
    while i < |entries|
      invariant 0 <= i <= |entries|
      invariant removed == Selected(clusters, entries[..i])
      invariant warnings == Failures(removed, removeAll)
    {
      var prefix := entries[..i + 1];
      assert prefix[..i] == entries[..i] && prefix[i] == entries[i];
      if entries[i].info.Some? && ShouldRemove(clusters, entries[i].info.value) {
        var name := entries[i].info.value.name;
        var failed := match removeAll(JailDir(name)) case Some(e) => [RemoveWarning(name, e)] case None => [];
        assert (removed + [name])[..|removed|] == removed;
        removed := removed + [name];
        warnings := warnings + failed;
      }
      i := i + 1;
    }
    assert entries[..|entries|] == entries;
    SelectedMembers(clusters, entries);
  }

  /** How the pass as written ends: the removals it attempted, and whether
      it stopped on a nil FileInfo (calling IsDir on it panics). */
  datatype Run = Run(attempted: seq<string>, panicked: bool)

  /** `syncJails` as written: the loop reaches every entry's FileInfo,
      including the nil one of an entry whose information could not be read. */
  function SyncJailsAsWritten(clusterNames: seq<string>, entries: seq<Entry>): (r: Run)
    ensures r.panicked <==> exists k :: 0 <= k < |entries| && entries[k].info.None?
    ensures !r.panicked ==> r.attempted == Selected(ClusterSet(clusterNames), entries)
  {
    if |entries| == 0 then Run([], false)
    else
      var init := SyncJailsAsWritten(clusterNames, entries[..|entries| - 1]);
      var last := entries[|entries| - 1];
      assert forall k :: 0 <= k < |entries| - 1 ==> entries[..|entries| - 1][k] == entries[k];
      if init.panicked then init
      else if last.info.None? then Run(init.attempted, true)
      else Run(init.attempted + (if ShouldRemove(ClusterSet(clusterNames), last.info.value) then [last.info.value.name] else []), false)
  }

  /** A directory deleted between the listing and the information read stops
      the pass as written before a stale jail after it is removed; the
      corrected pass removes that jail. */
  method VanishedEntryStopsPass() returns (asWritten: Run, removed: seq<string>)
    ensures asWritten.panicked && asWritten.attempted == []
    ensures removed == ["c-old"]
  {
    var entries := [Entry("c-gone", None), Entry("c-old", Some(FileInfo("c-old", true)))];
    asWritten := SyncJailsAsWritten([], entries);
    assert entries[..1] == [Entry("c-gone", None)];
    assert entries[..1][..0] == [];
    var warnings;
    removed, warnings := SyncJails([], entries, (p: string) => None);
    assert entries[..1][..0] == [];
    assert Selected({}, entries[..1]) == [];
  }
}
