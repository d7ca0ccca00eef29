/**
 * The "Available Projects" card (apps/web/src/pages/chat/components/instance-lists.tsx):
 * the stopped broker instances and the recent projects merged by path, the
 * stopped instances taking precedence, newest first. `Date.now()` is the
 * parameter `now`; dates are kept as the milliseconds they denote, so the
 * ISO-string round trip is the identity.
 */
module InstanceLists {
  import opened Wrappers
  import opened Js
  import opened Seqs
  import opened OrderedMaps
  import opened StableSort
  import opened RecentProjects
  import opened InstanceSwitcher

  datatype Source = OfflineSource | RecentSource

  datatype MergedProject = MergedProject(path: string, name: string, lastUsed: int, isOffline: bool, source: Source)

  predicate IsOffline(i: WebInstance) {
    i.status == Offline
  }

  /** `instances.filter(i => i.status === "offline")`. */
  function OfflineInstances(instances: seq<WebInstance>): seq<WebInstance> {
    Filter(instances, IsOffline)
  }

  /** A stopped instance as a project; a missing or zero `lastSeen` reads as now. */
  function FromInstance(i: WebInstance, now: int): MergedProject {
    MergedProject(i.cwd, GetProjectName(i.cwd), if NumberTruthy(i.lastSeen) then i.lastSeen.value else now, true, OfflineSource)
  }

  function FromProject(p: RecentProject): MergedProject {
    MergedProject(p.path, p.name, p.lastUsed, false, RecentSource)
  }

  function InstanceEntries(offline: seq<WebInstance>, now: int): (r: seq<Entry<MergedProject>>)
    ensures |r| == |offline| && forall i :: 0 <= i < |offline| ==> r[i] == Entry(offline[i].cwd, FromInstance(offline[i], now))
  {
    seq(|offline|, i requires 0 <= i < |offline| => Entry(offline[i].cwd, FromInstance(offline[i], now)))
  }

  function RecentEntries(projects: seq<RecentProject>): (r: seq<Entry<MergedProject>>)
    ensures |r| == |projects| && forall i :: 0 <= i < |projects| ==> r[i] == Entry(projects[i].path, FromProject(projects[i]))
  {
    seq(|projects|, i requires 0 <= i < |projects| => Entry(projects[i].path, FromProject(projects[i])))
  }

  function Path(m: MergedProject): string {
    m.path
  }

  /** The comparator `b.lastUsed - a.lastUsed` is the ascending sort by the negated time. */
  function NewestFirst(m: MergedProject): int {
    -m.lastUsed
  }

  /** The `projectMap` after both passes. */
  function ProjectEntries(instances: seq<WebInstance>, projects: seq<RecentProject>, now: int): seq<Entry<MergedProject>> {
    AddMissing(SetAll([], InstanceEntries(OfflineInstances(instances), now)), RecentEntries(projects))
  }

  /** `mergedProjects`. */
  function MergedProjects(instances: seq<WebInstance>, projects: seq<RecentProject>, now: int): seq<MergedProject> {
    SortBy(Values(ProjectEntries(instances, projects, now)), NewestFirst)
  }

  /** The filter, the two `forEach` passes over a fresh `Map`, and the sort. */
  method MergeProjects(instances: seq<WebInstance>, projects: seq<RecentProject>, now: int) returns (merged: seq<MergedProject>)
    ensures merged == MergedProjects(instances, projects, now)
  {
    var offline := OfflineInstances(instances);
    var entries := InstanceEntries(offline, now);
    var projectMap: seq<Entry<MergedProject>> := [];
    var i := 0;
    while i < |offline|
      invariant 0 <= i <= |offline|
      invariant projectMap == SetAll([], entries[..i])
    {
      assert entries[..i + 1][..i] == entries[..i];
      var instance := offline[i];
      assert entries[i] == Entry(instance.cwd, FromInstance(instance, now));
      projectMap := Set(projectMap, instance.cwd, FromInstance(instance, now));
      i := i + 1;
    }
    assert entries[..|offline|] == entries;
    var recent := RecentEntries(projects);
    var base := projectMap;
    var j := 0;
    while j < |projects|
      invariant 0 <= j <= |projects|
      invariant projectMap == AddMissing(base, recent[..j])
    {
      assert recent[..j + 1][..j] == recent[..j];
      var project := projects[j];
      assert recent[j] == Entry(project.path, FromProject(project));
      if !Has(projectMap, project.path) {
        projectMap := Set(projectMap, project.path, FromProject(project));
      }
      j := j + 1;
    }
    assert recent[..|projects|] == recent;
    assert projectMap == ProjectEntries(instances, projects, now);
    merged := SortBy(Values(projectMap), NewestFirst);
  }

  /** The merged map's values before sorting: unique paths, the right paths, and the right winner per path. */
  lemma {:induction false} EntriesFacts(instances: seq<WebInstance>, projects: seq<RecentProject>, now: int)
    ensures var vs := Values(ProjectEntries(instances, projects, now));
      var offline := OfflineInstances(instances);
      && Injective(vs, Path)
      && Image(vs, Path) == Image(offline, Cwd) + Image(projects, ProjectPath)
      && forall m :: m in vs ==>
           && (m.path in Image(offline, Cwd) ==> m.isOffline && m.source == OfflineSource && m.name == GetProjectName(m.path))
           && (m.path !in Image(offline, Cwd) ==> FirstProject(projects, m.path).Some? && m == FromProject(FirstProject(projects, m.path).value))
  {
    var offline := OfflineInstances(instances);
    var a := InstanceEntries(offline, now);
    var b := RecentEntries(projects);
    var es := ProjectEntries(instances, projects, now);
    MergeFacts(a, b, "");
    SetAllKeyed([], a, Path);
    AddMissingKeyed(SetAll([], a), b, Path);
    ValuesFacts(es, Path);
    KeySetImage(offline, a, Cwd);
    KeySetImage(projects, b, ProjectPath);
    var vs := Values(es);
    forall m | m in vs
      ensures && (m.path in Image(offline, Cwd) ==> m.isOffline && m.source == OfflineSource && m.name == GetProjectName(m.path))
              && (m.path !in Image(offline, Cwd) ==> FirstProject(projects, m.path).Some? && m == FromProject(FirstProject(projects, m.path).value))
    {
      var i :| 0 <= i < |vs| && vs[i] == m;
      EntryWinner(instances, projects, now, i);
    }
  }

  /** The value filed under one path of the merged map. */
  lemma {:induction false} EntryWinner(instances: seq<WebInstance>, projects: seq<RecentProject>, now: int, i: nat)
    requires i < |ProjectEntries(instances, projects, now)|
    ensures var e := ProjectEntries(instances, projects, now)[i];
      var offline := OfflineInstances(instances);
      && e.value.path == e.key
      && (e.key in Image(offline, Cwd) ==> e.value.isOffline && e.value.source == OfflineSource && e.value.name == GetProjectName(e.key))
      && (e.key !in Image(offline, Cwd) ==> FirstProject(projects, e.key).Some? && e.value == FromProject(FirstProject(projects, e.key).value))
  {
    var offline := OfflineInstances(instances);
    var a := InstanceEntries(offline, now);
    var b := RecentEntries(projects);
    var es := ProjectEntries(instances, projects, now);
    var k := es[i].key;
    MergeFacts(a, b, k);
    SetAllKeyed([], a, Path);
    AddMissingKeyed(SetAll([], a), b, Path);
    LookupAt(es, i);
    KeySetImage(offline, a, Cwd);
    LastWithFacts(a, k);
    RecentFirstWith(projects, k);
  }

  /** Looking a path up among the recent projects' entries finds its first project. */
  lemma {:induction false} RecentFirstWith(projects: seq<RecentProject>, k: string)
    ensures var f := FirstWith(RecentEntries(projects), k);
      && (f.Some? <==> FirstProject(projects, k).Some?)
      && (f.Some? ==> f.value == FromProject(FirstProject(projects, k).value))
  {
    var es := RecentEntries(projects);
    FirstWithAt(es, k);
    match FirstIndex(projects, PathIs(k))
    case Some(i) =>
      assert es[i].key == k;
      assert forall j :: 0 <= j < i ==> es[j].key != k by {
        forall j | 0 <= j < i ensures es[j].key != k {
          assert !PathIs(k)(projects[j]);
        }
      }
    case None =>
      assert forall j :: 0 <= j < |es| ==> es[j].key != k by {
        forall j | 0 <= j < |es| ensures es[j].key != k {
          assert !PathIs(k)(projects[j]);
        }
      }
  }

  /**
   * The card lists each path once: the stopped instances' folders and the
   * recent paths, and nothing else, newest first. A folder with a stopped
   * instance is shown as that instance (offline, named by `getProjectName`);
   * any other folder as its first recent project.
   */
  lemma {:induction false} MergedProjectsFacts(instances: seq<WebInstance>, projects: seq<RecentProject>, now: int)
    ensures var r := MergedProjects(instances, projects, now);
      var offline := OfflineInstances(instances);
      && Injective(r, Path)
      && Image(r, Path) == Image(offline, Cwd) + Image(projects, ProjectPath)
      && |r| == |Image(offline, Cwd) + Image(projects, ProjectPath)|
      && (forall i, j :: 0 <= i < j < |r| ==> r[i].lastUsed >= r[j].lastUsed)
      && forall i :: 0 <= i < |r| ==>
           && (r[i].path in Image(offline, Cwd) ==> r[i].isOffline && r[i].source == OfflineSource && r[i].name == GetProjectName(r[i].path))
           && (r[i].path !in Image(offline, Cwd) ==> FirstProject(projects, r[i].path).Some? && r[i] == FromProject(FirstProject(projects, r[i].path).value))
  {
    var vs := Values(ProjectEntries(instances, projects, now));
    var r := MergedProjects(instances, projects, now);
    EntriesFacts(instances, projects, now);
    SortBySorted(vs, NewestFirst);
    InjectivePermutation(vs, r, Path);
    ImagePermutation(vs, r, Path);
    ImageSize(r, Path);
    forall i | 0 <= i < |r| ensures r[i] in vs {
      assert r[i] in multiset(vs);
    }
  }

  /** `if (mergedProjects.length === 0) return null`: the card, or nothing. */
  function ProjectsCard(merged: seq<MergedProject>): (r: Option<seq<MergedProject>>)
    ensures r.None? <==> |merged| == 0
    ensures r.Some? ==> r.value == merged
  {
    if |merged| == 0 then None else Some(merged)
  }

  /** The card is hidden exactly when there is no stopped instance and no recent project. */
  lemma {:induction false} CardHiddenWhenNothingToShow(instances: seq<WebInstance>, projects: seq<RecentProject>, now: int)
    ensures ProjectsCard(MergedProjects(instances, projects, now)).None? <==> |OfflineInstances(instances)| == 0 && |projects| == 0
  {
    var offline := OfflineInstances(instances);
    MergedProjectsFacts(instances, projects, now);
    if |offline| > 0 {
      assert offline[0].cwd in Image(offline, Cwd);
    }
    if |projects| > 0 {
      assert projects[0].path in Image(projects, ProjectPath);
    }
  }
}
