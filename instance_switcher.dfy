/**
 * The instance switcher (apps/web/src/components/instance-switcher.tsx): the
 * broker's instances merged with the recent projects into one list, online
 * instances first and each group ordered by start time, the instance
 * selected by the URL's cwd, and its label.
 */
module InstanceSwitcher {
  import opened Wrappers
  import opened Seqs
  import opened OrderedMaps
  import opened StableSort
  import opened RecentProjects

  datatype Status = Online | Offline

  /** An instance as the broker's `/instances` route reports it. */
  datatype WebInstance = WebInstance(
    cwd: string,
    port: int,
    host: string,
    status: Status,
    lastSeen: Option<int>,
    startedAt: Option<int>)

  const MAX_SAFE_INTEGER: int := 9007199254740991

  function Cwd(i: WebInstance): string {
    i.cwd
  }

  function ProjectPath(p: RecentProject): string {
    p.path
  }

  /** A recent project listed as a stopped instance: no host, port 0, started at 0. */
  function AsOffline(p: RecentProject): WebInstance {
    WebInstance(p.path, 0, "", Offline, Some(p.lastUsed), Some(0))
  }

  function BrokerEntries(broker: seq<WebInstance>): (r: seq<Entry<WebInstance>>)
    ensures |r| == |broker| && forall i :: 0 <= i < |broker| ==> r[i] == Entry(broker[i].cwd, broker[i])
  {
    seq(|broker|, i requires 0 <= i < |broker| => Entry(broker[i].cwd, broker[i]))
  }

  function ProjectEntries(projects: seq<RecentProject>): (r: seq<Entry<WebInstance>>)
    ensures |r| == |projects| && forall i :: 0 <= i < |projects| ==> r[i] == Entry(projects[i].path, AsOffline(projects[i]))
  {
    seq(|projects|, i requires 0 <= i < |projects| => Entry(projects[i].path, AsOffline(projects[i])))
  }

  /** The `Map` after both passes: broker instances set first, then the recent projects still missing. */
  function MergedEntries(broker: seq<WebInstance>, projects: seq<RecentProject>): seq<Entry<WebInstance>> {
    AddMissing(SetAll([], BrokerEntries(broker)), ProjectEntries(projects))
  }

  /** `Array.from(map.values())`. */
  function Merged(broker: seq<WebInstance>, projects: seq<RecentProject>): seq<WebInstance> {
    Values(MergedEntries(broker, projects))
  }

  /** The two `forEach` passes over a fresh `Map`, then its values. */
  method MergeInstances(broker: seq<WebInstance>, projects: seq<RecentProject>) returns (list: seq<WebInstance>)
    ensures list == Merged(broker, projects)
  {
    var entries := BrokerEntries(broker);
    var byPath: seq<Entry<WebInstance>> := [];
    var i := 0;
    while i < |broker|
      invariant 0 <= i <= |broker|
      invariant byPath == SetAll([], entries[..i])
    {
      assert entries[..i + 1][..i] == entries[..i];
      byPath := Set(byPath, broker[i].cwd, broker[i]);
      i := i + 1;
    }
    assert entries[..|broker|] == entries;
    var recent := ProjectEntries(projects);
    var base := byPath;
    var j := 0;
    while j < |projects|
      invariant 0 <= j <= |projects|
      invariant byPath == AddMissing(base, recent[..j])
    {
      assert recent[..j + 1][..j] == recent[..j];
      var proj := projects[j];
      if !Has(byPath, proj.path) {
        byPath := Set(byPath, proj.path, AsOffline(proj));
      }
      j := j + 1;
    }
    assert recent[..|projects|] == recent;
    list := Values(byPath);
  }

  /**
   * The merged list names each folder once; its folders are exactly the
   * broker's cwds and the recent paths, so its length is their number; and a
   * folder the broker reports shows the broker's (last) instance for it, any
   * other folder its first recent project as a stopped instance.
   */
  lemma {:induction false} MergedFacts(broker: seq<WebInstance>, projects: seq<RecentProject>)
    ensures var list := Merged(broker, projects);
      && Injective(list, Cwd)
      && Image(list, Cwd) == Image(broker, Cwd) + Image(projects, ProjectPath)
      && |list| == |Image(broker, Cwd) + Image(projects, ProjectPath)|
      && forall i :: 0 <= i < |list| ==>
           var last := LastWith(BrokerEntries(broker), list[i].cwd);
           var first := FirstProject(projects, list[i].cwd);
           && (last.Some? ==> list[i] == last.value && list[i] in broker)
           && (last.None? ==> first.Some? && list[i] == AsOffline(first.value))
  {
    var a := BrokerEntries(broker);
    var b := ProjectEntries(projects);
    var es := MergedEntries(broker, projects);
    MergeFacts(a, b, "");
    SetAllKeyed([], a, Cwd);
    AddMissingKeyed(SetAll([], a), b, Cwd);
    ValuesFacts(es, Cwd);
    KeySetImage(broker, a, Cwd);
    KeySetImage(projects, b, ProjectPath);
    var list := Merged(broker, projects);
    forall i | 0 <= i < |list|
      ensures var last := LastWith(a, list[i].cwd);
        var first := FirstProject(projects, list[i].cwd);
        && (last.Some? ==> list[i] == last.value && list[i] in broker)
        && (last.None? ==> first.Some? && list[i] == AsOffline(first.value))
    {
      MergeFacts(a, b, es[i].key);
      LookupAt(es, i);
      FirstWithFrom(projects, es[i].key);
      LastWithFacts(a, es[i].key);
    }
  }

  /** The first recent project with that path (`find`). */
  function FirstProject(projects: seq<RecentProject>, path: string): Option<RecentProject> {
    match FirstIndex(projects, PathIs(path))
    case Some(i) => Some(projects[i])
    case None => None
  }

  /** Looking a path up among the recent projects' entries finds its first project, as a stopped instance. */
  lemma {:induction false} FirstWithFrom(projects: seq<RecentProject>, k: string)
    ensures var f := FirstWith(ProjectEntries(projects), k);
      && (f.Some? <==> FirstProject(projects, k).Some?)
      && (f.Some? ==> f.value == AsOffline(FirstProject(projects, k).value))
  {
    var es := ProjectEntries(projects);
    FirstWithAt(es, k);
    match FirstIndex(projects, PathIs(k))
    case Some(i) =>
      assert es[i].key == k;
      assert forall j :: 0 <= j < i ==> es[j].key != k by {
        forall j | 0 <= j < i ensures es[j].key != k {
          assert !PathIs(k)(projects[j]);
        }
      }
    case None =>
      assert forall j :: 0 <= j < |es| ==> es[j].key != k by {
        forall j | 0 <= j < |es| ensures es[j].key != k {
          assert !PathIs(k)(projects[j]);
        }
      }
  }

  predicate IsOnline(i: WebInstance) {
    i.status == Online
  }

  predicate NotOnline(i: WebInstance) {
    i.status != Online
  }

  /** `byStartedAsc` as written: `startedAt ?? MAX_SAFE_INTEGER`. */
  function StartKeyAsWritten(i: WebInstance): int {
    if i.startedAt.Some? then i.startedAt.value else MAX_SAFE_INTEGER
  }

  /** `byStartedAsc` as its comment describes it: 0 and undefined both sort last. */
  function StartKey(i: WebInstance): int {
    if i.startedAt.None? || i.startedAt.value == 0 then MAX_SAFE_INTEGER else i.startedAt.value
  }

  /** `[...online.sort(cmp), ...offline.sort(cmp)]` for the comparator `key(a) - key(b)`. */
  function OrderBy(list: seq<WebInstance>, key: WebInstance -> int): seq<WebInstance> {
    SortBy(Filter(list, IsOnline), key) + SortBy(Filter(list, NotOnline), key)
  }

  /** The instance list the switcher shows, with the start-time key its comment describes. */
  function Instances(broker: seq<WebInstance>, projects: seq<RecentProject>): seq<WebInstance> {
    OrderBy(Merged(broker, projects), StartKey)
  }

  /** Every element the stable sort returns from `filter(p)` satisfies p. */
  lemma {:induction false} SortedFilterKeeps<T>(s: seq<T>, p: T -> bool, key: T -> int)
    ensures forall i :: 0 <= i < |SortBy(Filter(s, p), key)| ==> p(SortBy(Filter(s, p), key)[i])
  {
    var r := SortBy(Filter(s, p), key);
    FilterKeeps(s, p);
    forall i | 0 <= i < |r| ensures p(r[i]) {
      assert r[i] in multiset(Filter(s, p));
      var j :| 0 <= j < |Filter(s, p)| && Filter(s, p)[j] == r[i];
    }
  }

  lemma {:induction false} FilterPartition<T>(s: seq<T>, p: T -> bool, q: T -> bool)
    requires forall x :: q(x) == !p(x)
    ensures multiset(Filter(s, p)) + multiset(Filter(s, q)) == multiset(s)
  {
    if |s| > 0 {
      FilterPartition(s[1..], p, q);
      assert s == [s[0]] + s[1..];
    }
  }

  /** Two sorted groups, one after the other: the first group leads, and each group stays sorted. */
  lemma {:induction false} GroupsInOrder<T>(on: seq<T>, off: seq<T>, p: T -> bool, key: T -> int)
    requires forall i :: 0 <= i < |on| ==> p(on[i])
    requires forall i :: 0 <= i < |off| ==> !p(off[i])
    requires SortedBy(on, key) && SortedBy(off, key)
    ensures var r := on + off;
      && (forall i, j :: 0 <= i < j < |r| && p(r[j]) ==> p(r[i]))
      && (forall i, j :: 0 <= i < j < |r| && p(r[i]) == p(r[j]) ==> key(r[i]) <= key(r[j]))
  {
    var r := on + off;
    assert forall i :: |on| <= i < |r| ==> r[i] == off[i - |on|];
  }

  /**
   * Whatever the key: the result is a reordering of the list; every online
   * instance comes before every other one; and within each of the two groups
   * the keys ascend.
   */
  lemma {:induction false} OrderByFacts(list: seq<WebInstance>, key: WebInstance -> int)
    ensures var r := OrderBy(list, key);
      && multiset(r) == multiset(list)
      && (forall i, j :: 0 <= i < j < |r| && IsOnline(r[j]) ==> IsOnline(r[i]))
      && (forall i, j :: 0 <= i < j < |r| && IsOnline(r[i]) == IsOnline(r[j]) ==> key(r[i]) <= key(r[j]))
  {
    FilterPartition(list, IsOnline, NotOnline);
    SortBySorted(Filter(list, IsOnline), key);
    SortBySorted(Filter(list, NotOnline), key);
    SortedFilterKeeps(list, IsOnline, key);
    SortedFilterKeeps(list, NotOnline, key);
    GroupsInOrder(SortBy(Filter(list, IsOnline), key), SortBy(Filter(list, NotOnline), key), IsOnline, key);
  }

  /**
   * The switcher's list holds every merged instance once, online ones first,
   * each group by ascending start time; and a recent project (started at 0)
   * is followed in its group only by instances whose start time is unknown,
   * 0, or beyond `MAX_SAFE_INTEGER`.
   */
  lemma {:induction false} InstancesFacts(broker: seq<WebInstance>, projects: seq<RecentProject>)
    ensures var r := Instances(broker, projects);
      && multiset(r) == multiset(Merged(broker, projects))
      && Injective(r, Cwd)
      && (forall i, j :: 0 <= i < j < |r| && IsOnline(r[j]) ==> IsOnline(r[i]))
      && (forall i, j :: 0 <= i < j < |r| && IsOnline(r[i]) == IsOnline(r[j]) ==> StartKey(r[i]) <= StartKey(r[j]))
      && (forall i, j :: 0 <= i < j < |r| && IsOnline(r[i]) == IsOnline(r[j]) && r[i].startedAt == Some(0) ==>
            StartKey(r[j]) >= MAX_SAFE_INTEGER)
  {
    var list := Merged(broker, projects);
    OrderByFacts(list, StartKey);
    MergedFacts(broker, projects);
    InjectivePermutation(list, Instances(broker, projects), Cwd);
  }

  /**
   * As written, the key puts a recent project (started at 0) ahead of a
   * stopped broker instance, which the broker reports without a start time,
   * although the comment on `byStartedAsc` says 0 and undefined both sort as
   * large.
   */
  lemma RecentProjectSortsFirst()
    ensures var b := WebInstance("/srv/api", 4096, "127.0.0.1", Offline, Some(50), None);
      var p := RecentProject("/home/dev/site", 2000, "site");
      OrderBy([b, AsOffline(p)], StartKeyAsWritten) == [AsOffline(p), b]
  {
    var b := WebInstance("/srv/api", 4096, "127.0.0.1", Offline, Some(50), None);
    var q := AsOffline(RecentProject("/home/dev/site", 2000, "site"));
    var list := [b, q];
    assert Filter(list, IsOnline) == [];
    assert Filter(list, NotOnline) == list;
    assert list[1..] == [q] && [q][1..] == [];
    assert SortBy([q], StartKeyAsWritten) == [q];
    assert StartKeyAsWritten(b) == MAX_SAFE_INTEGER && StartKeyAsWritten(q) == 0;
    assert Insert(b, [q], StartKeyAsWritten) == [q, b];
  }

  /**
   * With the corrected key the two entries tie, and the stable sort keeps the
   * broker instance, which the map holds first, in front.
   */
  lemma BrokerInstanceSortsFirst()
    ensures var b := WebInstance("/srv/api", 4096, "127.0.0.1", Offline, Some(50), None);
      var p := RecentProject("/home/dev/site", 2000, "site");
      OrderBy([b, AsOffline(p)], StartKey) == [b, AsOffline(p)]
  {
    var b := WebInstance("/srv/api", 4096, "127.0.0.1", Offline, Some(50), None);
    var q := AsOffline(RecentProject("/home/dev/site", 2000, "site"));
    var list := [b, q];
    assert Filter(list, IsOnline) == [];
    assert Filter(list, NotOnline) == list;
    assert list[1..] == [q] && [q][1..] == [];
    assert SortBy([q], StartKey) == [q];
    assert StartKey(b) == MAX_SAFE_INTEGER && StartKey(q) == MAX_SAFE_INTEGER;
    assert Insert(b, [q], StartKey) == [b, q];
  }

  /**
   * `instances.find(i => i.cwd === currentCwd) || instances[0]`: the first
   * entry for the URL's cwd, else the first entry, else nothing.
   */
  function SelectedInstance(list: seq<WebInstance>, currentCwd: Option<string>): (r: Option<WebInstance>)
    ensures r.None? <==> |list| == 0
    ensures r.Some? ==> r.value in list
    ensures currentCwd.Some? && (exists i :: 0 <= i < |list| && list[i].cwd == currentCwd.value) ==>
      exists k :: 0 <= k < |list| && r == Some(list[k]) && list[k].cwd == currentCwd.value &&
        forall j :: 0 <= j < k ==> list[j].cwd != currentCwd.value
    ensures (currentCwd.None? || forall i :: 0 <= i < |list| ==> list[i].cwd != currentCwd.value) && |list| > 0 ==>
      r == Some(list[0])
  {
    var found := if currentCwd.Some? then FirstIndex(list, (i: WebInstance) => i.cwd == currentCwd.value) else None;
    if found.Some? then Some(list[found.value])
    else if |list| > 0 then Some(list[0])
    else None
  }

  /** The label: "" without a selection, else the selected folder's name (`getProjectName`'s rule). */
  function Label(selected: Option<WebInstance>): string {
    if selected.None? then "" else GetProjectName(selected.value.cwd)
  }

  /** The label is empty only when nothing is selected or the selected cwd is empty. */
  lemma {:induction false} LabelEmpty(selected: Option<WebInstance>)
    ensures Label(selected) == "" <==> selected.None? || selected.value.cwd == ""
  {
    if selected.Some? {
      GetProjectNameFacts(selected.value.cwd);
    }
  }
}
