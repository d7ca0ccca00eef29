/**
 * The broker's instance registry: an in-memory table of
 * `{cwd, port, host, status, lastSeen}` records that the process-facing
 * routes (`/register`, `/ping`, `/deregister`) update in place and that the
 * client-facing routes sweep lazily for staleness before answering.
 *
 * The pure functions below say what each operation does to the table; the
 * class `Registry` owns the table and its methods are proved to perform
 * exactly those updates. `Date.now()` is the explicit parameter `now`.
 */
module InstanceRegistry {
  import opened Wrappers
  import opened Js
  import opened Seqs

  /** Loopback address every registered instance is recorded with. */
  const BROKER_HOST: string := "127.0.0.1"

  /** Age in milliseconds beyond which an entry counts as stale. */
  const INSTANCE_STALE_TIMEOUT_MS: int := 30000

  datatype Status = Online | Offline

  datatype Instance = Instance(
    cwd: string,
    port: int,
    host: string,
    status: Status,
    lastSeen: Option<int>)

  /** The body of `GET /instances`. */
  datatype InstancesResponse = InstancesResponse(
    version: string,
    infoName: string,
    instances: seq<Instance>)

  // ---------------------------------------------------------------------
  // Lookups (`instances.find(...)`)
  // ---------------------------------------------------------------------

  function CwdIs(cwd: string): Instance -> bool {
    (i: Instance) => i.cwd == cwd
  }

  function CwdAndPortAre(cwd: string, port: int): Instance -> bool {
    (i: Instance) => i.cwd == cwd && i.port == port
  }

  function OnlineAt(cwd: string): Instance -> bool {
    (i: Instance) => i.cwd == cwd && i.status == Online
  }

  predicate HasCwd(s: seq<Instance>, cwd: string) {
    exists i :: 0 <= i < |s| && s[i].cwd == cwd
  }

  /** True when some entry for `cwd` is currently marked online. */
  predicate HasOnline(s: seq<Instance>, cwd: string) {
    exists i :: 0 <= i < |s| && s[i].cwd == cwd && s[i].status == Online
  }

  /** At most one entry per cwd. */
  predicate UniqueCwds(s: seq<Instance>) {
    forall i, j :: 0 <= i < j < |s| ==> s[i].cwd != s[j].cwd
  }

  /** Every entry is recorded with the loopback host. */
  predicate AllLoopback(s: seq<Instance>) {
    forall i :: 0 <= i < |s| ==> s[i].host == BROKER_HOST
  }

  // ---------------------------------------------------------------------
  // What each operation does to the table
  // ---------------------------------------------------------------------

  /** `/register`: upsert by cwd; a new entry is appended, an existing one is re-marked online. */
  function Registered(s: seq<Instance>, cwd: string, port: int, now: int): (r: seq<Instance>)
    ensures HasCwd(s, cwd) ==> |r| == |s|
    ensures !HasCwd(s, cwd) ==> r == s + [Instance(cwd, port, BROKER_HOST, Online, Some(now))]
  {
    match FirstIndex(s, CwdIs(cwd))
    case Some(k) => s[k := s[k].(port := port, lastSeen := Some(now), status := Online)]
    case None => s + [Instance(cwd, port, BROKER_HOST, Online, Some(now))]
  }

  /** `/ping`: refresh `lastSeen` of the first entry matching both cwd and port. */
  function Pinged(s: seq<Instance>, cwd: string, port: int, now: int): (r: seq<Instance>)
    ensures |r| == |s|
  {
    match FirstIndex(s, CwdAndPortAre(cwd, port))
    case Some(k) => s[k := s[k].(lastSeen := Some(now))]
    case None => s
  }

  /** `/deregister`: mark the first entry for cwd offline, keeping it in the table. */
  function Deregistered(s: seq<Instance>, cwd: string): (r: seq<Instance>)
    ensures |r| == |s|
  {
    match FirstIndex(s, CwdIs(cwd))
    case Some(k) => s[k := s[k].(status := Offline)]
    case None => s
  }

  /** The staleness test of the sweep: `inst.lastSeen && now - inst.lastSeen > 30000`. */
  predicate IsStale(inst: Instance, now: int) {
    inst.lastSeen.Some? && inst.lastSeen.value != 0
    && now - inst.lastSeen.value > INSTANCE_STALE_TIMEOUT_MS
  }

  function Demoted(inst: Instance, now: int): Instance {
    if IsStale(inst, now) then inst.(status := Offline) else inst
  }

  /** `updateInstanceStatus`: demote every stale entry, leave the others as they are. */
  function Swept(s: seq<Instance>, now: int): (r: seq<Instance>)
    ensures |r| == |s|
    ensures forall i :: 0 <= i < |s| ==> r[i] == Demoted(s[i], now)
  {
    seq(|s|, i requires 0 <= i < |s| => Demoted(s[i], now))
  }

  // ---------------------------------------------------------------------
  // Properties of the operations
  // ---------------------------------------------------------------------

  /** Register with a known cwd rewrites that entry's port, lastSeen and status and nothing else. */
  lemma RegisterKnownCwd(s: seq<Instance>, cwd: string, port: int, now: int, k: nat)
    requires UniqueCwds(s)
    requires k < |s| && s[k].cwd == cwd
    ensures var r := Registered(s, cwd, port, now);
      |r| == |s|
      && r[k] == Instance(cwd, port, s[k].host, Online, Some(now))
      && forall j :: 0 <= j < |s| && j != k ==> r[j] == s[j]
  {
    var m := FirstIndex(s, CwdIs(cwd));
    assert CwdIs(cwd)(s[k]);
    assert m.Some? && CwdIs(cwd)(s[m.value]);
  }

  lemma RegisterKeepsUnique(s: seq<Instance>, cwd: string, port: int, now: int)
    requires UniqueCwds(s)
    ensures UniqueCwds(Registered(s, cwd, port, now))
  {
    var r := Registered(s, cwd, port, now);
    match FirstIndex(s, CwdIs(cwd))
    case Some(k) => {
      assert forall j :: 0 <= j < |s| ==> r[j].cwd == s[j].cwd;
    }
    case None => {
      assert forall j :: 0 <= j < |s| ==> s[j].cwd != cwd by {
        forall j | 0 <= j < |s| ensures s[j].cwd != cwd {
          assert !CwdIs(cwd)(s[j]);
        }
      }
    }
  }

  /** A heartbeat whose (cwd, port) matches no entry changes nothing. */
  lemma PingUnmatchedIsNoOp(s: seq<Instance>, cwd: string, port: int, now: int)
    requires forall j :: 0 <= j < |s| ==> s[j].cwd != cwd || s[j].port != port
    ensures Pinged(s, cwd, port, now) == s
  {
    assert forall j :: 0 <= j < |s| ==> !CwdAndPortAre(cwd, port)(s[j]);
  }

  /** A heartbeat only ever touches `lastSeen`: cwd, port, host and status stay as they were. */
  lemma PingOnlyRefreshesLastSeen(s: seq<Instance>, cwd: string, port: int, now: int)
    ensures var r := Pinged(s, cwd, port, now);
      |r| == |s|
      && forall j :: 0 <= j < |s| ==>
           r[j].(lastSeen := s[j].lastSeen) == s[j]
           && (r[j] != s[j] ==> s[j].cwd == cwd && s[j].port == port && r[j].lastSeen == Some(now))
  {
  }

  /** Deregister marks the cwd's entry offline without removing it; other entries are untouched. */
  lemma DeregisterMarksOffline(s: seq<Instance>, cwd: string)
    requires UniqueCwds(s)
    ensures var r := Deregistered(s, cwd);
      |r| == |s|
      && (forall j :: 0 <= j < |s| && s[j].cwd == cwd ==> r[j] == s[j].(status := Offline))
      && (forall j :: 0 <= j < |s| && s[j].cwd != cwd ==> r[j] == s[j])
  {
    match FirstIndex(s, CwdIs(cwd))
    case None =>
    case Some(k) => {
      assert forall j :: 0 <= j < |s| && s[j].cwd == cwd ==> j == k;
    }
  }

  /** The sweep demotes exactly the stale entries: status offline iff stale or already offline. */
  lemma SweepDemotesExactlyStale(s: seq<Instance>, now: int, j: nat)
    requires j < |s|
    ensures var r := Swept(s, now);
      (r[j].status == Offline <==> IsStale(s[j], now) || s[j].status == Offline)
      && r[j].(status := s[j].status) == s[j]
  {
  }

  /** The sweep never marks an entry online, and sweeping twice at one `now` is sweeping once. */
  lemma SweepNeverPromotesAndIsIdempotent(s: seq<Instance>, now: int)
    ensures forall j :: 0 <= j < |s| && Swept(s, now)[j].status == Online ==> s[j].status == Online
    ensures Swept(Swept(s, now), now) == Swept(s, now)
  {
    var r := Swept(s, now);
    assert forall j :: 0 <= j < |s| ==> Demoted(r[j], now) == r[j];
  }

  /** An entry never registered (no lastSeen) is never demoted. */
  lemma SweepSparesUnseen(s: seq<Instance>, now: int, j: nat)
    requires j < |s| && s[j].lastSeen.None?
    ensures Swept(s, now)[j] == s[j]
  {
  }

  /** Register, then list within the staleness window: the entry is online with the new port. */
  lemma RegisterThenListShowsOnline(s: seq<Instance>, cwd: string, port: int, t: int, now: int)
    requires UniqueCwds(s)
    requires t != 0 && now - t <= INSTANCE_STALE_TIMEOUT_MS
    ensures var r := Swept(Registered(s, cwd, port, t), now);
      exists j :: 0 <= j < |r| && r[j].cwd == cwd && r[j].status == Online && r[j].port == port
  {
    var reg := Registered(s, cwd, port, t);
    if HasCwd(s, cwd) {
      var k :| 0 <= k < |s| && s[k].cwd == cwd;
      RegisterKnownCwd(s, cwd, port, t, k);
      assert Swept(reg, now)[k] == reg[k];
    } else {
      assert Swept(reg, now)[|s|] == reg[|s|];
    }
  }

  /** Deregister, then list: the entry is still present and offline. */
  lemma DeregisterThenListShowsOffline(s: seq<Instance>, cwd: string, now: int, k: nat)
    requires UniqueCwds(s)
    requires k < |s| && s[k].cwd == cwd
    ensures var r := Swept(Deregistered(s, cwd), now);
      |r| == |s| && r[k].cwd == cwd && r[k].status == Offline
  {
    DeregisterMarksOffline(s, cwd);
  }

  /** No heartbeat for longer than the threshold: the next list shows the entry offline. */
  lemma SilentEntryGoesOffline(s: seq<Instance>, now: int, k: nat)
    requires k < |s| && s[k].lastSeen.Some? && s[k].lastSeen.value != 0
    requires now - s[k].lastSeen.value > INSTANCE_STALE_TIMEOUT_MS
    ensures Swept(s, now)[k].status == Offline
  {
  }

  // ---------------------------------------------------------------------
  // Any sequence of process-facing and listing requests
  // ---------------------------------------------------------------------

  /** One request against the table, with its raw (possibly missing) body fields. */
  datatype Request =
    | RegisterReq(cwd: Option<string>, port: Option<int>, now: int)
    | PingReq(cwd: Option<string>, port: Option<int>, now: int)
    | DeregisterReq(cwd: Option<string>)
    | ListReq(now: int)

  /** The table after one request; a request with a falsy field is answered 400 and changes nothing. */
  function Apply(s: seq<Instance>, req: Request): seq<Instance> {
    match req
    case RegisterReq(cwd, port, now) =>
      if StringTruthy(cwd) && NumberTruthy(port) then Registered(s, cwd.value, port.value, now) else s
    case PingReq(cwd, port, now) =>
      if StringTruthy(cwd) && NumberTruthy(port) then Pinged(s, cwd.value, port.value, now) else s
    case DeregisterReq(cwd) =>
      if StringTruthy(cwd) then Deregistered(s, cwd.value) else s
    case ListReq(now) => Swept(s, now)
  }

  function Run(s: seq<Instance>, trace: seq<Request>): seq<Instance>
    decreases |trace|
  {
    if |trace| == 0 then s else Run(Apply(s, trace[0]), trace[1..])
  }

  /** Entry i keeps its cwd (and nothing is removed) across one request. */
  lemma ApplyKeepsEntries(s: seq<Instance>, req: Request)
    requires UniqueCwds(s) && AllLoopback(s)
    ensures var r := Apply(s, req);
      UniqueCwds(r) && AllLoopback(r) && |r| >= |s|
      && forall i :: 0 <= i < |s| ==> r[i].cwd == s[i].cwd
  {
    match req
    case RegisterReq(cwd, port, now) =>
      if StringTruthy(cwd) && NumberTruthy(port) {
        RegisterKeepsUnique(s, cwd.value, port.value, now);
      }
    case PingReq(_, _, _) =>
    case DeregisterReq(_) =>
    case ListReq(_) =>
  }

  /**
   * Whatever requests arrive, the table keeps at most one entry per cwd,
   * only loopback hosts, and never loses an entry: entries keep their
   * position and cwd, so the length never decreases.
   */
  lemma {:induction false} RunKeepsEntries(s: seq<Instance>, trace: seq<Request>)
    requires UniqueCwds(s) && AllLoopback(s)
    ensures var r := Run(s, trace);
      UniqueCwds(r) && AllLoopback(r) && |r| >= |s|
      && forall i :: 0 <= i < |s| ==> r[i].cwd == s[i].cwd
    decreases |trace|
  {
    if |trace| > 0 {
      ApplyKeepsEntries(s, trace[0]);
      RunKeepsEntries(Apply(s, trace[0]), trace[1..]);
    }
  }

  // ---------------------------------------------------------------------
  // The table itself
  // ---------------------------------------------------------------------

  /** The `instances` array shared by the process-facing and client-facing routes. */
  class Registry {
    var instances: seq<Instance>

    ghost predicate Valid()
      reads this
    {
      UniqueCwds(instances) && AllLoopback(instances)
    }

    constructor ()
      ensures Valid() && instances == []
    {
      instances := [];
    }

    /** `POST /register`. */
    method Register(cwd: Option<string>, port: Option<int>, now: int) returns (code: int)
      requires Valid()
      modifies this
      ensures Valid()
      ensures code == (if StringTruthy(cwd) && NumberTruthy(port) then 200 else 400)
      ensures instances == Apply(old(instances), RegisterReq(cwd, port, now))
    {
      if !(StringTruthy(cwd) && NumberTruthy(port)) {
        return 400;
      }
      RegisterKeepsUnique(instances, cwd.value, port.value, now);
      var found := FirstIndex(instances, CwdIs(cwd.value));
      if found.Some? {
        var inst := instances[found.value];
        instances := instances[found.value := inst.(port := port.value, lastSeen := Some(now), status := Online)];
      } else {
        instances := instances + [Instance(cwd.value, port.value, BROKER_HOST, Online, Some(now))];
      }
      code := 200;
    }

    /** `POST /ping`: answers 200 whether or not an entry matched. */
    method Ping(cwd: Option<string>, port: Option<int>, now: int) returns (code: int)
      requires Valid()
      modifies this
      ensures Valid()
      ensures code == (if StringTruthy(cwd) && NumberTruthy(port) then 200 else 400)
      ensures instances == Apply(old(instances), PingReq(cwd, port, now))
    {
      if !(StringTruthy(cwd) && NumberTruthy(port)) {
        return 400;
      }
      var found := FirstIndex(instances, CwdAndPortAre(cwd.value, port.value));
      if found.Some? {
        var inst := instances[found.value];
        instances := instances[found.value := inst.(lastSeen := Some(now))];
      }
      code := 200;
    }

    /** `POST /deregister`: answers 200 with the whole table, or 400 with no table. */
    method Deregister(cwd: Option<string>) returns (code: int, listed: Option<seq<Instance>>)
      requires Valid()
      modifies this
      ensures Valid()
      ensures code == (if StringTruthy(cwd) then 200 else 400)
      ensures instances == Apply(old(instances), DeregisterReq(cwd))
      ensures listed == (if StringTruthy(cwd) then Some(instances) else None)
    {
      if !StringTruthy(cwd) {
        return 400, None;
      }
      var found := FirstIndex(instances, CwdIs(cwd.value));
      if found.Some? {
        var inst := instances[found.value];
        instances := instances[found.value := inst.(status := Offline)];
      }
      code, listed := 200, Some(instances);
    }

    /** `updateInstanceStatus`: the lazy staleness sweep, one entry at a time. */
    method UpdateInstanceStatus(now: int)
      requires Valid()
      modifies this
      ensures Valid()
      ensures instances == Swept(old(instances), now)
    {
      var i := 0;
      while i < |instances|
        invariant 0 <= i <= |instances| == |old(instances)|
        invariant forall j :: 0 <= j < i ==> instances[j] == Demoted(old(instances)[j], now)
        invariant forall j :: i <= j < |instances| ==> instances[j] == old(instances)[j]
      {
        var inst := instances[i];
        if inst.lastSeen.Some? && inst.lastSeen.value != 0
           && now - inst.lastSeen.value > INSTANCE_STALE_TIMEOUT_MS {
          instances := instances[i := inst.(status := Offline)];
        }
        i := i + 1;
      }
    }

    /** `GET /instances`: sweep first, then answer with the service signature and the table. */
    method ListInstances(now: int) returns (resp: InstancesResponse)
      requires Valid()
      modifies this
      ensures Valid()
      ensures instances == Apply(old(instances), ListReq(now))
      ensures resp == InstancesResponse("1.0.0", "opencode-web", instances)
    {
      UpdateInstanceStatus(now);
      resp := InstancesResponse("1.0.0", "opencode-web", instances);
    }
  }
}
