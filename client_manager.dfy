/**
 * The client manager (apps/web/src/components/opencode-client-manager.tsx):
 * a component without UI whose effects keep the URL's `cwd` parameter and
 * the client store in step with the broker's instances. The URL's search
 * parameters are a map from name to value; each effect is one function of
 * what the render saw, or one method over the client store.
 */
module ClientManager {
  import opened Wrappers
  import opened Js
  import opened Seqs
  import opened ClientStore
  import opened InstanceSwitcher

  type SearchParams = map<string, string>

  /** `searchParams.get("cwd")`. */
  function CwdParam(params: SearchParams): Option<string> {
    if "cwd" in params then Some(params["cwd"]) else None
  }

  /** `instances.filter(inst => inst.status === "online")`. */
  function OnlineInstances(instances: seq<WebInstance>): seq<WebInstance> {
    Filter(instances, IsOnline)
  }

  predicate HasOnlineCwd(instances: seq<WebInstance>, cwd: string) {
    exists i :: 0 <= i < |instances| && IsOnline(instances[i]) && instances[i].cwd == cwd
  }

  /**
   * `currentCwd`: the URL's cwd when it is set (online or not), else the cwd
   * of the first online instance, else `None` (the source's `null`).
   */
  function CurrentCwd(cwdFromUrl: Option<string>, instances: seq<WebInstance>): (r: Option<string>)
    ensures StringTruthy(cwdFromUrl) ==> r == cwdFromUrl
    ensures !StringTruthy(cwdFromUrl) ==>
      r == match FirstIndex(instances, IsOnline)
           case Some(i) => Some(instances[i].cwd)
           case None => None
  {
    FilterFirst(instances, IsOnline);
    var online := OnlineInstances(instances);
    if StringTruthy(cwdFromUrl) then cwdFromUrl
    else if |online| > 0 then Some(online[0].cwd)
    else None
  }

  /**
   * The effect that repairs the URL: a set URL cwd that no online instance
   * has is replaced by the first online cwd, or dropped when nothing is
   * online; otherwise the parameters stay as they are.
   */
  function UrlCwdFixed(params: SearchParams, instances: seq<WebInstance>): SearchParams {
    var cwdFromUrl := CwdParam(params);
    var online := OnlineInstances(instances);
    if !StringTruthy(cwdFromUrl) then params
    else if exists i :: 0 <= i < |online| && online[i].cwd == cwdFromUrl.value && IsOnline(online[i]) then params
    else if |online| > 0 then params["cwd" := online[0].cwd]
    else params - {"cwd"}
  }

  /** The effect that fills an empty URL cwd with `currentCwd` when that is set. */
  function DefaultCwdPushed(params: SearchParams, instances: seq<WebInstance>): SearchParams {
    var cwdFromUrl := CwdParam(params);
    var currentCwd := CurrentCwd(cwdFromUrl, instances);
    if !StringTruthy(cwdFromUrl) && StringTruthy(currentCwd) then params["cwd" := currentCwd.value] else params
  }

  /** The two effects read the same render's parameters and never both write. */
  lemma {:induction false} UrlEffectsExclusive(params: SearchParams, instances: seq<WebInstance>)
    ensures UrlCwdFixed(params, instances) == params || DefaultCwdPushed(params, instances) == params
  {
  }

  /** The parameters after one render: those of whichever effect wrote, or the old ones. */
  function UrlAfterRender(params: SearchParams, instances: seq<WebInstance>): SearchParams {
    var fixed := UrlCwdFixed(params, instances);
    if fixed != params then fixed else DefaultCwdPushed(params, instances)
  }

  lemma {:induction false} OnlineHas(instances: seq<WebInstance>, cwd: string)
    ensures HasOnlineCwd(instances, cwd) <==>
      exists i :: 0 <= i < |OnlineInstances(instances)| && OnlineInstances(instances)[i].cwd == cwd && IsOnline(OnlineInstances(instances)[i])
  {
    var online := OnlineInstances(instances);
    FilterKeeps(instances, IsOnline);
    if HasOnlineCwd(instances, cwd) {
      var i :| 0 <= i < |instances| && IsOnline(instances[i]) && instances[i].cwd == cwd;
      FilterHas(instances, IsOnline, i);
      var j :| 0 <= j < |online| && online[j] == instances[i];
    }
    if exists i :: 0 <= i < |online| && online[i].cwd == cwd && IsOnline(online[i]) {
      var i :| 0 <= i < |online| && online[i].cwd == cwd && IsOnline(online[i]);
      assert online[i] in multiset(instances) by {
        FilterPartition(instances, IsOnline, NotOnline);
        assert online[i] in multiset(online);
      }
      var j :| 0 <= j < |instances| && instances[j] == online[i];
    }
  }

  /**
   * One render settles the URL: a URL cwd that is online is left alone,
   * afterwards any URL cwd that is set names an online instance, a second
   * render changes nothing, and no other parameter is touched.
   */
  lemma {:induction false} UrlSettles(params: SearchParams, instances: seq<WebInstance>)
    ensures var r := UrlAfterRender(params, instances);
      && (StringTruthy(CwdParam(params)) && HasOnlineCwd(instances, CwdParam(params).value) ==> r == params)
      && (StringTruthy(CwdParam(r)) ==> HasOnlineCwd(instances, CwdParam(r).value))
      && UrlAfterRender(r, instances) == r
      && (forall k :: k != "cwd" ==> (k in r <==> k in params) && (k in r ==> r[k] == params[k]))
  {
    var online := OnlineInstances(instances);
    var r := UrlAfterRender(params, instances);
    if "cwd" in params {
      OnlineHas(instances, params["cwd"]);
    }
    if "cwd" in r {
      OnlineHas(instances, r["cwd"]);
    }
    FilterFirst(instances, IsOnline);
    FilterKeeps(instances, IsOnline);
    if |online| > 0 {
      FilterHas(instances, IsOnline, FirstIndex(instances, IsOnline).value);
    }
  }

  /** `onlineInstances.forEach(i => createClient(i.cwd, i.port))` on a client map. */
  function ClientsCreated(clients: map<string, ClientData>, insts: seq<WebInstance>): map<string, ClientData> {
    if |insts| == 0 then clients
    else
      var last := insts[|insts| - 1];
      ClientCreated(ClientsCreated(clients, insts[..|insts| - 1]), last.cwd, last.port)
  }

  /** After the pass every instance's cwd has a client. */
  lemma {:induction false} ClientsCreatedHas(clients: map<string, ClientData>, insts: seq<WebInstance>)
    ensures forall i :: 0 <= i < |insts| ==> insts[i].cwd in ClientsCreated(clients, insts)
  {
    if |insts| > 0 {
      var init := insts[..|insts| - 1];
      ClientsCreatedHas(clients, init);
      assert forall i :: 0 <= i < |init| ==> init[i] == insts[i];
    }
  }

  /** A cwd's client is on the port of the last instance with that cwd. */
  lemma {:induction false} ClientsCreatedPort(clients: map<string, ClientData>, insts: seq<WebInstance>, i: nat)
    requires i < |insts|
    requires forall j :: i < j < |insts| ==> insts[j].cwd != insts[i].cwd
    ensures insts[i].cwd in ClientsCreated(clients, insts)
    ensures ClientsCreated(clients, insts)[insts[i].cwd].port == insts[i].port
  {
    var init := insts[..|insts| - 1];
    if i < |init| {
      assert init[i] == insts[i];
      ClientsCreatedPort(clients, init, i);
    }
  }

  /** Cwds no instance has are untouched. */
  lemma {:induction false} ClientsCreatedOthers(clients: map<string, ClientData>, insts: seq<WebInstance>, k: string)
    requires k !in Image(insts, Cwd)
    ensures k in ClientsCreated(clients, insts) <==> k in clients
    ensures k in clients ==> ClientsCreated(clients, insts)[k] == clients[k]
  {
    if |insts| > 0 {
      var init := insts[..|insts| - 1];
      assert forall i :: 0 <= i < |init| ==> init[i] == insts[i];
      assert insts[|insts| - 1].cwd != k;
      ClientsCreatedOthers(clients, init, k);
    }
  }

  /**
   * After the pass every instance's cwd has a client, on the port of the last
   * instance with that cwd; cwds no instance has are untouched.
   */
  lemma ClientsCreatedFacts(clients: map<string, ClientData>, insts: seq<WebInstance>)
    ensures var r := ClientsCreated(clients, insts);
      && (forall i :: 0 <= i < |insts| ==> insts[i].cwd in r)
      && (forall i :: 0 <= i < |insts| && (forall j :: i < j < |insts| ==> insts[j].cwd != insts[i].cwd) ==>
            r[insts[i].cwd].port == insts[i].port)
      && (forall k :: k !in Image(insts, Cwd) ==> (k in r <==> k in clients) && (k in r ==> r[k] == clients[k]))
  {
    ClientsCreatedHas(clients, insts);
    forall i | 0 <= i < |insts| && (forall j :: i < j < |insts| ==> insts[j].cwd != insts[i].cwd)
      ensures ClientsCreated(clients, insts)[insts[i].cwd].port == insts[i].port
    {
      ClientsCreatedPort(clients, insts, i);
    }
    forall k | k !in Image(insts, Cwd)
      ensures (k in ClientsCreated(clients, insts) <==> k in clients)
      ensures k in clients ==> ClientsCreated(clients, insts)[k] == clients[k]
    {
      ClientsCreatedOthers(clients, insts, k);
    }
  }

  /** After the creation pass every online instance's cwd has a client; other cwds are untouched. */
  lemma {:induction false} OnlineClientsCreated(clients: map<string, ClientData>, instances: seq<WebInstance>)
    ensures var r := ClientsCreated(clients, OnlineInstances(instances));
      && (forall i :: 0 <= i < |instances| && IsOnline(instances[i]) ==> instances[i].cwd in r)
      && (forall k :: !HasOnlineCwd(instances, k) ==> (k in r <==> k in clients) && (k in r ==> r[k] == clients[k]))
  {
    var online := OnlineInstances(instances);
    ClientsCreatedFacts(clients, online);
    forall i | 0 <= i < |instances| && IsOnline(instances[i])
      ensures instances[i].cwd in ClientsCreated(clients, online)
    {
      FilterHas(instances, IsOnline, i);
    }
    FilterKeeps(instances, IsOnline);
    forall k | !HasOnlineCwd(instances, k) ensures k !in Image(online, Cwd) {
      OnlineHas(instances, k);
    }
  }

  /** The cleanup effect: only clients whose cwd some broker instance (online or not) has survive. */
  function ClientsRetained(clients: map<string, ClientData>, instances: seq<WebInstance>): map<string, ClientData> {
    map k | k in clients && k in Image(instances, Cwd) :: clients[k]
  }

  /**
   * Cleanup after creation never removes an online instance's client: a
   * render's two client effects leave every online cwd with a client.
   */
  lemma {:induction false} CleanupKeepsOnlineClients(clients: map<string, ClientData>, instances: seq<WebInstance>)
    ensures var r := ClientsRetained(ClientsCreated(clients, OnlineInstances(instances)), instances);
      && (forall i :: 0 <= i < |instances| && IsOnline(instances[i]) ==> instances[i].cwd in r)
      && (forall k :: k in r ==> k in Image(instances, Cwd))
  {
    OnlineClientsCreated(clients, instances);
  }

  /** The effects that change the client store. */
  method CreateOnlineClients(store: OpencodeClientStore, instances: seq<WebInstance>)
    modifies store
    ensures store.clients == ClientsCreated(old(store.clients), OnlineInstances(instances))
  {
    var online := OnlineInstances(instances);
    ghost var before := store.clients;
    var i := 0;
    while i < |online|
      invariant 0 <= i <= |online|
      invariant store.clients == ClientsCreated(before, online[..i])
    {
      assert online[..i + 1][..i] == online[..i];
      store.CreateClient(online[i].cwd, online[i].port);
      i := i + 1;
    }
    assert online[..|online|] == online;
  }

  method RemoveUnavailableClients(store: OpencodeClientStore, instances: seq<WebInstance>)
    modifies store
    ensures store.clients == ClientsRetained(old(store.clients), instances)
  {
    var availableCwds := Image(instances, Cwd);
    ghost var before := store.clients;
    var cwds := store.clients.Keys;
    while cwds != {}
      invariant cwds <= before.Keys
      invariant store.clients == map k | k in before && (k in availableCwds || k in cwds) :: before[k]
      decreases cwds
    {
      var cwd :| cwd in cwds;
      if cwd !in availableCwds {
        store.RemoveClient(cwd);
      }
      cwds := cwds - {cwd};
    }
  }

  /** `if (brokerStatus === "offline") clearAllClients()`; `None` is a broker answer not yet received. */
  method ClearWhenBrokerOffline(store: OpencodeClientStore, brokerStatus: Option<Status>)
    modifies store
    ensures brokerStatus == Some(Offline) ==> store.clients == map[]
    ensures brokerStatus != Some(Offline) ==> store.clients == old(store.clients)
  {
    if brokerStatus == Some(Offline) {
      store.ClearAllClients();
    }
  }
}
