/**
 * The recent-projects store (apps/web/src/store/recent-projects.ts): a list
 * of remembered project folders, most recently added first, unique by path.
 * `new Date().toISOString()` is the explicit parameter `now`, and `lastUsed`
 * is kept as the milliseconds that string denotes.
 */
module RecentProjects {
  import opened Wrappers
  import opened Seqs
  import opened PathNames

  datatype RecentProject = RecentProject(path: string, lastUsed: int, name: string)

  function PathIs(path: string): RecentProject -> bool {
    (p: RecentProject) => p.path == path
  }

  function PathIsNot(path: string): RecentProject -> bool {
    (p: RecentProject) => p.path != path
  }

  predicate HasPath(ps: seq<RecentProject>, path: string) {
    exists i :: 0 <= i < |ps| && ps[i].path == path
  }

  predicate UniquePaths(ps: seq<RecentProject>) {
    forall i, j :: 0 <= i < j < |ps| ==> ps[i].path != ps[j].path
  }

  /** `addProject`: refresh a known path in place, or put a new one in front. */
  function ProjectAdded(ps: seq<RecentProject>, path: string, name: string, now: int): (r: seq<RecentProject>)
    ensures HasPath(ps, path) ==> |r| == |ps|
    ensures !HasPath(ps, path) ==> |r| == |ps| + 1
  {
    match FirstIndex(ps, PathIs(path))
    case Some(i) => ps[i := RecentProject(path, now, name)]
    case None => [RecentProject(path, now, name)] + ps
  }

  /**
   * A known path is refreshed where it stands and nothing else changes; a new
   * path becomes the first entry, followed by the old list.
   */
  lemma {:induction false} ProjectAddedPlacement(ps: seq<RecentProject>, path: string, name: string, now: int)
    ensures var r := ProjectAdded(ps, path, name, now);
      match FirstIndex(ps, PathIs(path))
      case Some(i) =>
        && r[i] == RecentProject(path, now, name)
        && (forall j :: 0 <= j < |ps| && j != i ==> r[j] == ps[j])
      case None =>
        && r[0] == RecentProject(path, now, name)
        && r[1..] == ps
  {
  }

  /** Adding keeps the paths unique. */
  lemma {:induction false} ProjectAddedKeepsUnique(ps: seq<RecentProject>, path: string, name: string, now: int)
    requires UniquePaths(ps)
    ensures UniquePaths(ProjectAdded(ps, path, name, now))
  {
    var r := ProjectAdded(ps, path, name, now);
    match FirstIndex(ps, PathIs(path))
    case Some(i) =>
      forall a, b | 0 <= a < b < |r| ensures r[a].path != r[b].path {
        assert r[a].path == ps[a].path && r[b].path == ps[b].path;
      }
    case None =>
      forall a, b | 0 <= a < b < |r| ensures r[a].path != r[b].path {
        if a == 0 {
          assert !PathIs(path)(ps[b - 1]);
        } else {
          assert r[a] == ps[a - 1] && r[b] == ps[b - 1];
        }
      }
  }

  /** `removeProject`: every entry with that path is dropped, the rest keep their order. */
  function ProjectRemoved(ps: seq<RecentProject>, path: string): (r: seq<RecentProject>)
    ensures !HasPath(r, path)
  {
    FilterKeeps(ps, PathIsNot(path));
    Filter(ps, PathIsNot(path))
  }

  /** `removeProject` drops exactly the projects with that path and keeps every other one. */
  lemma RemoveKeepsOthers(ps: seq<RecentProject>, path: string, q: RecentProject)
    ensures q in ProjectRemoved(ps, path) <==> q in ps && q.path != path
  {
    FilterMembers(ps, PathIsNot(path), q);
  }

  /** Removing a path that is not there changes nothing. */
  lemma {:induction false} RemoveAbsentIsNoOp(ps: seq<RecentProject>, path: string)
    requires !HasPath(ps, path)
    ensures ProjectRemoved(ps, path) == ps
  {
    FilterAll(ps, PathIsNot(path));
  }

  /** Removing undoes adding: once removed, a path leaves the list as if it had never been added. */
  lemma {:induction false} RemoveUndoesAdd(ps: seq<RecentProject>, path: string, name: string, now: int)
    ensures ProjectRemoved(ProjectAdded(ps, path, name, now), path) == ProjectRemoved(ps, path)
  {
    var x := RecentProject(path, now, name);
    match FirstIndex(ps, PathIs(path))
    case Some(i) =>
      FilterUpdateDropped(ps, PathIsNot(path), i, x);
    case None =>
      assert ([x] + ps)[1..] == ps;
  }

  /** `getProjectName`: the last piece of the path split on '/' or '\', or the whole path when that piece is empty. */
  function GetProjectName(path: string): string {
    var parts := Split(path);
    if parts[|parts| - 1] != "" then parts[|parts| - 1] else path
  }

  /**
   * The name is the path's final folder name — a non-empty, separator-free
   * suffix that follows a separator or is the whole path — except that a
   * path ending in a separator (or empty) names itself.
   */
  lemma {:induction false} GetProjectNameFacts(path: string)
    ensures var n := GetProjectName(path);
      && (LastSegment(path) != "" ==>
            n == LastSegment(path) && NoSep(n) && path == path[..|path| - |n|] + n
            && (|n| < |path| ==> IsSep(path[|path| - |n| - 1])))
      && (LastSegment(path) == "" ==> n == path)
  {
    SplitLast(path);
    LastSegmentFacts(path);
  }

  /** The store's `projects` field. */
  class RecentProjectsStore {
    var projects: seq<RecentProject>

    constructor()
      ensures projects == []
    {
      projects := [];
    }

    method AddProject(path: string, name: string, now: int)
      modifies this
      ensures projects == ProjectAdded(old(projects), path, name, now)
    {
      var updatedProject := RecentProject(path, now, name);
      match FirstIndex(projects, PathIs(path))
      case Some(existingIndex) =>
        projects := projects[existingIndex := updatedProject];
      case None =>
        projects := [updatedProject] + projects;
    }

    method RemoveProject(path: string)
      modifies this
      ensures projects == ProjectRemoved(old(projects), path)
    {
      projects := Filter(projects, PathIsNot(path));
    }
  }
}

/**
 * The client store (apps/web/src/store/opencode-client.ts): one SDK client
 * per project folder, keyed by cwd. The client object is opaque; it is
 * represented by the settings it is built with.
 */
module ClientStore {
  import opened Wrappers

  /** An SDK client for `http://localhost:<port>/api` that retries twice. */
  datatype Client = Client(port: int, maxRetries: nat)

  datatype ClientData = ClientData(cwd: string, port: int, client: Client)

  const MAX_RETRIES: nat := 2

  /**
   * `createClient`: nothing happens when the cwd already has a client on that
   * port; otherwise the cwd gets a fresh client for the port.
   */
  function ClientCreated(clients: map<string, ClientData>, cwd: string, port: int): (r: map<string, ClientData>)
    ensures cwd in r && r[cwd].port == port
    ensures forall k :: k != cwd ==> (k in r <==> k in clients)
    ensures forall k :: k != cwd && k in r ==> r[k] == clients[k]
    ensures cwd in clients && clients[cwd].port == port ==> r == clients
  {
    if cwd in clients && clients[cwd].port == port then clients
    else clients[cwd := ClientData(cwd, port, Client(port, MAX_RETRIES))]
  }

  /** `removeClient`: only the cwd's entry goes; a missing one is no change. */
  function ClientRemoved(clients: map<string, ClientData>, cwd: string): (r: map<string, ClientData>)
    ensures cwd !in r
    ensures forall k :: k != cwd ==> (k in r <==> k in clients) && (k in r ==> r[k] == clients[k])
    ensures cwd !in clients ==> r == clients
  {
    clients - {cwd}
  }

  /** `getClient`: the cwd's client, or `None` (the source's `null`). */
  function ClientOf(clients: map<string, ClientData>, cwd: string): (r: Option<Client>)
    ensures r.Some? <==> cwd in clients
  {
    if cwd in clients then Some(clients[cwd].client) else None
  }

  /** Right after `createClient(cwd, port)` there is a client for cwd, and it talks to that port. */
  lemma {:induction false} ClientAfterCreate(clients: map<string, ClientData>, cwd: string, port: int)
    ensures ClientOf(ClientCreated(clients, cwd, port), cwd).Some?
    ensures cwd in clients && clients[cwd].port == port ==> ClientOf(ClientCreated(clients, cwd, port), cwd) == ClientOf(clients, cwd)
    ensures !(cwd in clients && clients[cwd].port == port) ==> ClientOf(ClientCreated(clients, cwd, port), cwd) == Some(Client(port, MAX_RETRIES))
  {
  }

  /** Creating the same client twice is the same as creating it once. */
  lemma {:induction false} CreateIdempotent(clients: map<string, ClientData>, cwd: string, port: int)
    ensures ClientCreated(ClientCreated(clients, cwd, port), cwd, port) == ClientCreated(clients, cwd, port)
  {
  }

  /** The store's `clients` field. */
  class OpencodeClientStore {
    var clients: map<string, ClientData>

    constructor()
      ensures clients == map[]
    {
      clients := map[];
    }

    function GetClient(cwd: string): Option<Client>
      reads this
    {
      ClientOf(clients, cwd)
    }

    method CreateClient(cwd: string, port: int)
      modifies this
      ensures clients == ClientCreated(old(clients), cwd, port)
    {
      if cwd in clients && clients[cwd].port == port {
        return;
      }
      var client := Client(port, MAX_RETRIES);
      clients := clients[cwd := ClientData(cwd, port, client)];
    }

    method RemoveClient(cwd: string)
      modifies this
      ensures clients == ClientRemoved(old(clients), cwd)
    {
      var newClients := clients;
      if cwd in newClients {
        newClients := newClients - {cwd};
      }
      clients := newClients;
    }

    method ClearAllClients()
      modifies this
      ensures clients == map[]
      ensures forall cwd :: GetClient(cwd).None?
    {
      clients := map[];
    }
  }
}

/**
 * The last-session store (apps/web/src/store/last-session.ts): the session
 * last opened in each project folder.
 */
module LastSession {
  import opened Wrappers

  class LastSessionStore {
    var sessions: map<string, string>

    constructor()
      ensures sessions == map[]
    {
      sessions := map[];
    }

    /** `getLastSession`: `None` (the source's `undefined`) for a folder never set. */
    function GetLastSession(cwd: string): Option<string>
      reads this
    {
      if cwd in sessions then Some(sessions[cwd]) else None
    }

    /** `setLastSession`: the folder now reads back the session; every other folder reads as before. */
    method SetLastSession(cwd: string, sessionId: string)
      modifies this
      ensures sessions == old(sessions)[cwd := sessionId]
      ensures GetLastSession(cwd) == Some(sessionId)
      ensures forall c :: c != cwd ==> GetLastSession(c) == old(GetLastSession(c))
    {
      sessions := sessions[cwd := sessionId];
    }

    /** `clearAll`: every folder reads as never set. */
    method ClearAll()
      modifies this
      ensures sessions == map[]
      ensures forall c :: GetLastSession(c).None?
    {
      sessions := map[];
    }
  }
}
