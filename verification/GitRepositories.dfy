/** Git connections, the repositories reached through them, and each tenant's one default. */
module GitRepositories {
  import opened Prelude
  import opened Text

  /** One host a tenant's board can authenticate to; the empty url is the provider's public one. */
  datatype Connection = Connection(tenant: string, provider: string, baseUrl: string)

  /** One project worked on through a connection. `defaultFor` names the tenant it is the default of. */
  datatype Repo = Repo(tenant: string, connection: nat, project: string, defaultFor: Option<string>)

  /** Both tables, by row id. */
  datatype Db = Db(connections: map<nat, Connection>, repos: map<nat, Repo>)

  /** A row this tenant does not have, or a write a unique index refuses. */
  datatype Error = NotFound | Conflict

  // ----- reads -----

  function OwnConnections(db: Db, t: string): set<nat> {
    set c | c in db.connections && db.connections[c].tenant == t
  }

  function OwnRepos(db: Db, t: string): set<nat> {
    set r | r in db.repos && db.repos[r].tenant == t
  }

  function Defaults(db: Db, t: string): set<nat> {
    set r | r in db.repos && db.repos[r].defaultFor == Some(t)
  }

  /** The tenant's connections that name a host. */
  function Naming(db: Db, t: string, provider: string, baseUrl: string): set<nat> {
    set c | c in OwnConnections(db, t) && db.connections[c].provider == provider && db.connections[c].baseUrl == baseUrl
  }

  /** The repositories of a connection that name a project. */
  function Holding(db: Db, connection: nat, project: string): set<nat> {
    set r | r in db.repos && db.repos[r].connection == connection && db.repos[r].project == project
  }

  /** The default repository, with its connection. */
  function DefaultRepository(db: Db, t: string): Option<nat> {
    if Defaults(db, t) == {} then None
    else
      var r := MinOf(Defaults(db, t));
      if db.repos[r].connection in OwnConnections(db, t) then Some(r) else None
  }

  function Matches(db: Db, t: string, wanted: string): set<nat> {
    set r | r in OwnRepos(db, t) && db.repos[r].project == wanted
  }

  /** The default among the matches, else the oldest of them. */
  function Preferred(db: Db, among: set<nat>): (r: nat)
    requires among != {} && among <= db.repos.Keys
    ensures r in among
  {
    var marked := set r | r in among && db.repos[r].defaultFor.Some?;
    MinOf(if marked == {} then among else marked)
  }

  /** An explicit id, else a repository holding the project, else the default. */
  function Resolve(db: Db, t: string, repository: Option<nat>, project: string): Result<Option<nat>, Error> {
    if repository.Some? && repository.value !in OwnRepos(db, t) then Err(NotFound)
    else if repository.Some? && db.repos[repository.value].connection in OwnConnections(db, t) then Ok(repository)
    else
      var wanted := Strip(project);
      if wanted != "" && Matches(db, t, wanted) != {} then
        var chosen := Preferred(db, Matches(db, t, wanted));
        Ok(if db.repos[chosen].connection in OwnConnections(db, t) then Some(chosen) else DefaultRepository(db, t))
      else Ok(DefaultRepository(db, t))
  }

  // ----- writes -----

  function CreateConnection(db: Db, t: string, id: nat, provider: string, baseUrl: string): Result<Db, Error>
    requires id !in db.connections
  {
    if Naming(db, t, provider, baseUrl) != {} then Err(Conflict)
    else Ok(WithConnection(db, id, Connection(t, provider, baseUrl)))
  }

  function UpdateConnection(db: Db, t: string, id: nat, provider: string, baseUrl: string): Result<Db, Error> {
    if id !in OwnConnections(db, t) then Err(NotFound)
    else if Naming(db, t, provider, baseUrl) - {id} != {} then Err(Conflict)
    else Ok(WithConnection(db, id, Connection(t, provider, baseUrl)))
  }

  function DeleteConnection(db: Db, t: string, id: nat): Result<Db, Error> {
    if id !in OwnConnections(db, t) then Err(NotFound)
    else Ok(EnsureDefault(DropConnection(db, id), t))
  }

  /** A connection's rows removed, its repositories with it. */
  function DropConnection(db: Db, id: nat): Db {
    Db(db.connections - {id}, map r | r in db.repos && db.repos[r].connection != id :: db.repos[r])
  }

  function DropRepo(db: Db, id: nat): Db {
    db.(repos := db.repos - {id})
  }

  function CreateRepository(db: Db, t: string, id: nat, connection: nat, project: string, makeDefault: bool): Result<Db, Error>
    requires id !in db.repos
  {
    if connection !in OwnConnections(db, t) then Err(NotFound)
    else if Holding(db, connection, project) != {} then Err(Conflict)
    else
      var added := WithRepo(db, id, Repo(t, connection, project, None));
      Ok(if makeDefault || DefaultRepository(db, t).None? then Marked(added, t, id) else added)
  }

  function WithRepo(db: Db, id: nat, repo: Repo): Db {
    db.(repos := db.repos[id := repo])
  }

  function WithConnection(db: Db, id: nat, connection: Connection): Db {
    db.(connections := db.connections[id := connection])
  }

  function UpdateRepository(db: Db, t: string, id: nat, project: string): Result<Db, Error> {
    if id !in OwnRepos(db, t) then Err(NotFound)
    else if db.repos[id].connection !in OwnConnections(db, t) then Err(NotFound)
    else if Holding(db, db.repos[id].connection, project) - {id} != {} then Err(Conflict)
    else Ok(WithRepo(db, id, db.repos[id].(project := project)))
  }

  function DeleteRepository(db: Db, t: string, id: nat): Result<Db, Error> {
    if id !in OwnRepos(db, t) then Err(NotFound)
    else Ok(EnsureDefault(DropRepo(db, id), t))
  }

  function SetDefault(db: Db, t: string, id: nat): Result<Db, Error> {
    if id !in OwnRepos(db, t) then Err(NotFound) else Ok(Marked(db, t, id))
  }

  /** The flag taken off every other row that holds it for this tenant, and put on one. */
  function Marked(db: Db, t: string, id: nat): Db {
    db.(repos := map r | r in db.repos ::
        if r == id then db.repos[r].(defaultFor := Some(t))
        else if db.repos[r].defaultFor == Some(t) then db.repos[r].(defaultFor := None)
        else db.repos[r])
  }

  /** Promote the oldest repository of a tenant that has lost its default. */
  function EnsureDefault(db: Db, t: string): Db {
    if OwnRepos(db, t) == {} || (exists r :: r in OwnRepos(db, t) && db.repos[r].defaultFor.Some?) then db
    else Marked(db, t, MinOf(OwnRepos(db, t)))
  }

  function ClearDefault(db: Db, t: string): Db {
    db.(repos := map r | r in db.repos ::
        if db.repos[r].defaultFor == Some(t) then db.repos[r].(defaultFor := None) else db.repos[r])
  }

  // ----- what every operation keeps -----

  /** No other connection of its tenant names its host. */
  ghost predicate ConnectionOk(db: Db, c: nat)
    requires c in db.connections
  {
    Naming(db, db.connections[c].tenant, db.connections[c].provider, db.connections[c].baseUrl) == {c}
  }

  /** Its connection exists and is its tenant's, no other repository of that connection holds its project, and a default flag is its own tenant's only one. */
  ghost predicate RepoOk(db: Db, r: nat)
    requires r in db.repos
  {
    var repo := db.repos[r];
    && repo.connection in db.connections && db.connections[repo.connection].tenant == repo.tenant
    && Holding(db, repo.connection, repo.project) == {r}
    && (repo.defaultFor.Some? ==> repo.defaultFor.value == repo.tenant && Defaults(db, repo.tenant) == {r})
  }

  ghost predicate Valid(db: Db) {
    && (forall c {:trigger ConnectionOk(db, c)} :: c in db.connections ==> ConnectionOk(db, c))
    && (forall r {:trigger RepoOk(db, r)} :: r in db.repos ==> RepoOk(db, r))
  }

  /** One default if there are repositories, none otherwise. */
  predicate Covered(db: Db, t: string) {
    if OwnRepos(db, t) == {} then Defaults(db, t) == {} else |Defaults(db, t)| == 1
  }

  /** What belongs to one tenant. */
  datatype View = View(connections: map<nat, Connection>, repos: map<nat, Repo>)

  function ViewOf(db: Db, t: string): View {
    View(map c | c in OwnConnections(db, t) :: db.connections[c], map r | r in OwnRepos(db, t) :: db.repos[r])
  }

  datatype Action =
    | AddConnection(id: nat, provider: string, baseUrl: string)
    | EditConnection(id: nat, provider: string, baseUrl: string)
    | RemoveConnection(id: nat)
    | AddRepo(id: nat, connection: nat, project: string, makeDefault: bool)
    | EditRepo(id: nat, project: string)
    | RemoveRepo(id: nat)
    | ChooseDefault(id: nat)
    | Clear

  datatype Step = Step(caller: string, action: Action)

  /** One call by one tenant. A new row's id is one the database has not given out. */
  function Attempt(db: Db, step: Step): Result<Db, Error> {
    match step.action
    case AddConnection(id, p, u) => if id in db.connections then Err(Conflict) else CreateConnection(db, step.caller, id, p, u)
    case EditConnection(id, p, u) => UpdateConnection(db, step.caller, id, p, u)
    case RemoveConnection(id) => DeleteConnection(db, step.caller, id)
    case AddRepo(id, c, p, d) => if id in db.repos then Err(Conflict) else CreateRepository(db, step.caller, id, c, p, d)
    case EditRepo(id, p) => UpdateRepository(db, step.caller, id, p)
    case RemoveRepo(id) => DeleteRepository(db, step.caller, id)
    case ChooseDefault(id) => SetDefault(db, step.caller, id)
    case Clear => Ok(ClearDefault(db, step.caller))
  }

  function Next(db: Db, step: Step): Db {
    match Attempt(db, step)
    case Ok(after) => after
    case Err(_) => db
  }

  function Run(db: Db, steps: seq<Step>): Db
    decreases |steps|
  {
    if steps == [] then db else Run(Next(db, steps[0]), steps[1..])
  }

  lemma DefaultsAtMostOne(db: Db, t: string)
    requires Valid(db)
    ensures Defaults(db, t) <= OwnRepos(db, t) && |Defaults(db, t)| <= 1
    ensures Covered(db, t) <==> (OwnRepos(db, t) != {} ==> Defaults(db, t) != {})
    ensures DefaultRepository(db, t).Some? <==> Defaults(db, t) != {}
    ensures forall r :: r in Defaults(db, t) ==> DefaultRepository(db, t) == Some(r)
  {
    if r :| r in Defaults(db, t) {
      assert RepoOk(db, r);
      assert Defaults(db, t) == {r};
    }
  }

  lemma MarkedKeepsValid(db: Db, t: string, id: nat)
    requires Valid(db) && id in OwnRepos(db, t)
    ensures Valid(Marked(db, t, id)) && Defaults(Marked(db, t, id), t) == {id}
    ensures OwnRepos(Marked(db, t, id), t) == OwnRepos(db, t)
  {
    var after := Marked(db, t, id);
    assert RepoOk(db, id);
    assert Defaults(after, t) == {id};
    forall r | r in after.repos
      ensures RepoOk(after, r)
    {
      assert RepoOk(db, r);
      var repo := db.repos[r];
      assert Holding(after, repo.connection, repo.project) == Holding(db, repo.connection, repo.project);
      assert repo.tenant != t ==> Defaults(after, repo.tenant) == Defaults(db, repo.tenant);
    }
    ConnectionsKept(db, after);
  }

  lemma ConnectionsKept(db: Db, after: Db)
    requires Valid(db) && after.connections == db.connections
    ensures forall c :: c in after.connections ==> ConnectionOk(after, c)
  {
    forall c | c in after.connections
      ensures ConnectionOk(after, c)
    {
      assert ConnectionOk(db, c);
      var row := db.connections[c];
      assert Naming(after, row.tenant, row.provider, row.baseUrl) == Naming(db, row.tenant, row.provider, row.baseUrl);
    }
  }

  lemma EnsureKeepsValid(db: Db, t: string)
    requires Valid(db)
    ensures Valid(EnsureDefault(db, t)) && Covered(EnsureDefault(db, t), t)
  {
    if EnsureDefault(db, t) == db {
      DefaultsAtMostOne(db, t);
      if r :| r in OwnRepos(db, t) && db.repos[r].defaultFor.Some? {
        assert RepoOk(db, r);
        assert r in Defaults(db, t);
      }
    } else {
      MarkedKeepsValid(db, t, MinOf(OwnRepos(db, t)));
    }
  }

  lemma WithConnectionKeepsValid(db: Db, id: nat, row: Connection)
    requires Valid(db)
    requires id !in db.connections || id in OwnConnections(db, row.tenant)
    requires Naming(db, row.tenant, row.provider, row.baseUrl) <= {id}
    ensures Valid(WithConnection(db, id, row))
  {
    var after := WithConnection(db, id, row);
    assert Naming(after, row.tenant, row.provider, row.baseUrl) == {id};
    forall c | c in after.connections
      ensures ConnectionOk(after, c)
    {
      if c != id {
        assert ConnectionOk(db, c);
        var other := db.connections[c];
        assert c in Naming(db, other.tenant, other.provider, other.baseUrl);
        assert other != row;
        assert Naming(after, other.tenant, other.provider, other.baseUrl) == {c};
      }
    }
    forall r | r in after.repos
      ensures RepoOk(after, r)
    {
      assert RepoOk(db, r);
      var repo := db.repos[r];
      assert Holding(after, repo.connection, repo.project) == Holding(db, repo.connection, repo.project);
      assert Defaults(after, repo.tenant) == Defaults(db, repo.tenant);
    }
  }

  lemma WithRepoKeepsValid(db: Db, id: nat, repo: Repo)
    requires Valid(db) && Holding(db, repo.connection, repo.project) <= {id}
    requires repo.connection in OwnConnections(db, repo.tenant)
    requires if id in db.repos then db.repos[id].tenant == repo.tenant && db.repos[id].defaultFor == repo.defaultFor else repo.defaultFor == None
    ensures Valid(WithRepo(db, id, repo))
    ensures forall u :: Defaults(WithRepo(db, id, repo), u) == Defaults(db, u)
  {
    var after := WithRepo(db, id, repo);
    forall u
      ensures Defaults(after, u) == Defaults(db, u)
    {
    }
    assert id in db.repos ==> RepoOk(db, id);
    assert Holding(after, repo.connection, repo.project) == {id};
    forall r | r in after.repos
      ensures RepoOk(after, r)
    {
      if r != id {
        assert RepoOk(db, r);
        var other := db.repos[r];
        assert r in Holding(db, other.connection, other.project);
        assert Holding(after, other.connection, other.project) == {r};
      }
    }
    ConnectionsKept(db, after);
  }

  lemma RemovalKeepsValid(db: Db, after: Db)
    requires Valid(db)
    requires after.connections.Keys <= db.connections.Keys && after.repos.Keys <= db.repos.Keys
    requires forall c :: c in after.connections ==> after.connections[c] == db.connections[c]
    requires forall r :: r in after.repos ==> after.repos[r] == db.repos[r] && db.repos[r].connection in after.connections
    ensures Valid(after)
  {
    forall c | c in after.connections
      ensures ConnectionOk(after, c)
    {
      assert ConnectionOk(db, c);
      var row := db.connections[c];
      var before, now := Naming(db, row.tenant, row.provider, row.baseUrl), Naming(after, row.tenant, row.provider, row.baseUrl);
      assert c in now && now <= before;
    }
    forall r | r in after.repos
      ensures RepoOk(after, r)
    {
      assert RepoOk(db, r);
      var repo := db.repos[r];
      assert r in Holding(after, repo.connection, repo.project);
      assert Holding(after, repo.connection, repo.project) <= Holding(db, repo.connection, repo.project);
      assert Defaults(after, repo.tenant) <= Defaults(db, repo.tenant);
      assert repo.defaultFor == Some(repo.tenant) ==> r in Defaults(after, repo.tenant);
    }
  }

  lemma DropConnectionKeepsValid(db: Db, id: nat)
    requires Valid(db)
    ensures Valid(DropConnection(db, id))
  {
    forall r | r in DropConnection(db, id).repos
      ensures db.repos[r].connection in DropConnection(db, id).connections
    {
      assert RepoOk(db, r);
    }
    RemovalKeepsValid(db, DropConnection(db, id));
  }

  lemma DropRepoKeepsValid(db: Db, id: nat)
    requires Valid(db)
    ensures Valid(DropRepo(db, id))
  {
    forall r | r in DropRepo(db, id).repos
      ensures db.repos[r].connection in db.connections
    {
      assert RepoOk(db, r);
    }
    RemovalKeepsValid(db, DropRepo(db, id));
  }

  lemma ClearKeepsValid(db: Db, t: string)
    requires Valid(db)
    ensures Valid(ClearDefault(db, t)) && Defaults(ClearDefault(db, t), t) == {} && OwnRepos(ClearDefault(db, t), t) == OwnRepos(db, t)
  {
    var after := ClearDefault(db, t);
    forall r | r in after.repos
      ensures RepoOk(after, r)
    {
      assert RepoOk(db, r);
      var repo := db.repos[r];
      assert Holding(after, repo.connection, repo.project) == Holding(db, repo.connection, repo.project);
      assert repo.tenant != t ==> Defaults(after, repo.tenant) == Defaults(db, repo.tenant);
    }
    ConnectionsKept(db, after);
  }

  lemma CreateRepoKeepsValid(db: Db, t: string, id: nat, connection: nat, project: string, makeDefault: bool)
    requires Valid(db) && id !in db.repos && CreateRepository(db, t, id, connection, project, makeDefault).Ok?
    ensures var after := CreateRepository(db, t, id, connection, project, makeDefault).value; Valid(after) && Covered(after, t)
  {
    var row := Repo(t, connection, project, None);
    WithRepoKeepsValid(db, id, row);
    MarkedKeepsValid(WithRepo(db, id, row), t, id);
    DefaultsAtMostOne(db, t);
    DefaultsAtMostOne(WithRepo(db, id, row), t);
  }

  lemma StepKeepsValid(db: Db, step: Step)
    requires Valid(db)
    ensures Valid(Next(db, step))
    ensures Repairs(db, step) ==> Covered(Next(db, step), step.caller)
  {
    var t := step.caller;
    if Attempt(db, step).Ok? {
      match step.action
      case AddConnection(id, p, u) => WithConnectionKeepsValid(db, id, Connection(t, p, u));
      case EditConnection(id, p, u) => WithConnectionKeepsValid(db, id, Connection(t, p, u));
      case RemoveConnection(id) =>
        DropConnectionKeepsValid(db, id);
        EnsureKeepsValid(DropConnection(db, id), t);
      case AddRepo(id, c, p, d) => CreateRepoKeepsValid(db, t, id, c, p, d);
      case EditRepo(id, p) =>
        assert RepoOk(db, id);
        WithRepoKeepsValid(db, id, db.repos[id].(project := p));
      case RemoveRepo(id) =>
        DropRepoKeepsValid(db, id);
        EnsureKeepsValid(DropRepo(db, id), t);
      case ChooseDefault(id) => MarkedKeepsValid(db, t, id);
      case Clear => ClearKeepsValid(db, t);
    }
  }

  lemma {:induction false} RunKeepsValid(db: Db, steps: seq<Step>)
    requires Valid(db)
    ensures Valid(Run(db, steps))
    decreases |steps|
  {
    if steps != [] {
      StepKeepsValid(db, steps[0]);
      RunKeepsValid(Next(db, steps[0]), steps[1..]);
    }
  }

  /** Over any run of calls by any tenants: no host is configured twice, every repository's connection exists and is its tenant's, no tenant has two defaults, and the default is one of its own repositories with a live connection. */
  lemma EveryRunKeepsValid(db: Db, steps: seq<Step>, t: string)
    requires Valid(db)
    ensures var after := Run(db, steps);
      && (forall c :: c in after.connections ==> ConnectionOk(after, c))
      && (forall r :: r in after.repos ==> RepoOk(after, r))
      && |Defaults(after, t)| <= 1
      && (forall r :: r in Defaults(after, t) ==> r in OwnRepos(after, t) && DefaultRepository(after, t) == Some(r))
  {
    RunKeepsValid(db, steps);
    DefaultsAtMostOne(Run(db, steps), t);
  }

  // ----- what one call does to the rows and the default -----

  /** The repositories a removal takes. */
  function Doomed(db: Db, action: Action): set<nat> {
    match action
    case RemoveRepo(id) => {id}
    case RemoveConnection(id) => set r | r in db.repos && db.repos[r].connection == id
    case _ => {}
  }

  /** A removal takes the row and, with a connection, its repositories, and no other; the default stays when it survives, and otherwise passes to the oldest repository left. */
  lemma RemovalTakesExactly(db: Db, step: Step)
    requires Valid(db) && Attempt(db, step).Ok? && (step.action.RemoveRepo? || step.action.RemoveConnection?)
    ensures var t, after, doomed := step.caller, Next(db, step), Doomed(db, step.action);
      && after.connections == (if step.action.RemoveConnection? then db.connections - {step.action.id} else db.connections)
      && after.repos.Keys == db.repos.Keys - doomed
      && (forall r :: r in after.repos ==> after.repos[r].(defaultFor := None) == db.repos[r].(defaultFor := None))
      && Defaults(after, t) == (if OwnRepos(db, t) - doomed == {} then {}
                                else if Defaults(db, t) - doomed != {} then Defaults(db, t)
                                else {MinOf(OwnRepos(db, t) - doomed)})
  {
    var t, doomed := step.caller, Doomed(db, step.action);
    match step.action
    case RemoveRepo(id) =>
      DropRepoKeepsValid(db, id);
      PromotionIs(db, DropRepo(db, id), t, doomed);
    case RemoveConnection(id) =>
      DropConnectionKeepsValid(db, id);
      PromotionIs(db, DropConnection(db, id), t, doomed);
  }

  lemma PromotionIs(db: Db, kept: Db, t: string, doomed: set<nat>)
    requires Valid(db) && Valid(kept) && kept.repos == db.repos - doomed
    ensures Defaults(EnsureDefault(kept, t), t) ==
      (if OwnRepos(db, t) - doomed == {} then {}
       else if Defaults(db, t) - doomed != {} then Defaults(db, t)
       else {MinOf(OwnRepos(db, t) - doomed)})
  {
    assert OwnRepos(kept, t) == OwnRepos(db, t) - doomed;
    assert Defaults(kept, t) == Defaults(db, t) - doomed;
    DefaultsAtMostOne(db, t);
    DefaultsAtMostOne(kept, t);
    FlagsAreOwn(kept);
    if r :| r in Defaults(db, t) && r !in doomed {
      assert RepoOk(db, r);
    }
    if EnsureDefault(kept, t) == kept {
      assert Defaults(kept, t) == {} ==> OwnRepos(kept, t) == {} by {
        if r :| r in OwnRepos(kept, t) && kept.repos[r].defaultFor.Some? {
          assert r in Defaults(kept, t);
        }
      }
    } else {
      MarkedKeepsValid(kept, t, MinOf(OwnRepos(kept, t)));
    }
  }

  /** An added repository is stored as asked, becomes the default when asked to or when there is none, and otherwise leaves the default alone; it is refused exactly when the connection is not the tenant's or already holds the project. */
  lemma AddedRepository(db: Db, t: string, id: nat, connection: nat, project: string, makeDefault: bool)
    requires Valid(db) && id !in db.repos
    ensures var added := CreateRepository(db, t, id, connection, project, makeDefault);
      && (added.Ok? <==> connection in OwnConnections(db, t) && forall r :: r in db.repos && db.repos[r].connection == connection ==> db.repos[r].project != project)
      && (added.Ok? ==>
            && added.value.repos.Keys == db.repos.Keys + {id} && added.value.connections == db.connections
            && added.value.repos[id].(defaultFor := None) == Repo(t, connection, project, None)
            && Defaults(added.value, t) == (if makeDefault || Defaults(db, t) == {} then {id} else Defaults(db, t)))
  {
    if r :| r in Holding(db, connection, project) {
      assert db.repos[r].project == project;
    }
    assert Holding(db, connection, project) == {} ==> forall r :: r in db.repos && db.repos[r].connection == connection && db.repos[r].project == project ==> r in Holding(db, connection, project);
    DefaultsAtMostOne(db, t);
    if CreateRepository(db, t, id, connection, project, makeDefault).Ok? {
      var row := Repo(t, connection, project, None);
      WithRepoKeepsValid(db, id, row);
      MarkedKeepsValid(WithRepo(db, id, row), t, id);
    }
  }

  // ----- whose rows a call touches -----

  lemma SameView(db: Db, after: Db, t: string)
    requires forall c :: c in OwnConnections(db, t) || c in OwnConnections(after, t) ==> c in db.connections && c in after.connections && db.connections[c] == after.connections[c]
    requires forall r :: r in OwnRepos(db, t) || r in OwnRepos(after, t) ==> r in db.repos && r in after.repos && db.repos[r] == after.repos[r]
    ensures ViewOf(db, t) == ViewOf(after, t)
  {
    assert OwnConnections(db, t) == OwnConnections(after, t);
    assert OwnRepos(db, t) == OwnRepos(after, t);
  }

  lemma MarkedIsolated(db: Db, t: string, id: nat, other: string)
    requires Valid(db) && id in OwnRepos(db, t) && other != t
    ensures ViewOf(Marked(db, t, id), other) == ViewOf(db, other)
  {
    FlagsAreOwn(db);
    SameView(db, Marked(db, t, id), other);
  }

  lemma FlagsAreOwn(db: Db)
    requires Valid(db)
    ensures forall r :: r in db.repos ==>
      && (db.repos[r].defaultFor.Some? ==> db.repos[r].defaultFor.value == db.repos[r].tenant)
      && db.repos[r].connection in OwnConnections(db, db.repos[r].tenant)
  {
    assert forall r :: r in db.repos ==> RepoOk(db, r);
  }

  lemma EnsureIsolated(db: Db, t: string, other: string)
    requires Valid(db) && other != t
    ensures ViewOf(EnsureDefault(db, t), other) == ViewOf(db, other)
  {
    if EnsureDefault(db, t) != db {
      MarkedIsolated(db, t, MinOf(OwnRepos(db, t)), other);
    }
  }

  lemma StepIsolated(db: Db, step: Step, other: string)
    requires Valid(db) && step.caller != other
    ensures ViewOf(Next(db, step), other) == ViewOf(db, other)
  {
    var t := step.caller;
    FlagsAreOwn(db);
    if Attempt(db, step).Ok? {
      match step.action
      case RemoveConnection(id) =>
        DropConnectionKeepsValid(db, id);
        SameView(db, DropConnection(db, id), other);
        EnsureIsolated(DropConnection(db, id), t, other);
      case AddRepo(id, c, p, d) =>
        var row := Repo(t, c, p, None);
        WithRepoKeepsValid(db, id, row);
        SameView(db, WithRepo(db, id, row), other);
        MarkedIsolated(WithRepo(db, id, row), t, id, other);
      case RemoveRepo(id) =>
        DropRepoKeepsValid(db, id);
        SameView(db, DropRepo(db, id), other);
        EnsureIsolated(DropRepo(db, id), t, other);
      case ChooseDefault(id) => MarkedIsolated(db, t, id, other);
      case _ => SameView(db, Next(db, step), other);
    }
  }

  /** A tenant's own rows, defaults included, are exactly what its own calls left, whatever the others did in between. */
  lemma {:induction false} OthersNeverInterfere(db: Db, steps: seq<Step>, t: string)
    requires Valid(db) && forall i :: 0 <= i < |steps| ==> steps[i].caller != t
    ensures ViewOf(Run(db, steps), t) == ViewOf(db, t)
    decreases |steps|
  {
    if steps != [] {
      StepKeepsValid(db, steps[0]);
      StepIsolated(db, steps[0], t);
      OthersNeverInterfere(Next(db, steps[0]), steps[1..], t);
    }
  }

  // ----- when a tenant with repositories has a default -----

  /** A call that leaves its tenant with a default if it has any repository. */
  predicate Repairs(db: Db, step: Step) {
    Attempt(db, step).Ok? && (step.action.AddRepo? || step.action.RemoveRepo? || step.action.RemoveConnection? || step.action.ChooseDefault?)
  }

  /** Whether the tenant's default was cleared while it had repositories, and no call has repaired that since. */
  predicate LeftCleared(db: Db, steps: seq<Step>, t: string, before: bool)
    decreases |steps|
  {
    if steps == [] then before
    else
      var step := steps[0];
      LeftCleared(Next(db, step), steps[1..], t,
                  if step.caller != t then before
                  else if step.action.Clear? then OwnRepos(db, t) != {}
                  else before && !Repairs(db, step))
  }

  lemma CoverageOfViews(db: Db, after: Db, t: string)
    requires Valid(db) && Valid(after) && ViewOf(db, t) == ViewOf(after, t)
    ensures Covered(db, t) <==> Covered(after, t)
  {
    assert OwnRepos(db, t) == ViewOf(db, t).repos.Keys == OwnRepos(after, t);
    DefaultsAtMostOne(db, t);
    DefaultsAtMostOne(after, t);
    forall r | r in OwnRepos(db, t)
      ensures db.repos[r] == after.repos[r]
    {
      assert ViewOf(db, t).repos[r] == ViewOf(after, t).repos[r];
    }
    assert Defaults(db, t) == Defaults(after, t);
  }

  lemma StepCoverage(db: Db, step: Step)
    requires Valid(db)
    ensures Covered(Next(db, step), step.caller) <==>
      (if step.action.Clear? then OwnRepos(db, step.caller) == {} else Repairs(db, step) || Covered(db, step.caller))
  {
    var t, after := step.caller, Next(db, step);
    StepKeepsValid(db, step);
    if step.action.Clear? {
      ClearKeepsValid(db, t);
    } else if !Repairs(db, step) {
      assert OwnRepos(after, t) == OwnRepos(db, t) && Defaults(after, t) == Defaults(db, t);
    }
  }

  /** Over any run, a tenant has exactly one default if it has repositories and none otherwise, unless its default was cleared while it had repositories and no later create, delete or choice of default of its own succeeded. */
  lemma {:induction false} OneDefaultUnlessCleared(db: Db, steps: seq<Step>, t: string)
    requires Valid(db)
    ensures Covered(Run(db, steps), t) <==> !LeftCleared(db, steps, t, !Covered(db, t))
    decreases |steps|
  {
    if steps != [] {
      var step, after := steps[0], Next(db, steps[0]);
      StepKeepsValid(db, step);
      if step.caller == t {
        StepCoverage(db, step);
      } else {
        StepIsolated(db, step, t);
        CoverageOfViews(db, after, t);
      }
      OneDefaultUnlessCleared(after, steps[1..], t);
    }
  }

  /** In a run without a clear, a tenant that starts with a default keeps exactly one for as long as it has repositories. */
  lemma {:induction false} OneDefaultIffRepositories(db: Db, steps: seq<Step>, t: string)
    requires Valid(db) && Covered(db, t)
    requires forall i :: 0 <= i < |steps| ==> steps[i] != Step(t, Clear)
    ensures |Defaults(Run(db, steps), t)| == (if OwnRepos(Run(db, steps), t) == {} then 0 else 1)
  {
    OneDefaultUnlessCleared(db, steps, t);
    NeverLeftCleared(db, steps, t);
  }

  lemma {:induction false} NeverLeftCleared(db: Db, steps: seq<Step>, t: string)
    requires forall i :: 0 <= i < |steps| ==> steps[i] != Step(t, Clear)
    ensures !LeftCleared(db, steps, t, false)
    decreases |steps|
  {
    if steps != [] {
      assert steps[0] != Step(t, Clear);
      NeverLeftCleared(Next(db, steps[0]), steps[1..], t);
    }
  }

  // ----- resolving -----

  /** An unknown id is refused and a known one is itself; otherwise the answer is the tenant's own repository on its own connection, holding the asked-for project when any of its repositories does, and there is none exactly when no repository holds that project and there is no default. */
  lemma ResolveAnswers(db: Db, t: string, repository: Option<nat>, project: string)
    requires Valid(db)
    ensures var got := Resolve(db, t, repository, project);
      var held := set r | r in OwnRepos(db, t) && Strip(project) != "" && db.repos[r].project == Strip(project);
      && (got.Err? <==> repository.Some? && repository.value !in OwnRepos(db, t))
      && (got.Ok? && repository.Some? ==> got.value == repository)
      && (got.Ok? && repository.None? ==>
          && (got.value.None? <==> held == {} && Defaults(db, t) == {})
          && (got.value.Some? ==>
              && got.value.value in OwnRepos(db, t)
              && db.repos[got.value.value].connection in OwnConnections(db, t)
              && (held == {} ==> got.value.value in Defaults(db, t))
              && (held != {} ==> got.value.value in held)
              && (held !! Defaults(db, t) ==> forall r :: r in held ==> got.value.value <= r)
              && (!(held !! Defaults(db, t)) ==> got.value.value in Defaults(db, t))))
  {
    DefaultsAtMostOne(db, t);
    FlagsAreOwn(db);
    assert forall r :: r in OwnRepos(db, t) ==> (db.repos[r].defaultFor.Some? <==> r in Defaults(db, t));
    var wanted := Strip(project);
    var held := set r | r in OwnRepos(db, t) && wanted != "" && db.repos[r].project == wanted;
    if wanted != "" {
      assert held == Matches(db, t, wanted);
      var marked := set r | r in held && db.repos[r].defaultFor.Some?;
      assert marked == held * Defaults(db, t);
    } else {
      assert held == {};
    }
  }

  /** So a tenant whose default is covered is answered `None` only when it has no repository. */
  lemma ResolveNoneMeansNoRepository(db: Db, t: string, project: string)
    requires Valid(db) && Covered(db, t)
    ensures Resolve(db, t, None, project) == Ok(None) <==> OwnRepos(db, t) == {}
  {
    ResolveAnswers(db, t, None, project);
    DefaultsAtMostOne(db, t);
  }

  /** ... and one that has cleared its default is answered `None` with its repositories in place. */
  lemma ClearedTenantResolvesToNone(t: string, provider: string, project: string)
    ensures var made := Run(Db(map[], map[]), [Step(t, AddConnection(1, provider, "")), Step(t, AddRepo(1, 1, project, true)), Step(t, Clear)]);
      && Valid(made) && OwnRepos(made, t) == {1} && Resolve(made, t, None, "") == Ok(None)
  {
    var empty := Db(map[], map[]);
    var connected := Db(map[1 := Connection(t, provider, "")], map[]);
    var added := connected.(repos := map[1 := Repo(t, 1, project, Some(t))]);
    var steps := [Step(t, AddConnection(1, provider, "")), Step(t, AddRepo(1, 1, project, true)), Step(t, Clear)];
    assert Next(empty, steps[0]) == connected;
    assert 1 in OwnConnections(connected, t);
    assert Next(connected, steps[1]) == added;
    var made := Next(added, steps[2]);
    assert Run(empty, steps) == Run(connected, steps[1..]) == Run(added, steps[1..][1..]) == made by {
      assert steps[1..][1..][1..] == [];
      assert steps[1..][1..][0] == steps[2];
    }
    RunKeepsValid(empty, steps);
    ResolveAnswers(made, t, None, "");
    assert Strip("") == "";
    assert Defaults(made, t) == {};
  }

  // ----- saving one configuration -----

  /** The connection a saved configuration lands on: the one that names its host, else the default's or the only one, moved there, else a new one. */
  function Landing(db: Db, t: string, provider: string, baseUrl: string, newId: nat): (r: (Db, nat))
    requires Valid(db) && newId !in db.connections
  {
    var same, own := Naming(db, t, provider, baseUrl), OwnConnections(db, t);
    if same != {} then (db, MinOf(same))
    else
      var editable :=
        match DefaultRepository(db, t)
        case Some(r) => Some(db.repos[r].connection)
        case None => if |own| == 1 then Some(MinOf(own)) else None;
      if editable.Some? then (UpdateConnection(db, t, editable.value, provider, baseUrl).value, editable.value)
      else (CreateConnection(db, t, newId, provider, baseUrl).value, newId)
  }

  /** Save a provider, a host and a project as the tenant's one configuration; no project clears the default. */
  function Save(db: Db, t: string, provider: string, baseUrl: string, project: Option<string>, newConnection: nat, newRepo: nat): Db
    requires Valid(db) && newConnection !in db.connections && newRepo !in db.repos
  {
    LandingNames(db, t, provider, baseUrl, newConnection);
    var (landed, connection) := Landing(db, t, provider, baseUrl, newConnection);
    if project.None? then ClearDefault(landed, t)
    else
      var existing := Holding(landed, connection, project.value);
      if existing == {} then CreateRepository(landed, t, newRepo, connection, project.value, true).value
      else Marked(landed, t, MinOf(existing))
  }

  lemma LandingNames(db: Db, t: string, provider: string, baseUrl: string, newId: nat)
    requires Valid(db) && newId !in db.connections
    ensures var (landed, connection) := Landing(db, t, provider, baseUrl, newId);
      && Valid(landed) && landed.repos == db.repos
      && connection in landed.connections && landed.connections[connection] == Connection(t, provider, baseUrl)
      && landed.connections.Keys == db.connections.Keys + {connection}
      && forall c :: c in db.connections && c != connection ==> landed.connections[c] == db.connections[c]
  {
    if Naming(db, t, provider, baseUrl) == {} {
      var (landed, connection) := Landing(db, t, provider, baseUrl, newId);
      FlagsAreOwn(db);
      DefaultsAtMostOne(db, t);
      WithConnectionKeepsValid(db, connection, Connection(t, provider, baseUrl));
    }
  }

  /** Saving a configuration is what the default then resolves to: that project, on a connection to that host. At most one connection is touched and no repository is lost or loses its project. Saving without a project leaves no default. */
  lemma SavedConfigurationResolves(db: Db, t: string, provider: string, baseUrl: string, project: Option<string>, newConnection: nat, newRepo: nat)
    requires Valid(db) && newConnection !in db.connections && newRepo !in db.repos
    ensures var after := Save(db, t, provider, baseUrl, project, newConnection, newRepo);
      && Valid(after)
      && (forall r :: r in db.repos ==> r in after.repos && after.repos[r].(defaultFor := None) == db.repos[r].(defaultFor := None))
      && (exists moved :: after.connections.Keys == db.connections.Keys + {moved} && forall c :: c in db.connections && c != moved ==> after.connections[c] == db.connections[c])
      && (match DefaultRepository(after, t)
          case None => project.None?
          case Some(r) => project == Some(after.repos[r].project) && after.connections[after.repos[r].connection] == Connection(t, provider, baseUrl))
  {
    LandingNames(db, t, provider, baseUrl, newConnection);
    var (landed, connection) := Landing(db, t, provider, baseUrl, newConnection);
    var after := Save(db, t, provider, baseUrl, project, newConnection, newRepo);
    if project.None? {
      ClearKeepsValid(landed, t);
    } else {
      ProjectSaved(landed, t, connection, project.value, newRepo);
    }
    DefaultsAtMostOne(after, t);
  }

  lemma ProjectSaved(landed: Db, t: string, connection: nat, project: string, newRepo: nat)
    requires Valid(landed) && connection in OwnConnections(landed, t) && newRepo !in landed.repos
    ensures var existing := Holding(landed, connection, project);
      var chosen := if existing == {} then newRepo else MinOf(existing);
      var base := if existing == {} then WithRepo(landed, newRepo, Repo(t, connection, project, None)) else landed;
      var after := Marked(base, t, chosen);
      && Valid(after) && Defaults(after, t) == {chosen}
      && after.repos[chosen].project == project && after.repos[chosen].connection == connection
      && (existing == {} ==> CreateRepository(landed, t, newRepo, connection, project, true) == Ok(after))
      && forall r :: r in landed.repos ==> r in after.repos && after.repos[r].(defaultFor := None) == landed.repos[r].(defaultFor := None)
  {
    var existing := Holding(landed, connection, project);
    if existing == {} {
      WithRepoKeepsValid(landed, newRepo, Repo(t, connection, project, None));
      MarkedKeepsValid(WithRepo(landed, newRepo, Repo(t, connection, project, None)), t, newRepo);
    } else {
      assert RepoOk(landed, MinOf(existing));
      MarkedKeepsValid(landed, t, MinOf(existing));
    }
  }

  /** Connection `c` is the tenant's and names the host. */
  predicate NamesHost(db: Db, t: string, provider: string, baseUrl: string, c: nat) {
    c in db.connections && db.connections[c] == Connection(t, provider, baseUrl)
  }

  /** Repository `r` is the tenant's default. */
  predicate IsDefault(db: Db, t: string, r: nat) {
    r in db.repos && db.repos[r].defaultFor == Some(t)
  }

  /** Connection `c` is the tenant's only one. */
  predicate Sole(db: Db, t: string, c: nat) {
    c in db.connections && db.connections[c].tenant == t && forall d :: d in db.connections && db.connections[d].tenant == t ==> d == c
  }

  /** Which connection a save lands on. One that names the host is used and no row changes; else the default repository's connection is moved to it; else the tenant's only connection is; else a new row is added. */
  lemma SaveMovesConnection(db: Db, t: string, provider: string, baseUrl: string, project: Option<string>, newConnection: nat, newRepo: nat)
    requires Valid(db) && newConnection !in db.connections && newRepo !in db.repos
    ensures var after := Save(db, t, provider, baseUrl, project, newConnection, newRepo).connections;
      var row := Connection(t, provider, baseUrl);
      var named := exists c :: NamesHost(db, t, provider, baseUrl, c);
      var default := exists r :: IsDefault(db, t, r);
      && (named ==> after == db.connections)
      && (!named ==> forall r :: IsDefault(db, t, r) ==> after == db.connections[db.repos[r].connection := row])
      && (!named && !default ==> forall c :: Sole(db, t, c) ==> after == db.connections[c := row])
      && (!named && !default && !(exists c :: Sole(db, t, c)) ==> after == db.connections[newConnection := row])
  {
    LandingNames(db, t, provider, baseUrl, newConnection);
    SaveKeepsLanded(db, t, provider, baseUrl, project, newConnection, newRepo);
    var same := Naming(db, t, provider, baseUrl);
    assert forall c :: NamesHost(db, t, provider, baseUrl, c) <==> c in same;
    if same == {} {
      LandingMoves(db, t, provider, baseUrl, newConnection);
    }
  }

  lemma LandingMoves(db: Db, t: string, provider: string, baseUrl: string, newId: nat)
    requires Valid(db) && newId !in db.connections && Naming(db, t, provider, baseUrl) == {}
    ensures var after := Landing(db, t, provider, baseUrl, newId).0.connections;
      var row := Connection(t, provider, baseUrl);
      && (forall r :: IsDefault(db, t, r) ==> after == db.connections[db.repos[r].connection := row])
      && (!(exists r :: IsDefault(db, t, r)) ==> forall c :: Sole(db, t, c) ==> after == db.connections[c := row])
      && (!(exists r :: IsDefault(db, t, r)) && !(exists c :: Sole(db, t, c)) ==> after == db.connections[newId := row])
  {
    FlagsAreOwn(db);
    DefaultsAtMostOne(db, t);
    assert forall r :: r in Defaults(db, t) <==> IsDefault(db, t, r);
    OnlyOne(db, t);
  }

  lemma SaveKeepsLanded(db: Db, t: string, provider: string, baseUrl: string, project: Option<string>, newConnection: nat, newRepo: nat)
    requires Valid(db) && newConnection !in db.connections && newRepo !in db.repos
    ensures Save(db, t, provider, baseUrl, project, newConnection, newRepo).connections == Landing(db, t, provider, baseUrl, newConnection).0.connections
  {
    LandingNames(db, t, provider, baseUrl, newConnection);
  }

  lemma OnlyOne(db: Db, t: string)
    ensures forall c: nat :: Sole(db, t, c) ==> OwnConnections(db, t) == {c}
    ensures |OwnConnections(db, t)| == 1 <==> exists c :: Sole(db, t, c)
  {
    var own := OwnConnections(db, t);
    forall c: nat | Sole(db, t, c)
      ensures own == {c}
    {
    }
    if |own| == 1 {
      var c :| c in own;
      assert |own - {c}| == 0;
      assert own == {c};
      assert forall d :: d in db.connections && db.connections[d].tenant == t ==> d in own;
      assert Sole(db, t, c);
    }
  }

  // ----- what each single write stores -----

  /** A connection is added exactly when no connection of the tenant names its host; its row is then as asked and every other as before. */
  lemma AddedConnection(db: Db, t: string, id: nat, provider: string, baseUrl: string)
    requires id !in db.connections
    ensures var added := CreateConnection(db, t, id, provider, baseUrl);
      && (added.Ok? <==> forall c :: c in db.connections ==> db.connections[c] != Connection(t, provider, baseUrl))
      && (added.Ok? ==> added.value == Db(db.connections[id := Connection(t, provider, baseUrl)], db.repos))
  {
    assert forall c :: c in Naming(db, t, provider, baseUrl) <==> c in db.connections && db.connections[c] == Connection(t, provider, baseUrl);
  }

  /** A connection is edited exactly when it is the tenant's and no other of the tenant's names the new host; only its own row changes. */
  lemma EditedConnection(db: Db, t: string, id: nat, provider: string, baseUrl: string)
    ensures var edited := UpdateConnection(db, t, id, provider, baseUrl);
      var own := id in db.connections && db.connections[id].tenant == t;
      && (edited == Err(NotFound) <==> !own)
      && (edited == Err(Conflict) <==> own && exists c :: c in db.connections && c != id && db.connections[c] == Connection(t, provider, baseUrl))
      && (edited.Ok? ==> edited.value == Db(db.connections[id := Connection(t, provider, baseUrl)], db.repos))
  {
    assert forall c :: c in Naming(db, t, provider, baseUrl) - {id} <==> c in db.connections && c != id && db.connections[c] == Connection(t, provider, baseUrl);
  }

  /** A repository is renamed exactly when it is the tenant's and no other of its connection holds the new project; only its project changes. */
  lemma RenamedRepository(db: Db, t: string, id: nat, project: string)
    requires Valid(db)
    ensures var edited := UpdateRepository(db, t, id, project);
      var own := id in db.repos && db.repos[id].tenant == t;
      && (edited == Err(NotFound) <==> !own)
      && (edited == Err(Conflict) <==> own && exists r :: r in db.repos && r != id && db.repos[r].connection == db.repos[id].connection && db.repos[r].project == project)
      && (edited.Ok? ==> edited.value == Db(db.connections, db.repos[id := db.repos[id].(project := project)]))
  {
    FlagsAreOwn(db);
    if id in db.repos {
      var held := Holding(db, db.repos[id].connection, project);
      assert forall r :: r in held - {id} <==> r in db.repos && r != id && db.repos[r].connection == db.repos[id].connection && db.repos[r].project == project;
    }
  }

  /** Choosing a default puts the flag on the tenant's chosen repository and takes it off its others; clearing takes it off all of them; no other column and no other tenant's row changes. */
  lemma FlagsMove(db: Db, t: string, id: nat)
    requires Valid(db)
    ensures SetDefault(db, t, id).Err? <==> !(id in db.repos && db.repos[id].tenant == t)
    ensures forall chosen :: SetDefault(db, t, id) == Ok(chosen) ==>
      && chosen.connections == db.connections && chosen.repos.Keys == db.repos.Keys
      && forall r :: r in db.repos ==> chosen.repos[r] == db.repos[r].(defaultFor := if r == id then Some(t) else if db.repos[r].tenant == t then None else db.repos[r].defaultFor)
    ensures var cleared := ClearDefault(db, t);
      && cleared.connections == db.connections && cleared.repos.Keys == db.repos.Keys
      && forall r :: r in db.repos ==> cleared.repos[r] == db.repos[r].(defaultFor := if db.repos[r].tenant == t then None else db.repos[r].defaultFor)
  {
    FlagsAreOwn(db);
  }
}
