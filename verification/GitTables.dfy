/** The two git tables and the calls one tenant makes on them, each a transaction or two over rows changed in place. */
module GitTables {
  import opened Prelude
  import opened Text
  import opened GitRepositories

  class Tables {
    var connections: map<nat, Connection>
    var repos: map<nat, Repo>

    constructor ()
      ensures Content() == Db(map[], map[]) && Valid(Content())
    {
      connections, repos := map[], map[];
    }

    function Content(): Db
      reads this
    {
      Db(connections, repos)
    }

    method CreateConnection(t: string, id: nat, provider: string, baseUrl: string) returns (r: Result<nat, Error>)
      requires id !in connections
      modifies this
      ensures match GitRepositories.CreateConnection(old(Content()), t, id, provider, baseUrl)
              case Ok(after) => r == Ok(id) && Content() == after
              case Err(e) => r == Err(e) && Content() == old(Content())
    {
      if Naming(Content(), t, provider, baseUrl) != {} {
        return Err(Conflict);
      }
      connections := connections[id := Connection(t, provider, baseUrl)];
      r := Ok(id);
    }

    method UpdateConnection(t: string, id: nat, provider: string, baseUrl: string) returns (r: Result<nat, Error>)
      modifies this
      ensures match GitRepositories.UpdateConnection(old(Content()), t, id, provider, baseUrl)
              case Ok(after) => r == Ok(id) && Content() == after
              case Err(e) => r == Err(e) && Content() == old(Content())
    {
      if id !in connections || connections[id].tenant != t {
        return Err(NotFound);
      }
      if Naming(Content(), t, provider, baseUrl) - {id} != {} {
        return Err(Conflict);
      }
      connections := connections[id := Connection(t, provider, baseUrl)];
      r := Ok(id);
    }

    /** Forget a connection and, row by row, its repositories; then see to the default. */
    method DeleteConnection(t: string, id: nat) returns (r: Result<nat, Error>)
      modifies this
      ensures match GitRepositories.DeleteConnection(old(Content()), t, id)
              case Ok(after) => r == Ok(id) && Content() == after
              case Err(e) => r == Err(e) && Content() == old(Content())
    {
      if id !in connections || connections[id].tenant != t {
        return Err(NotFound);
      }
      ghost var before := Content();
      var doomed := set x | x in repos && repos[x].connection == id;
      while doomed != {}
        invariant connections == before.connections
        invariant repos.Keys <= before.repos.Keys && forall x :: x in repos ==> repos[x] == before.repos[x]
        invariant doomed == set x | x in repos && repos[x].connection == id
        invariant forall x :: x in before.repos && before.repos[x].connection != id ==> x in repos
        decreases doomed
      {
        var x :| x in doomed;
        repos := repos - {x};
        doomed := doomed - {x};
      }
      connections := connections - {id};
      assert forall x :: x in repos && repos[x].connection == id ==> x in doomed;
      assert repos == DropConnection(before, id).repos;
      EnsureDefaultRepository(t);
      r := Ok(id);
    }

    method CreateRepository(t: string, id: nat, connection: nat, project: string, makeDefault: bool) returns (r: Result<nat, Error>)
      requires id !in repos
      modifies this
      ensures match GitRepositories.CreateRepository(old(Content()), t, id, connection, project, makeDefault)
              case Ok(after) => r == Ok(id) && Content() == after
              case Err(e) => r == Err(e) && Content() == old(Content())
    {
      if connection !in connections || connections[connection].tenant != t {
        return Err(NotFound);
      }
      var makesDefault := makeDefault || DefaultRepository(Content(), t).None?;
      if Holding(Content(), connection, project) != {} {
        return Err(Conflict);
      }
      repos := repos[id := Repo(t, connection, project, None)];
      if makesDefault {
        r := SetDefaultRepository(t, id);
      } else {
        r := Ok(id);
      }
    }

    method UpdateRepository(t: string, id: nat, project: string) returns (r: Result<nat, Error>)
      modifies this
      ensures match GitRepositories.UpdateRepository(old(Content()), t, id, project)
              case Ok(after) => r == Ok(id) && Content() == after
              case Err(e) => r == Err(e) && Content() == old(Content())
    {
      if id !in repos || repos[id].tenant != t {
        return Err(NotFound);
      }
      var connection := repos[id].connection;
      if connection !in connections || connections[connection].tenant != t {
        return Err(NotFound);
      }
      if Holding(Content(), connection, project) - {id} != {} {
        return Err(Conflict);
      }
      repos := repos[id := repos[id].(project := project)];
      r := Ok(id);
    }

    method DeleteRepository(t: string, id: nat) returns (r: Result<nat, Error>)
      modifies this
      ensures match GitRepositories.DeleteRepository(old(Content()), t, id)
              case Ok(after) => r == Ok(id) && Content() == after
              case Err(e) => r == Err(e) && Content() == old(Content())
    {
      if id !in repos || repos[id].tenant != t {
        return Err(NotFound);
      }
      repos := repos - {id};
      EnsureDefaultRepository(t);
      r := Ok(id);
    }

    /** Take the flag off every other row that holds it, then put it on the chosen one. */
    method SetDefaultRepository(t: string, id: nat) returns (r: Result<nat, Error>)
      modifies this
      ensures match SetDefault(old(Content()), t, id)
              case Ok(after) => r == Ok(id) && Content() == after
              case Err(e) => r == Err(e) && Content() == old(Content())
    {
      if id !in repos || repos[id].tenant != t {
        return Err(NotFound);
      }
      ghost var before := Content();
      Unflag(Defaults(Content(), t) - {id});
      repos := repos[id := repos[id].(defaultFor := Some(t))];
      assert repos == Marked(before, t, id).repos;
      r := Ok(id);
    }

    /** Take the default flag off these rows. */
    method Unflag(rows: set<nat>)
      requires rows <= repos.Keys
      modifies this
      ensures connections == old(connections) && repos.Keys == old(repos).Keys
      ensures forall x :: x in repos ==> repos[x] == if x in rows then old(repos)[x].(defaultFor := None) else old(repos)[x]
    {
      var todo := rows;
      while todo != {}
        invariant todo <= rows
        invariant connections == old(connections) && repos.Keys == old(repos).Keys
        invariant forall x :: x in repos ==> repos[x] == if x in rows - todo then old(repos)[x].(defaultFor := None) else old(repos)[x]
        decreases todo
      {
        var x :| x in todo;
        repos := repos[x := repos[x].(defaultFor := None)];
        todo := todo - {x};
      }
    }

    method ClearDefaultRepository(t: string)
      modifies this
      ensures Content() == ClearDefault(old(Content()), t)
    {
      ghost var before := Content();
      Unflag(Defaults(Content(), t));
      assert repos == ClearDefault(before, t).repos;
    }

    method EnsureDefaultRepository(t: string)
      modifies this
      ensures Content() == EnsureDefault(old(Content()), t)
    {
      var remaining := OwnRepos(Content(), t);
      if remaining == {} || exists x :: x in remaining && repos[x].defaultFor.Some? {
        return;
      }
      var _ := SetDefaultRepository(t, MinOf(remaining));
    }

    /** Save the one configuration the older surfaces know, as edits of these two tables; the default then resolves to it. */
    method SetGitConfig(t: string, provider: string, baseUrl: string, project: Option<string>, newConnection: nat, newRepo: nat)
      requires Valid(Content()) && newConnection !in connections && newRepo !in repos
      modifies this
      ensures Content() == Save(old(Content()), t, provider, baseUrl, project, newConnection, newRepo)
      ensures Valid(Content())
      ensures project.Some? ==> DefaultRepository(Content(), t).Some?
    {
      ghost var before := Content();
      SavedConfigurationResolves(before, t, provider, baseUrl, project, newConnection, newRepo);
      var connection := ShimConnection(t, provider, baseUrl, newConnection);
      if project.None? {
        ClearDefaultRepository(t);
        return;
      }
      var existing := Holding(Content(), connection, project.value);
      if existing == {} {
        var _ := CreateRepository(t, newRepo, connection, project.value, true);
      } else {
        assert RepoOk(Content(), MinOf(existing));
        var _ := UpdateRepository(t, MinOf(existing), project.value);
        assert Content() == Landing(before, t, provider, baseUrl, newConnection).0;
        var _ := SetDefaultRepository(t, MinOf(existing));
      }
    }

    method ShimConnection(t: string, provider: string, baseUrl: string, newId: nat) returns (connection: nat)
      requires Valid(Content()) && newId !in connections
      modifies this
      ensures (Content(), connection) == Landing(old(Content()), t, provider, baseUrl, newId)
      ensures Valid(Content()) && repos == old(repos)
      ensures connection in connections && connections[connection] == Connection(t, provider, baseUrl)
    {
      LandingNames(Content(), t, provider, baseUrl, newId);
      var same, own := Naming(Content(), t, provider, baseUrl), OwnConnections(Content(), t);
      if same != {} {
        return MinOf(same);
      }
      var editable: Option<nat> := None;
      var default := DefaultRepository(Content(), t);
      if default.Some? {
        editable := Some(repos[default.value].connection);
      } else if |own| == 1 {
        editable := Some(MinOf(own));
      }
      if editable.Some? {
        var moved := UpdateConnection(t, editable.value, provider, baseUrl);
        connection := editable.value;
      } else {
        var made := CreateConnection(t, newId, provider, baseUrl);
        connection := newId;
      }
    }
  }
}
