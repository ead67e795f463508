/**
 * `ProjectsService`: the project list and its loading flag. A load sets the
 * flag, and its response either publishes the upstream users mapped to
 * projects or publishes the empty list; both clear the flag.
 */
module Projects {
  import opened JsValues

  /** The upstream records: users with an optional company that may carry a catch phrase. */
  datatype Company = Company(catchPhrase: Option<string>)
  datatype User = User(id: int, name: string, company: Option<Company>)

  /** A project as the application shows it. */
  datatype Project = Project(id: int, title: string, description: Option<string>)

  /** `user.company?.catchPhrase`: absent when there is no company, the company's (possibly absent) catch phrase otherwise. */
  function CatchPhrase(u: User): (r: Option<string>)
    ensures u.company.None? ==> r.None?
    ensures u.company.Some? ==> r == u.company.value.catchPhrase
  {
    match u.company
    case None => None
    case Some(c) => c.catchPhrase
  }

  /** The record mapping of one user: id kept, name as title, the company's catch phrase as description. */
  function ToProject(u: User): (p: Project)
    ensures p.id == u.id && p.title == u.name
    ensures u.company.None? ==> p.description.None?
    ensures u.company.Some? ==> p.description == u.company.value.catchPhrase
  {
    Project(u.id, u.name, CatchPhrase(u))
  }

  /** `users.map(...)`: one project per user, in the same order. */
  function ToProjects(users: seq<User>): (ps: seq<Project>)
    ensures |ps| == |users|
    ensures forall i | 0 <= i < |users| :: ps[i] == ToProject(users[i])
  {
    if users == [] then [] else [ToProject(users[0])] + ToProjects(users[1..])
  }

  /** The project titles, as the uniqueness validator reads them. */
  function Titles(ps: seq<Project>): (ts: seq<string>)
    ensures |ts| == |ps|
    ensures forall i | 0 <= i < |ps| :: ts[i] == ps[i].title
  {
    if ps == [] then [] else [ps[0].title] + Titles(ps[1..])
  }

  class ProjectsService {
    var projects: seq<Project>
    var loading: bool
    /** Load requests whose response has not yet arrived. */
    ghost var pendingLoads: nat

    /** Initially no projects and not loading. */
    constructor ()
      ensures projects == [] && !loading && pendingLoads == 0
    {
      projects := [];
      loading := false;
      pendingLoads := 0;
    }

    /** `loadProjects`: the flag is set before the request is sent; the list is untouched until the response. */
    method LoadProjects()
      modifies this`loading, this`pendingLoads
      ensures loading && pendingLoads == old(pendingLoads) + 1
    {
      loading := true;
      pendingLoads := pendingLoads + 1;
    }

    /** The response: the mapped users on success, the empty list on failure; the flag is cleared either way. */
    method ReceiveUsers(outcome: Fetch<seq<User>>)
      requires pendingLoads > 0
      modifies this
      ensures !loading && pendingLoads == old(pendingLoads) - 1
      ensures outcome.Fetched? ==> projects == ToProjects(outcome.data)
      ensures outcome.FetchFailed? ==> projects == []
    {
      pendingLoads := pendingLoads - 1;
      match outcome
      case Fetched(users) =>
        projects := ToProjects(users);
        loading := false;
      case FetchFailed =>
        projects := [];
        loading := false;
    }
  }

  // ---------------------------------------------------------------------------
  // Properties
  // ---------------------------------------------------------------------------

  /** The mapping distributes over concatenation, so it keeps order. */
  lemma {:induction false} ToProjectsConcat(a: seq<User>, b: seq<User>)
    ensures ToProjects(a + b) == ToProjects(a) + ToProjects(b)
  {
    if a == [] {
      assert a + b == b;
    } else {
      assert (a + b)[1..] == a[1..] + b;
      ToProjectsConcat(a[1..], b);
    }
  }

  /** A successful load publishes exactly the user ids and names, in upstream order. */
  lemma LoadedIdsAndTitles(users: seq<User>)
    ensures forall i | 0 <= i < |users| :: ToProjects(users)[i].id == users[i].id
    ensures Titles(ToProjects(users)) == seq(|users|, i requires 0 <= i < |users| => users[i].name)
  {
  }

  /** A load cycle: loading while the request is out, then the published list and the flag cleared. */
  method LoadScenario(service: ProjectsService, outcome: Fetch<seq<User>>)
    modifies service
  {
    service.LoadProjects();
    assert service.loading;
    service.ReceiveUsers(outcome);
    assert !service.loading;
    assert outcome.FetchFailed? ==> service.projects == [];
  }
}
