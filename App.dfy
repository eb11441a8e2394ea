/**
 * The top-level component of the site (App.tsx): the cached project list,
 * the admin session flag, the current route and the loading flag, the
 * handlers that change them, and the dispatch that picks the page to show.
 *
 * Every call to the record store or the object store is replaced by an
 * outcome parameter chosen by the caller, and every reading of the clock by
 * a `now` parameter. Each handler that calls a store returns the remote
 * calls it made, in order, and the alert it raised.
 */
module App {
  import opened Wrappers
  import opened Strings
  import opened ProjectList
  import Portfolio

  /** What `addDoc` did: stored the document under a new id, or threw. */
  datatype AddOutcome = Added(id: string) | AddFailed

  /** What `updateDoc` or `deleteDoc` did. */
  datatype WriteOutcome = Written | WriteFailed

  /** What `deleteObject` did: deleted the blob, found none (`storage/object-not-found`), or threw otherwise. */
  datatype ObjectOutcome = ObjectDeleted | ObjectNotFound | ObjectFailed

  /** What `getDocs` returned: the documents ordered by `created_at` descending, or an error. */
  datatype FetchOutcome = Fetched(docs: seq<StoredDoc>) | FetchFailed

  /** A call made to the remote stores. */
  datatype RemoteCall =
    | GetDocs
    | AddDoc(input: ProjectInput)
    | UpdateDoc(patch: ProjectPatch)
    | DeleteObject(url: string)
    | DeleteDoc(id: string)

  /** The page the app renders. */
  datatype View =
    | Loading
    | Dashboard(projects: seq<Project>)
    | LoginPage
    | MainSite(isAdmin: bool, portfolio: Portfolio.PortfolioView)

  const AdminPassword := "777"
  const AdminRoute := "/admin"
  const LoginRoute := "/login"
  const HomeRoute := "/"

  const AlertWrongPassword := "Incorrect password."
  const AlertLoadFailed := "Could not load projects. Please check your connection and refresh the page."
  const AlertAddNoDb := "Database not connected. Cannot add project."
  const AlertAddFailed := "Failed to add project."
  const AlertUpdateNoDb := "Database not connected. Cannot update project."
  const AlertUpdateFailed := "Failed to update project."
  const AlertDeleteNoStores := "Database or Storage not connected. Cannot delete project."
  const AlertDeleteFailed := "Failed to delete project."

  /** `window.location.hash.substring(1) || '/'` */
  function RouteOfHash(hash: string): (route: string)
    ensures route != ""
    ensures |hash| > 1 ==> route == hash[1..]
    ensures |hash| <= 1 ==> route == HomeRoute
  {
    var rest := if |hash| >= 1 then hash[1..] else "";
    if rest == "" then HomeRoute else rest
  }

  predicate IsAdminRoute(route: string) {
    StartsWith(ToLower(route), AdminRoute)
  }

  predicate IsLoginRoute(route: string) {
    StartsWith(ToLower(route), LoginRoute)
  }

  /** `renderContent()` without its redirect side effect. */
  function RenderContent(isLoading: bool, route: string, isAdmin: bool, projects: seq<Project>,
                         getTime: string -> int): (v: View)
    ensures v.Loading? <==> isLoading
    ensures v.Dashboard? <==> !isLoading && isAdmin && IsAdminRoute(route)
    ensures v.Dashboard? ==> v.projects == projects
    ensures v.LoginPage? <==> !isLoading && ((IsAdminRoute(route) && !isAdmin) || IsLoginRoute(route))
    ensures v.MainSite? <==> !isLoading && !IsAdminRoute(route) && !IsLoginRoute(route)
    ensures v.MainSite? ==> v.isAdmin == isAdmin && v.portfolio == Portfolio.RenderPortfolio(projects, getTime)
  {
    if isLoading then Loading
    else
      var cleanRoute := ToLower(route);
      assert StartsWith(cleanRoute, AdminRoute) ==> !StartsWith(cleanRoute, LoginRoute) by {
        if StartsWith(cleanRoute, AdminRoute) {
          assert cleanRoute[1] == 'a';
        }
      }
      if StartsWith(cleanRoute, AdminRoute) then
        if isAdmin then Dashboard(projects) else LoginPage
      else if StartsWith(cleanRoute, LoginRoute) then LoginPage
      else MainSite(isAdmin, Portfolio.RenderPortfolio(projects, getTime))
  }

  /** The route is matched case-insensitively: a route and its lower-case form render alike. */
  lemma RenderIgnoresCase(isLoading: bool, route: string, isAdmin: bool, projects: seq<Project>,
                          getTime: string -> int)
    ensures RenderContent(isLoading, ToLower(route), isAdmin, projects, getTime)
         == RenderContent(isLoading, route, isAdmin, projects, getTime)
  {
    ToLowerIdempotent(route);
  }

  /**
   * The admin branch redirects a visitor who is not logged in whenever it is
   * taken: a route that begins with `/admin` is never `/login`.
   */
  predicate NeedsLoginRedirect(isLoading: bool, route: string, isAdmin: bool) {
    !isLoading && IsAdminRoute(route) && !isAdmin && ToLower(route) != LoginRoute
  }

  lemma AdminGuardAlwaysRedirects(route: string)
    requires IsAdminRoute(route)
    ensures ToLower(route) != LoginRoute
  {
    assert ToLower(route)[1] == 'a';
  }

  /** After the redirect, the login page is what the next render shows. */
  lemma LoginRouteShowsLogin(isAdmin: bool, projects: seq<Project>, getTime: string -> int)
    ensures RenderContent(false, LoginRoute, isAdmin, projects, getTime) == LoginPage
  {
  }

  /** Only the password `777` opens the dashboard after a login attempt. */
  predicate PasswordAccepted(password: string) {
    password == AdminPassword
  }

  class AppState {
    /** `db` and `storage` of lib/firebaseClient: false when the client failed to initialise. */
    const hasDb: bool
    const hasStorage: bool

    var projects: seq<Project>
    var isAdmin: bool
    var route: string
    var isLoading: bool
    /** `sessionStorage.getItem('isAdmin') === 'true'` */
    var sessionAdmin: bool

    /** The state on first render: `hash` is `window.location.hash`. */
    constructor (hasDb: bool, hasStorage: bool, hash: string, sessionAdmin: bool)
      ensures this.hasDb == hasDb && this.hasStorage == hasStorage
      ensures projects == [] && !isAdmin && isLoading
      ensures route == RouteOfHash(hash) && this.sessionAdmin == sessionAdmin
    {
      this.hasDb := hasDb;
      this.hasStorage := hasStorage;
      projects := [];
      isAdmin := false;
      route := RouteOfHash(hash);
      isLoading := true;
      this.sessionAdmin := sessionAdmin;
    }

    /** The `hashchange` listener. */
    method HandleHashChange(hash: string)
      modifies this`route
      ensures route == RouteOfHash(hash)
    {
      route := RouteOfHash(hash);
    }

    /** `checkAuthAndFetchData`: restore the session flag, then load every project. */
    method CheckAuthAndFetchData(fetch: FetchOutcome, now: string)
      returns (calls: seq<RemoteCall>, alert: Option<string>)
      modifies this`isLoading, this`isAdmin, this`projects
      ensures !isLoading
      ensures isAdmin == (old(isAdmin) || sessionAdmin)
      ensures calls == if hasDb then [GetDocs] else []
      ensures projects == if hasDb && fetch.Fetched? then FromDocs(fetch.docs, now) else old(projects)
      ensures alert == if hasDb && fetch.FetchFailed? then Some(AlertLoadFailed) else None
    {
      isLoading := true;
      if sessionAdmin {
        isAdmin := true;
      }
      calls, alert := [], None;
      if !hasDb {
        isLoading := false;
        return;
      }
      calls := [GetDocs];
      match fetch {
        case Fetched(docs) =>
          projects := FromDocs(docs, now);
        case FetchFailed =>
          alert := Some(AlertLoadFailed);
      }
      isLoading := false;
    }

    /** `handleLoginAttempt` */
    method HandleLoginAttempt(password: string) returns (alert: Option<string>)
      modifies this`isAdmin, this`sessionAdmin, this`route
      ensures PasswordAccepted(password) ==>
        isAdmin && sessionAdmin && route == AdminRoute && alert == None
      ensures !PasswordAccepted(password) ==>
        isAdmin == old(isAdmin) && sessionAdmin == old(sessionAdmin) && route == old(route)
        && alert == Some(AlertWrongPassword)
    {
      if password == AdminPassword {
        isAdmin := true;
        sessionAdmin := true;
        route := RouteOfHash("#" + AdminRoute);
        alert := None;
      } else {
        alert := Some(AlertWrongPassword);
      }
    }

    /** `handleLogout` */
    method HandleLogout()
      modifies this`isAdmin, this`sessionAdmin, this`route
      ensures !isAdmin && !sessionAdmin && route == HomeRoute
    {
      isAdmin := false;
      sessionAdmin := false;
      route := RouteOfHash("#" + HomeRoute);
    }

    /** `addProject`: insert remotely, then put the new record at the head of the cache. */
    method AddProject(input: ProjectInput, outcome: AddOutcome, now: string)
      returns (calls: seq<RemoteCall>, alert: Option<string>)
      modifies this`projects
      ensures !hasDb ==> projects == old(projects) && calls == [] && alert == Some(AlertAddNoDb)
      ensures hasDb ==> calls == [AddDoc(input)]
      ensures hasDb && outcome.Added? ==>
        projects == [NewProject(input, outcome.id, now)] + old(projects) && alert == None
      ensures hasDb && outcome.AddFailed? ==> projects == old(projects) && alert == Some(AlertAddFailed)
      ensures IdsUnique(old(projects)) && (outcome.Added? ==> outcome.id !in IdSet(old(projects)))
        ==> IdsUnique(projects)
    {
      if !hasDb {
        calls, alert := [], Some(AlertAddNoDb);
        return;
      }
      calls := [AddDoc(input)];
      match outcome {
        case Added(id) =>
          var p := NewProject(input, id, now);
          if IdsUnique(projects) && id !in IdSet(projects) {
            PrependFresh(p, projects);
          }
          projects := [p] + projects;
          alert := None;
        case AddFailed =>
          alert := Some(AlertAddFailed);
      }
    }

    /** `updateProject`: write remotely, then replace every cached record with that id. */
    method UpdateProject(patch: ProjectPatch, outcome: WriteOutcome, now: string)
      returns (calls: seq<RemoteCall>, alert: Option<string>)
      modifies this`projects
      ensures !hasDb ==> projects == old(projects) && calls == [] && alert == Some(AlertUpdateNoDb)
      ensures hasDb ==> calls == [UpdateDoc(patch)]
      ensures hasDb && outcome.Written? ==>
        projects == ReplaceById(old(projects), patch.id, UpdatedProject(patch, old(projects), now))
        && alert == None
      ensures hasDb && outcome.WriteFailed? ==> projects == old(projects) && alert == Some(AlertUpdateFailed)
      ensures patch.id !in IdSet(old(projects)) ==> projects == old(projects)
      ensures IdSet(projects) == IdSet(old(projects))
      ensures IdsUnique(old(projects)) ==> IdsUnique(projects)
    {
      if !hasDb {
        calls, alert := [], Some(AlertUpdateNoDb);
        return;
      }
      calls := [UpdateDoc(patch)];
      match outcome {
        case Written =>
          var rec := UpdatedProject(patch, projects, now);
          ReplaceKeepsIds(projects, patch.id, rec);
          if patch.id !in IdSet(projects) {
            ReplaceAbsent(projects, patch.id, rec);
          }
          projects := ReplaceById(projects, patch.id, rec);
          alert := None;
        case WriteFailed =>
          alert := Some(AlertUpdateFailed);
      }
    }

    /**
     * `deleteProject`: delete the image blob (a missing blob is tolerated),
     * then the document, then drop every cached record with that id.
     */
    method DeleteProject(target: Project, objectOutcome: ObjectOutcome, docOutcome: WriteOutcome)
      returns (calls: seq<RemoteCall>, alert: Option<string>)
      modifies this`projects
      ensures !(hasDb && hasStorage) ==>
        projects == old(projects) && calls == [] && alert == Some(AlertDeleteNoStores)
      ensures hasDb && hasStorage && target.image != "" && objectOutcome.ObjectFailed? ==>
        projects == old(projects) && calls == [DeleteObject(target.image)] && alert == Some(AlertDeleteFailed)
      ensures hasDb && hasStorage && !(target.image != "" && objectOutcome.ObjectFailed?) ==>
        && calls == (if target.image != "" then [DeleteObject(target.image)] else []) + [DeleteDoc(target.id)]
        && projects == (if docOutcome.Written? then RemoveById(old(projects), target.id) else old(projects))
        && alert == (if docOutcome.Written? then None else Some(AlertDeleteFailed))
      ensures IdsUnique(old(projects)) ==> IdsUnique(projects)
    {
      if !hasDb || !hasStorage {
        calls, alert := [], Some(AlertDeleteNoStores);
        return;
      }
      calls, alert := [], None;
      if target.image != "" {
        calls := [DeleteObject(target.image)];
        if objectOutcome.ObjectFailed? {
          alert := Some(AlertDeleteFailed);
          return;
        }
      }
      calls := calls + [DeleteDoc(target.id)];
      if docOutcome.WriteFailed? {
        alert := Some(AlertDeleteFailed);
        return;
      }
      if IdsUnique(projects) {
        if target.id in IdSet(projects) {
          RemoveUnique(projects, target.id);
        } else {
          RemoveAbsent(projects, target.id);
        }
      }
      projects := RemoveById(projects, target.id);
    }

    /**
     * `renderContent()`: the view for the current state. In the admin branch
     * without a session it also sets the hash to `/login`, which the
     * `hashchange` listener turns into the route.
     */
    method Render(getTime: string -> int) returns (v: View)
      modifies this`route
      ensures v == RenderContent(isLoading, old(route), isAdmin, projects, getTime)
      ensures route == if NeedsLoginRedirect(isLoading, old(route), isAdmin) then LoginRoute else old(route)
    {
      v := RenderContent(isLoading, route, isAdmin, projects, getTime);
      if !isLoading && StartsWith(ToLower(route), AdminRoute) && !isAdmin {
        if ToLower(route) != LoginRoute {
          route := RouteOfHash("#" + LoginRoute);
        }
      }
    }
  }
}
