/** The HTTP handlers of the prototype API. Each checks the request, calls the
    prototype service and turns its result, or the message of the error it
    throws, into a status code and a JSON body. The signed-in user is what the
    authentication middleware left on the request. */
module PrototypeController {
  import opened Results
  import opened Text
  import opened PrototypeStore
  import GitHubUrl
  import Auth

  /** The JSON body of a response. */
  datatype Body =
    | ErrorBody(error: string)
    | One(prototype: Prototype)
    | Many(prototypes: seq<Prototype>)
    | NoContent
    | RebuildStarted(message: string, prototypeId: string, status: string)

  datatype Response = Response(status: nat, body: Body)

  /** The fields of a create request; a field that is missing or `null` is `None`. */
  datatype CreateRequest = CreateRequest(name: Option<string>, description: Option<string>, gitHubRepoUrl: Option<string>)

  const MissingFields: string := "Name and GitHub repository URL are required"
  const InvalidUrlFormat: string := "Invalid GitHub repository URL format"
  const AuthRequired: string := "Authentication required"
  const RebuildTriggered: string := "Rebuild triggered successfully"

  // ---------------------------------------------------------------------------
  // Decisions

  /** The checks `createPrototype` makes before calling the service, in order:
      both fields present, then a well-formed URL, then a signed-in user. */
  function CreateRejection(req: CreateRequest, user: Option<Auth.User>): (r: Option<Response>)
    ensures !Truthy(req.name) || !Truthy(req.gitHubRepoUrl) ==> r == Some(Response(400, ErrorBody(MissingFields)))
    ensures Truthy(req.name) && Truthy(req.gitHubRepoUrl) && !GitHubUrl.IsValidGitHubUrl(req.gitHubRepoUrl.value) ==>
      r == Some(Response(400, ErrorBody(InvalidUrlFormat)))
    ensures r.Some? && r.value.status == 401 ==>
      Truthy(req.name) && Truthy(req.gitHubRepoUrl) && GitHubUrl.IsValidGitHubUrl(req.gitHubRepoUrl.value) && user.None?
    ensures r.None? <==>
      Truthy(req.name) && Truthy(req.gitHubRepoUrl) && GitHubUrl.IsValidGitHubUrl(req.gitHubRepoUrl.value) && user.Some?
  {
    if !Truthy(req.name) || !Truthy(req.gitHubRepoUrl) then Some(Response(400, ErrorBody(MissingFields)))
    else if !GitHubUrl.IsValidGitHubUrl(req.gitHubRepoUrl.value) then Some(Response(400, ErrorBody(InvalidUrlFormat)))
    else if user.None? then Some(Response(401, ErrorBody(AuthRequired)))
    else None
  }

  /** A request that passes the controller's checks carries a URL the service
      parses, so the only error the service can still throw is the duplicate. */
  lemma AcceptedUrlParses(req: CreateRequest, user: Option<Auth.User>)
    requires CreateRejection(req, user).None?
    ensures GitHubUrl.ParseGitHubUrl(req.gitHubRepoUrl.value).Ok?
  {
    GitHubUrl.ParseOkIff(req.gitHubRepoUrl.value);
  }

  /** The `createdBy` filter of the listing: the user's email, only when the
      query says `my=true` and a user is signed in. */
  function ListFilter(my: Option<string>, user: Option<Auth.User>): (createdBy: Option<string>)
    ensures createdBy.Some? <==> my == Some("true") && user.Some?
    ensures createdBy.Some? ==> createdBy.value == user.value.email
  {
    if my == Some("true") && user.Some? then Some(user.value.email) else None
  }

  /** `getPrototype`: 404 only for the exact not-found message. */
  function ReadErrorStatus(message: string): (status: nat)
    ensures status == 404 <==> message == NotFound
    ensures status == 404 || status == 500
  {
    if message == NotFound then 404 else 500
  }

  /** `updatePrototype` and `deletePrototype`: 404 when the message mentions
      `not found` or `unauthorized`. */
  function WriteErrorStatus(message: string): (status: nat)
    ensures status == 404 <==> Includes(message, "not found") || Includes(message, "unauthorized")
    ensures status == 404 || status == 500
  {
    if Includes(message, "not found") || Includes(message, "unauthorized") then 404 else 500
  }

  /** `rebuildPrototype`: 404 when the message mentions `not found`. */
  function RebuildErrorStatus(message: string): (status: nat)
    ensures status == 404 <==> Includes(message, "not found")
    ensures status == 404 || status == 500
  {
    if Includes(message, "not found") then 404 else 500
  }

  /** The store's refusal of an update or delete becomes a 404. */
  lemma OwnershipErrorIs404()
    ensures WriteErrorStatus(NotFoundOrUnauthorized) == 404
  {
    assert NotFoundOrUnauthorized == "Prototype " + "not found" + " or unauthorized";
    IncludesMiddle("Prototype ", "not found", " or unauthorized");
  }

  /** The store's refusal of the rebuild's lookup becomes a 404, and so does a
      status update whose row is missing. */
  lemma RebuildErrorsAre404()
    ensures RebuildErrorStatus(NotFound) == 404
    ensures RebuildErrorStatus(RecordToUpdateNotFound) == 404
  {
    assert NotFound == "Prototype " + "not found" + "";
    IncludesMiddle("Prototype ", "not found", "");
    assert RecordToUpdateNotFound == "Record to update " + "not found" + ".";
    IncludesMiddle("Record to update ", "not found", ".");
  }

  // ---------------------------------------------------------------------------
  // Handlers

  class PrototypeController {
    const store: PrototypeService

    constructor(store: PrototypeService)
      ensures this.store == store
    {
      this.store := store;
    }

    /** `createPrototype`: 400 or 401 from the checks, otherwise 201 with the
        new prototype, created by the user's email, or 400 with the service's
        message. */
    method CreatePrototype(req: CreateRequest, user: Option<Auth.User>, now: nat) returns (resp: Response)
      requires store.Valid()
      modifies store
      ensures store.Valid() && store.builds == old(store.builds)
      ensures CreateRejection(req, user).Some? ==>
        resp == CreateRejection(req, user).value && store.prototypes == old(store.prototypes)
      ensures CreateRejection(req, user).None? ==>
        var repo := GitHubUrl.ParseGitHubUrl(req.gitHubRepoUrl.value).value;
        && GitHubUrl.ParseGitHubUrl(req.gitHubRepoUrl.value).Ok?
        && (RepoTaken(old(store.prototypes), repo.owner, repo.repoName) ==>
              resp == Response(400, ErrorBody(DuplicateRepo)) && store.prototypes == old(store.prototypes))
        && (!RepoTaken(old(store.prototypes), repo.owner, repo.repoName) ==>
              && resp.status == 201 && resp.body.One?
              && resp.body.prototype == Prototype(FreshId(old(store.issued)), req.name.value, req.description,
                   req.gitHubRepoUrl.value, repo.repoName, repo.owner, user.value.email, now, now,
                   None, true, Pending, None,
                   GitHubUrl.PrototypePrefix + NatToString(now) + "-" + repo.repoName)
              && resp.body.prototype.createdBy == user.value.email
              && resp.body.prototype.name == req.name.value
              && resp.body.prototype.gitHubOwner == repo.owner
              && resp.body.prototype.gitHubRepoName == repo.repoName
              && resp.body.prototype.id !in old(store.prototypes)
              && store.prototypes == old(store.prototypes)[resp.body.prototype.id := resp.body.prototype])
    {
      var rejection := CreateRejection(req, user);
      if rejection.Some? {
        return rejection.value;
      }
      AcceptedUrlParses(req, user);
      var created := store.CreatePrototype(req.name.value, req.description, req.gitHubRepoUrl.value, user.value.email, now);
      if created.Err? {
        return Response(400, ErrorBody(created.message));
      }
      resp := Response(201, One(created.value));
    }

    /** `getPrototypes`: every listed prototype once, most recently updated
        first, restricted to the user's own when asked for. */
    method GetPrototypes(my: Option<string>, user: Option<Auth.User>) returns (resp: Response)
      requires store.Valid()
      ensures resp.status == 200 && resp.body.Many?
      ensures forall p :: p in resp.body.prototypes <==>
        p.id in store.prototypes && store.prototypes[p.id] == p && Listed(p, ListFilter(my, user))
      ensures ByRecency(resp.body.prototypes) && Seqs.NoDuplicates(resp.body.prototypes)
    {
      var list := store.GetPrototypes(ListFilter(my, user));
      resp := Response(200, Many(list));
    }

    /** `getPrototype`: the prototype if the signed-in user (or anyone, without
        a user) may see it, else 404. */
    function GetPrototype(id: string, user: Option<Auth.User>): (resp: Response)
      reads store
      requires store.Valid()
      ensures var userId := if user.Some? then Some(user.value.email) else None;
        && (resp.status == 200 <==> Findable(store.prototypes, id, userId))
        && (resp.status == 200 ==> resp.body == One(store.prototypes[id]))
        && (resp.status != 200 ==> resp == Response(404, ErrorBody(NotFound)))
    {
      var userId := if user.Some? then Some(user.value.email) else None;
      match store.GetPrototypeById(id, userId)
      case Ok(p) => Response(200, One(p))
      case Err(message) => Response(ReadErrorStatus(message), ErrorBody(message))
    }

    /** `updatePrototype`: 401 without a user, 404 unless the user owns the
        active prototype, otherwise 200 with the updated prototype. */
    method UpdatePrototype(id: string, req: UpdateRequest, user: Option<Auth.User>) returns (resp: Response)
      requires store.Valid()
      modifies store
      ensures store.Valid() && store.builds == old(store.builds)
      ensures user.None? ==> resp == Response(401, ErrorBody(AuthRequired)) && store.prototypes == old(store.prototypes)
      ensures user.Some? && !Owned(old(store.prototypes), id, user.value.email) ==>
        resp == Response(404, ErrorBody(NotFoundOrUnauthorized)) && store.prototypes == old(store.prototypes)
      ensures user.Some? && Owned(old(store.prototypes), id, user.value.email) ==>
        var updated := ApplyUpdate(old(store.prototypes)[id], req);
        resp == Response(200, One(updated)) && store.prototypes == old(store.prototypes)[id := updated]
    {
      if user.None? {
        return Response(401, ErrorBody(AuthRequired));
      }
      var updated := store.UpdatePrototype(id, req, user.value.email);
      if updated.Err? {
        OwnershipErrorIs404();
        return Response(WriteErrorStatus(updated.message), ErrorBody(updated.message));
      }
      resp := Response(200, One(updated.value));
    }

    /** `deletePrototype`: 401 without a user, 404 unless the user owns the
        active prototype, otherwise 204 after the soft delete. */
    method DeletePrototype(id: string, user: Option<Auth.User>) returns (resp: Response)
      requires store.Valid()
      modifies store
      ensures store.Valid() && store.builds == old(store.builds)
      ensures user.None? ==> resp == Response(401, ErrorBody(AuthRequired)) && store.prototypes == old(store.prototypes)
      ensures user.Some? && !Owned(old(store.prototypes), id, user.value.email) ==>
        resp == Response(404, ErrorBody(NotFoundOrUnauthorized)) && store.prototypes == old(store.prototypes)
      ensures user.Some? && Owned(old(store.prototypes), id, user.value.email) ==>
        resp == Response(204, NoContent)
        && store.prototypes == old(store.prototypes)[id := old(store.prototypes)[id].(isActive := false)]
    {
      if user.None? {
        return Response(401, ErrorBody(AuthRequired));
      }
      var deleted := store.DeletePrototype(id, user.value.email);
      if deleted.Err? {
        OwnershipErrorIs404();
        return Response(WriteErrorStatus(deleted.message), ErrorBody(deleted.message));
      }
      resp := Response(204, NoContent);
    }

    /** `rebuildPrototype`: check that the user may see the prototype, mark it
        as building and answer; no build is started and no history row is
        written. */
    method RebuildPrototype(id: string, user: Option<Auth.User>, now: int) returns (resp: Response)
      requires store.Valid()
      modifies store
      ensures store.Valid() && store.builds == old(store.builds)
      ensures user.None? ==> resp == Response(401, ErrorBody(AuthRequired)) && store.prototypes == old(store.prototypes)
      ensures user.Some? && !Findable(old(store.prototypes), id, Some(user.value.email)) ==>
        resp == Response(404, ErrorBody(NotFound)) && store.prototypes == old(store.prototypes)
      ensures user.Some? && Findable(old(store.prototypes), id, Some(user.value.email)) ==>
        && resp == Response(200, RebuildStarted(RebuildTriggered, id, "building"))
        && store.prototypes == old(store.prototypes)[id := WithBuildStatus(old(store.prototypes)[id], Building, None, now)]
    {
      if user.None? {
        return Response(401, ErrorBody(AuthRequired));
      }
      RebuildErrorsAre404();
      var found := store.GetPrototypeById(id, Some(user.value.email));
      if found.Err? {
        return Response(RebuildErrorStatus(found.message), ErrorBody(found.message));
      }
      // The row was just found, so marking it cannot fail.
      var _ := store.UpdateBuildStatus(id, Building, None, now);
      resp := Response(200, RebuildStarted(RebuildTriggered, id, "building"));
    }
  }
}
