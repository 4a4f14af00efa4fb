/** The backend's prototype service over its two tables: prototypes and build
    history, held in memory as maps from id to row. Rows are never deleted;
    deleting a prototype only clears its `isActive` flag. */
module PrototypeStore {
  import opened Results
  import opened Text
  import opened Seqs
  import GitHubUrl

  /** `pending`, `building`, `success`, `failed`. */
  datatype BuildStatus = Pending | Building | Succeeded | Failed

  /** `started`, `success`, `failed`. */
  datatype HistoryStatus = Started | HistorySucceeded | HistoryFailed

  /** A prototype row; times are milliseconds since the epoch. */
  datatype Prototype = Prototype(
    id: string,
    name: string,
    description: Option<string>,
    gitHubRepoUrl: string,
    gitHubRepoName: string,
    gitHubOwner: string,
    createdBy: string,
    createdAt: int,
    lastUpdated: int,
    lastDeployedAt: Option<int>,
    isActive: bool,
    buildStatus: BuildStatus,
    buildErrorMessage: Option<string>,
    prototypeUrl: string)

  /** A build-history row. */
  datatype BuildRecord = BuildRecord(
    id: string,
    prototypeId: string,
    buildStatus: HistoryStatus,
    buildStartedAt: int,
    buildCompletedAt: Option<int>,
    buildDurationMs: Option<int>,
    buildLogs: Option<string>,
    errorMessage: Option<string>)

  /** The fields an update may carry. `description` is `None` when absent and
      `Some(None)` when sent as `null`. */
  datatype UpdateRequest = UpdateRequest(name: Option<string>, description: Option<Option<string>>)

  const DuplicateRepo: string := "A prototype for this repository already exists"
  const NotFound: string := "Prototype not found"
  const NotFoundOrUnauthorized: string := "Prototype not found or unauthorized"
  const HistoryNotFound: string := "Build history not found"
  /** The database's error for an update whose row does not exist. */
  const RecordToUpdateNotFound: string := "Record to update not found."
  /** The database's error for a build-history row whose prototype does not exist. */
  const ForeignKeyViolation: string := "Foreign key constraint failed on the field: prototypeId"

  /** The `n`-th generated id. Ids of different lengths differ, which is all the
      database's generated ids are relied on for. */
  function FreshId(n: nat): (id: string)
    ensures |id| == n + 1
  {
    seq(n + 1, _ => '#')
  }

  // ---------------------------------------------------------------------------
  // Row-level rules

  /** An active prototype for the same repository. */
  predicate RepoTaken(table: map<string, Prototype>, owner: string, repoName: string) {
    exists k :: k in table && table[k].isActive && table[k].gitHubOwner == owner && table[k].gitHubRepoName == repoName
  }

  /** The listing filter: active, and created by `createdBy` when that is a non-empty string. */
  predicate Listed(p: Prototype, createdBy: Option<string>) {
    p.isActive && (Truthy(createdBy) ==> p.createdBy == createdBy.value)
  }

  /** The rows `getPrototypeById` finds: active, with that id, and created by
      `userId` when that is a non-empty string. */
  predicate Findable(table: map<string, Prototype>, id: string, userId: Option<string>) {
    id in table && table[id].isActive && (Truthy(userId) ==> table[id].createdBy == userId.value)
  }

  /** The rows an update or delete may touch: active and created by `userId`. */
  predicate Owned(table: map<string, Prototype>, id: string, userId: string) {
    id in table && table[id].isActive && table[id].createdBy == userId
  }

  /** `name` changes only when a non-empty string is given; `description` whenever
      it is present, even as `""` or `null`. */
  function ApplyUpdate(p: Prototype, req: UpdateRequest): (q: Prototype)
    ensures q.(name := p.name, description := p.description) == p
    ensures q.name == if Truthy(req.name) then req.name.value else p.name
    ensures q.description == req.description.GetOr(p.description)
  {
    p.(name := if Truthy(req.name) then req.name.value else p.name,
       description := if req.description.Some? then req.description.value else p.description)
  }

  /** The status update: an absent error message leaves the stored one, and the
      deployment time moves only on success. */
  function WithBuildStatus(p: Prototype, status: BuildStatus, errorMessage: Option<string>, now: int): (q: Prototype)
    ensures q.(buildStatus := p.buildStatus, buildErrorMessage := p.buildErrorMessage, lastDeployedAt := p.lastDeployedAt) == p
    ensures q.buildStatus == status
    ensures q.buildErrorMessage == if errorMessage.Some? then errorMessage else p.buildErrorMessage
    ensures q.lastDeployedAt == if status == Succeeded then Some(now) else p.lastDeployedAt
  {
    p.(buildStatus := status,
       buildErrorMessage := if errorMessage.Some? then errorMessage else p.buildErrorMessage,
       lastDeployedAt := if status == Succeeded then Some(now) else p.lastDeployedAt)
  }

  /** A build-history row after completion; absent logs or error message leave
      the stored ones. */
  function CompletedRecord(rec: BuildRecord, success: bool, logs: Option<string>, errorMessage: Option<string>, endTime: int): (c: BuildRecord)
    ensures c.id == rec.id && c.prototypeId == rec.prototypeId && c.buildStartedAt == rec.buildStartedAt
    ensures c.buildStatus == if success then HistorySucceeded else HistoryFailed
    ensures c.buildCompletedAt == Some(endTime)
    ensures c.buildDurationMs.Some? && rec.buildStartedAt + c.buildDurationMs.value == endTime
    ensures c.buildLogs == if logs.Some? then logs else rec.buildLogs
    ensures c.errorMessage == if errorMessage.Some? then errorMessage else rec.errorMessage
  {
    rec.(buildStatus := if success then HistorySucceeded else HistoryFailed,
         buildCompletedAt := Some(endTime),
         buildDurationMs := Some(endTime - rec.buildStartedAt),
         buildLogs := if logs.Some? then logs else rec.buildLogs,
         errorMessage := if errorMessage.Some? then errorMessage else rec.errorMessage)
  }

  /** The prototype status a completed build leaves. */
  function OutcomeStatus(success: bool): BuildStatus {
    if success then Succeeded else Failed
  }

  // ---------------------------------------------------------------------------
  // Ordering of listings

  /** Most recently updated first. */
  predicate ByRecency(s: seq<Prototype>) {
    forall i, j :: 0 <= i < j < |s| ==> s[i].lastUpdated >= s[j].lastUpdated
  }

  /** Where `p` goes in a listing: before the first element updated less
      recently than it. */
  function InsertPos(s: seq<Prototype>, p: Prototype): (k: nat)
    ensures k <= |s|
    ensures forall i :: 0 <= i < k ==> s[i].lastUpdated >= p.lastUpdated
    ensures k < |s| ==> s[k].lastUpdated < p.lastUpdated
    decreases |s|
  {
    if s == [] || s[0].lastUpdated < p.lastUpdated then 0
    else 1 + InsertPos(s[1..], p)
  }

  /** The listing with `p` added at its place. */
  function InsertByRecency(s: seq<Prototype>, p: Prototype): (r: seq<Prototype>)
    ensures multiset(r) == multiset(s) + multiset{p}
    ensures forall x :: x in r <==> x in s || x == p
  {
    var k := InsertPos(s, p);
    assert s == s[..k] + s[k..];
    s[..k] + [p] + s[k..]
  }

  lemma InsertKeepsOrder(s: seq<Prototype>, p: Prototype)
    requires ByRecency(s)
    ensures ByRecency(InsertByRecency(s, p))
  {
    var k := InsertPos(s, p);
    var r := InsertByRecency(s, p);
    forall i, j | 0 <= i < j < |r| ensures r[i].lastUpdated >= r[j].lastUpdated {
      InsertAt(s, p, i);
      InsertAt(s, p, j);
      if i == k && j - 1 > k {
        assert s[k].lastUpdated >= s[j - 1].lastUpdated;
      }
    }
  }

  lemma InsertKeepsDistinct(s: seq<Prototype>, p: Prototype)
    requires NoDuplicates(s) && p !in s
    ensures NoDuplicates(InsertByRecency(s, p))
  {
    var k := InsertPos(s, p);
    var r := InsertByRecency(s, p);
    forall i, j | 0 <= i < j < |r| ensures r[i] != r[j] {
      InsertAt(s, p, i);
      InsertAt(s, p, j);
    }
  }

  /** The elements of the listing after the insertion, by index. */
  lemma InsertAt(s: seq<Prototype>, p: Prototype, i: nat)
    requires i <= |s|
    ensures var k := InsertPos(s, p);
      InsertByRecency(s, p)[i] == if i < k then s[i] else if i == k then p else s[i - 1]
  {
  }

  // ---------------------------------------------------------------------------
  // The service

  class PrototypeService {
    var prototypes: map<string, Prototype>
    var builds: map<string, BuildRecord>
    /** How many ids have been generated so far. */
    var issued: nat

    /** Rows are stored under their own id, every id is shorter than the next
        generated one, and every build-history row belongs to a prototype. */
    ghost predicate Valid()
      reads this
    {
      (forall k {:trigger prototypes[k]} :: k in prototypes ==> prototypes[k].id == k && |k| <= issued)
      && (forall k {:trigger builds[k]} :: k in builds ==> builds[k].id == k && |k| <= issued && builds[k].prototypeId in prototypes)
    }

    constructor()
      ensures Valid() && prototypes == map[] && builds == map[]
    {
      prototypes := map[];
      builds := map[];
      issued := 0;
    }

    /** `createPrototype`: parse the URL, refuse a repository that an active
        prototype already holds, otherwise insert a new active row. */
    method CreatePrototype(name: string, description: Option<string>, gitHubRepoUrl: string, createdBy: string, now: nat)
      returns (r: Result<Prototype>)
      requires Valid()
      modifies this
      ensures Valid() && builds == old(builds)
      ensures GitHubUrl.ParseGitHubUrl(gitHubRepoUrl).Err? ==>
        r == Err(GitHubUrl.ParseGitHubUrl(gitHubRepoUrl).message) && prototypes == old(prototypes)
      ensures GitHubUrl.ParseGitHubUrl(gitHubRepoUrl).Ok? ==>
        var repo := GitHubUrl.ParseGitHubUrl(gitHubRepoUrl).value;
        RepoTaken(old(prototypes), repo.owner, repo.repoName) ==> r == Err(DuplicateRepo) && prototypes == old(prototypes)
      ensures r.Err? ==>
        GitHubUrl.ParseGitHubUrl(gitHubRepoUrl).Err? || RepoTaken(old(prototypes), GitHubUrl.ParseGitHubUrl(gitHubRepoUrl).value.owner, GitHubUrl.ParseGitHubUrl(gitHubRepoUrl).value.repoName)
      ensures r.Ok? ==>
        var repo := GitHubUrl.ParseGitHubUrl(gitHubRepoUrl).value;
        var id := FreshId(old(issued));
        && GitHubUrl.ParseGitHubUrl(gitHubRepoUrl).Ok?
        && !RepoTaken(old(prototypes), repo.owner, repo.repoName)
        && id !in old(prototypes)
        && r.value == Prototype(id, name, description, gitHubRepoUrl, repo.repoName, repo.owner,
                                createdBy, now, now, None, true, Pending, None,
                                GitHubUrl.PrototypePrefix + NatToString(now) + "-" + repo.repoName)
        && prototypes == old(prototypes)[id := r.value]
    {
      var parsed := GitHubUrl.ParseGitHubUrl(gitHubRepoUrl);
      if parsed.Err? {
        return Err(parsed.message);
      }
      var owner, repoName := parsed.value.owner, parsed.value.repoName;
      if RepoTaken(prototypes, owner, repoName) {
        return Err(DuplicateRepo);
      }
      var prototypeUrl := GitHubUrl.PrototypePrefix + NatToString(now) + "-" + repoName;
      var p := Prototype(FreshId(issued), name, description, gitHubRepoUrl, repoName, owner,
                         createdBy, now, now, None, true, Pending, None, prototypeUrl);
      InsertFresh(p);
      r := Ok(p);
    }

    /** Store a new row under the next generated id. */
    method InsertFresh(p: Prototype)
      requires Valid() && p.id == FreshId(issued)
      modifies this
      ensures Valid() && builds == old(builds)
      ensures p.id !in old(prototypes) && prototypes == old(prototypes)[p.id := p] && issued == old(issued) + 1
    {
      prototypes := prototypes[p.id := p];
      issued := issued + 1;
    }

    /** `getPrototypes`: the listed rows, each once, most recently updated first. */
    method GetPrototypes(createdBy: Option<string>) returns (list: seq<Prototype>)
      requires Valid()
      ensures forall p :: p in list <==> p.id in prototypes && prototypes[p.id] == p && Listed(p, createdBy)
      ensures ByRecency(list) && NoDuplicates(list)
    {
      list := [];
      var remaining := prototypes.Keys;
      while remaining != {}
        invariant remaining <= prototypes.Keys
        invariant ByRecency(list) && NoDuplicates(list)
        invariant forall p :: p in list <==>
          p.id in prototypes && p.id !in remaining && prototypes[p.id] == p && Listed(p, createdBy)
        decreases remaining
      {
        var k :| k in remaining;
        remaining := remaining - {k};
        var p := prototypes[k];
        if Listed(p, createdBy) {
          assert p !in list;
          InsertKeepsDistinct(list, p);
          InsertKeepsOrder(list, p);
          list := InsertByRecency(list, p);
        }
      }
    }

    /** `getPrototypeById`. */
    function GetPrototypeById(id: string, userId: Option<string>): (r: Result<Prototype>)
      reads this
      requires Valid()
      ensures r.Ok? <==> Findable(prototypes, id, userId)
      ensures r.Ok? ==> r.value.id == id && r.value.isActive && r.value == prototypes[id]
      ensures r.Err? ==> r.message == NotFound
    {
      if Findable(prototypes, id, userId) then Ok(prototypes[id]) else Err(NotFound)
    }

    /** `updatePrototype`: only the owner may change an active prototype, and
        only its name and description change. */
    method UpdatePrototype(id: string, req: UpdateRequest, userId: string) returns (r: Result<Prototype>)
      requires Valid()
      modifies this
      ensures Valid() && builds == old(builds) && issued == old(issued)
      ensures r.Err? <==> !Owned(old(prototypes), id, userId)
      ensures r.Err? ==> r.message == NotFoundOrUnauthorized && prototypes == old(prototypes)
      ensures r.Ok? ==> r.value == ApplyUpdate(old(prototypes)[id], req) && prototypes == old(prototypes)[id := r.value]
    {
      if !Owned(prototypes, id, userId) {
        return Err(NotFoundOrUnauthorized);
      }
      var updated := ApplyUpdate(prototypes[id], req);
      prototypes := prototypes[id := updated];
      r := Ok(updated);
    }

    /** `deletePrototype`: the owner's soft delete. */
    method DeletePrototype(id: string, userId: string) returns (r: Result<()>)
      requires Valid()
      modifies this
      ensures Valid() && builds == old(builds) && issued == old(issued)
      ensures r.Err? <==> !Owned(old(prototypes), id, userId)
      ensures r.Err? ==> r.message == NotFoundOrUnauthorized && prototypes == old(prototypes)
      ensures r.Ok? ==> prototypes == old(prototypes)[id := old(prototypes)[id].(isActive := false)]
    {
      if !Owned(prototypes, id, userId) {
        return Err(NotFoundOrUnauthorized);
      }
      prototypes := prototypes[id := prototypes[id].(isActive := false)];
      r := Ok(());
    }

    /** `updateBuildStatus`: the row is found by id alone, active or not. */
    method UpdateBuildStatus(id: string, status: BuildStatus, errorMessage: Option<string>, now: int)
      returns (r: Result<Prototype>)
      requires Valid()
      modifies this
      ensures Valid() && builds == old(builds) && issued == old(issued)
      ensures r.Err? <==> id !in old(prototypes)
      ensures r.Err? ==> r.message == RecordToUpdateNotFound && prototypes == old(prototypes)
      ensures r.Ok? ==>
        r.value == WithBuildStatus(old(prototypes)[id], status, errorMessage, now)
        && prototypes == old(prototypes)[id := r.value]
    {
      if id !in prototypes {
        return Err(RecordToUpdateNotFound);
      }
      var updated := WithBuildStatus(prototypes[id], status, errorMessage, now);
      prototypes := prototypes[id := updated];
      r := Ok(updated);
    }

    /** `addBuildHistory`: a new row for an existing prototype. */
    method AddBuildHistory(prototypeId: string, status: HistoryStatus, logs: Option<string>, now: int)
      returns (r: Result<BuildRecord>)
      requires Valid()
      modifies this
      ensures Valid() && prototypes == old(prototypes)
      ensures r.Err? <==> prototypeId !in old(prototypes)
      ensures r.Err? ==> r.message == ForeignKeyViolation && builds == old(builds) && issued == old(issued)
      ensures r.Ok? ==>
        var id := FreshId(old(issued));
        id !in old(builds)
        && r.value == BuildRecord(id, prototypeId, status, now, None, None, logs, None)
        && builds == old(builds)[id := r.value] && issued == old(issued) + 1
    {
      if prototypeId !in prototypes {
        return Err(ForeignKeyViolation);
      }
      var id := FreshId(issued);
      var rec := BuildRecord(id, prototypeId, status, now, None, None, logs, None);
      builds := builds[id := rec];
      issued := issued + 1;
      r := Ok(rec);
    }

    /** `completeBuild`: finish the history row, then mirror the outcome on the
        prototype's status. */
    method CompleteBuild(buildId: string, success: bool, logs: Option<string>, errorMessage: Option<string>, endTime: int)
      returns (r: Result<BuildRecord>)
      requires Valid()
      modifies this
      ensures Valid() && issued == old(issued)
      ensures r.Err? <==> buildId !in old(builds)
      ensures r.Err? ==> r.message == HistoryNotFound && builds == old(builds) && prototypes == old(prototypes)
      ensures r.Ok? ==>
        var rec := old(builds)[buildId];
        r.value == CompletedRecord(rec, success, logs, errorMessage, endTime)
        && builds == old(builds)[buildId := r.value]
        && prototypes == old(prototypes)[rec.prototypeId := WithBuildStatus(
             old(prototypes)[rec.prototypeId], OutcomeStatus(success), errorMessage, endTime)]
    {
      if buildId !in builds {
        return Err(HistoryNotFound);
      }
      var rec := builds[buildId];
      var completed := CompletedRecord(rec, success, logs, errorMessage, endTime);
      builds := builds[buildId := completed];
      var mirrored := UpdateBuildStatus(rec.prototypeId, OutcomeStatus(success), errorMessage, endTime);
      r := Ok(completed);
    }
  }

  // ---------------------------------------------------------------------------
  // Properties across operations

  /** After a soft delete the prototype is neither listed nor found, for anyone. */
  lemma DeletedIsHidden(table: map<string, Prototype>, id: string, createdBy: Option<string>, userId: Option<string>)
    requires id in table
    ensures !Listed(table[id := table[id].(isActive := false)][id], createdBy)
    ensures !Findable(table[id := table[id].(isActive := false)], id, userId)
  {
  }

  /** A failed completion keeps the logs recorded so far and a successful one keeps
      the prototype's earlier error message. */
  lemma CompletionKeepsEarlierText(rec: BuildRecord, p: Prototype, message: string, logs: string, endTime: int)
    ensures CompletedRecord(rec, false, None, Some(message), endTime).buildLogs == rec.buildLogs
    ensures WithBuildStatus(p, OutcomeStatus(true), None, endTime).buildErrorMessage == p.buildErrorMessage
    ensures WithBuildStatus(p, OutcomeStatus(true), None, endTime).lastDeployedAt == Some(endTime)
    ensures WithBuildStatus(p, OutcomeStatus(false), Some(message), endTime).lastDeployedAt == p.lastDeployedAt
  {
  }

  /** A soft-deleted prototype no longer blocks a new one for the same repository. */
  lemma DeletedFreesRepo(table: map<string, Prototype>, id: string)
    requires id in table
    requires forall k :: k in table && k != id ==> !table[k].isActive
    ensures !RepoTaken(table[id := table[id].(isActive := false)], table[id].gitHubOwner, table[id].gitHubRepoName)
  {
  }
}
