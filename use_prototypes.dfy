/** The gallery's list of the backend's prototypes, with its loading flag and
    last error, and the updates made to it around each call to the prototype
    service. What a service call returns or throws is a parameter. */
module UsePrototypes {
  import opened Results
  import opened Seqs
  import opened PrototypeStore

  /** What an awaited service call ends with: its value, or what it threw. */
  datatype Outcome<T> = Done(value: T) | Threw(thrown: Thrown)

  /** A thrown `Error` carries its message; anything else thrown does not. */
  datatype Thrown = ErrorObject(message: string) | OtherValue

  const FetchFailed: string := "Failed to fetch prototypes"
  const CreateFailed: string := "Failed to create prototype"
  const UpdateFailed: string := "Failed to update prototype"
  const DeleteFailed: string := "Failed to delete prototype"
  const RebuildFailed: string := "Failed to rebuild prototype"

  /** `err instanceof Error ? err.message : fallback`. */
  function MessageOf(thrown: Thrown, fallback: string): (m: string)
    ensures thrown.ErrorObject? ==> m == thrown.message
    ensures thrown.OtherValue? ==> m == fallback
  {
    match thrown
    case ErrorObject(message) => message
    case OtherValue => fallback
  }

  // ---------------------------------------------------------------------------
  // List updates

  /** `prev.map(p => p.id === id ? updated : p)`. */
  function ReplaceById(list: seq<Prototype>, id: string, updated: Prototype): (r: seq<Prototype>)
    ensures |r| == |list|
    ensures forall i :: 0 <= i < |list| ==> r[i] == if list[i].id == id then updated else list[i]
    decreases |list|
  {
    if list == [] then []
    else [if list[0].id == id then updated else list[0]] + ReplaceById(list[1..], id, updated)
  }

  /** `prev.map(p => p.id === id ? { ...p, buildStatus: 'building' } : p)`. */
  function MarkBuilding(list: seq<Prototype>, id: string): (r: seq<Prototype>)
    ensures |r| == |list|
    ensures forall i :: 0 <= i < |list| ==> r[i] == if list[i].id == id then list[i].(buildStatus := Building) else list[i]
    decreases |list|
  {
    if list == [] then []
    else [if list[0].id == id then list[0].(buildStatus := Building) else list[0]] + MarkBuilding(list[1..], id)
  }

  /** `prev.filter(p => p.id !== id)`. */
  function RemoveById(list: seq<Prototype>, id: string): (r: seq<Prototype>)
    ensures IsSubsequence(r, list)
    ensures forall p :: p in r <==> p in list && p.id != id
    ensures forall p :: multiset(r)[p] == if p.id != id then multiset(list)[p] else 0
  {
    var keep := (p: Prototype) => p.id != id;
    FilterIsSubsequence(list, keep);
    FilterMembers(list, keep);
    FilterCounts(list, keep);
    Filter(list, keep)
  }

  /** Replacing an id no element has changes nothing. */
  lemma ReplaceAbsent(list: seq<Prototype>, id: string, updated: Prototype)
    requires forall p :: p in list ==> p.id != id
    ensures ReplaceById(list, id, updated) == list
  {
    assert forall i :: 0 <= i < |list| ==> list[i] in list;
  }

  /** Marking touches only the build status of the matching elements. */
  lemma MarkOnlyStatus(list: seq<Prototype>, id: string)
    ensures forall i :: 0 <= i < |list| ==>
      MarkBuilding(list, id)[i].(buildStatus := list[i].buildStatus) == list[i]
  {
  }

  /** Deleting an id after replacing it is deleting it: the replacement
      leaves no trace. */
  lemma RemoveAfterReplace(list: seq<Prototype>, id: string, updated: Prototype)
    requires updated.id == id
    ensures RemoveById(ReplaceById(list, id, updated), id) == RemoveById(list, id)
  {
    ReplacedIsFiltered(list, id, updated);
  }

  /** The filter behind `RemoveById` skips the replaced elements. */
  lemma {:induction false} ReplacedIsFiltered(list: seq<Prototype>, id: string, updated: Prototype)
    requires updated.id == id
    ensures Filter(ReplaceById(list, id, updated), (p: Prototype) => p.id != id) == Filter(list, (p: Prototype) => p.id != id)
    decreases |list|
  {
    if list != [] {
      ReplacedIsFiltered(list[1..], id, updated);
      var head := if list[0].id == id then updated else list[0];
      var keep := (p: Prototype) => p.id != id;
      assert ReplaceById(list, id, updated) == [head] + ReplaceById(list[1..], id, updated);
      FilterAppend([head], ReplaceById(list[1..], id, updated), keep);
      FilterAppend([list[0]], list[1..], keep);
      assert [list[0]] + list[1..] == list;
    }
  }

  /** Deleting a just-created prototype gives back the list as it was, minus
      any earlier element with the same id. */
  lemma RemoveAfterPrepend(list: seq<Prototype>, created: Prototype)
    ensures RemoveById([created] + list, created.id) == RemoveById(list, created.id)
  {
    FilterAppend([created], list, (p: Prototype) => p.id != created.id);
  }

  // ---------------------------------------------------------------------------
  // The hook's state

  class PrototypeList {
    var prototypes: seq<Prototype>
    var loading: bool
    var error: Option<string>

    /** The initial state: an empty list, loading. */
    constructor()
      ensures prototypes == [] && loading && error.None?
    {
      prototypes := [];
      loading := true;
      error := None;
    }

    /** `fetchPrototypes`: the list replaced by the service's, or the error
        recorded and the list kept; loading ends either way. */
    method FetchPrototypes(outcome: Outcome<seq<Prototype>>)
      modifies this
      ensures !loading
      ensures outcome.Done? ==> prototypes == outcome.value && error.None?
      ensures outcome.Threw? ==>
        prototypes == old(prototypes) && error == Some(MessageOf(outcome.thrown, FetchFailed))
    {
      loading := true;
      error := None;
      match outcome {
        case Done(data) =>
          prototypes := data;
        case Threw(thrown) =>
          error := Some(MessageOf(thrown, FetchFailed));
      }
      loading := false;
    }

    /** `createPrototype`: the new prototype put first; on failure the list is
        kept, the error recorded and the failure passed on. */
    method CreatePrototype(outcome: Outcome<Prototype>) returns (r: Outcome<Prototype>)
      modifies this
      ensures r == outcome && loading == old(loading)
      ensures outcome.Done? ==> prototypes == [outcome.value] + old(prototypes) && error.None?
      ensures outcome.Threw? ==>
        prototypes == old(prototypes) && error == Some(MessageOf(outcome.thrown, CreateFailed))
    {
      error := None;
      match outcome {
        case Done(created) =>
          prototypes := [created] + prototypes;
        case Threw(thrown) =>
          error := Some(MessageOf(thrown, CreateFailed));
      }
      r := outcome;
    }

    /** `updatePrototype`: every element with the id replaced by the service's
        answer. */
    method UpdatePrototype(id: string, outcome: Outcome<Prototype>) returns (r: Outcome<Prototype>)
      modifies this
      ensures r == outcome && loading == old(loading)
      ensures outcome.Done? ==> prototypes == ReplaceById(old(prototypes), id, outcome.value) && error.None?
      ensures outcome.Threw? ==>
        prototypes == old(prototypes) && error == Some(MessageOf(outcome.thrown, UpdateFailed))
    {
      error := None;
      match outcome {
        case Done(updated) =>
          prototypes := ReplaceById(prototypes, id, updated);
        case Threw(thrown) =>
          error := Some(MessageOf(thrown, UpdateFailed));
      }
      r := outcome;
    }

    /** `deletePrototype`: every element with the id dropped. */
    method DeletePrototype(id: string, outcome: Outcome<()>) returns (r: Outcome<()>)
      modifies this
      ensures r == outcome && loading == old(loading)
      ensures outcome.Done? ==> prototypes == RemoveById(old(prototypes), id) && error.None?
      ensures outcome.Threw? ==>
        prototypes == old(prototypes) && error == Some(MessageOf(outcome.thrown, DeleteFailed))
    {
      error := None;
      match outcome {
        case Done(_) =>
          prototypes := RemoveById(prototypes, id);
        case Threw(thrown) =>
          error := Some(MessageOf(thrown, DeleteFailed));
      }
      r := outcome;
    }

    /** `rebuildPrototype`: every element with the id shown as building. */
    method RebuildPrototype(id: string, outcome: Outcome<()>) returns (r: Outcome<()>)
      modifies this
      ensures r == outcome && loading == old(loading)
      ensures outcome.Done? ==> prototypes == MarkBuilding(old(prototypes), id) && error.None?
      ensures outcome.Threw? ==>
        prototypes == old(prototypes) && error == Some(MessageOf(outcome.thrown, RebuildFailed))
    {
      error := None;
      match outcome {
        case Done(_) =>
          prototypes := MarkBuilding(prototypes, id);
        case Threw(thrown) =>
          error := Some(MessageOf(thrown, RebuildFailed));
      }
      r := outcome;
    }
  }
}
