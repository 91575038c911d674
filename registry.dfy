/**
 * The manager module's registry of requests: submit_request appends a new
 * CommandsRequest, and _notify routes a command completion to the one request
 * that runs its tag. Also the OSD and pool lookups of the module.
 */
module Registry {
  import opened Wrappers
  import opened Json
  import opened Common
  import opened Requests

  /** The contents of the requests, in registry order. */
  function StatesOf(rs: seq<CommandsRequest>): (ss: seq<RequestState>)
    reads rs
    ensures |ss| == |rs|
  {
    if rs == [] then [] else StatesOf(rs[..|rs| - 1]) + [rs[|rs| - 1].State()]
  }

  lemma {:induction false} StatesOfIndex(rs: seq<CommandsRequest>)
    ensures |StatesOf(rs)| == |rs|
    ensures forall i :: 0 <= i < |rs| ==> StatesOf(rs)[i] == rs[i].State()
  {
    if rs != [] {
      StatesOfIndex(rs[..|rs| - 1]);
    }
  }

  /**
   * The registry invariant: request ids are pairwise distinct and below the next
   * fresh id, and every request satisfies the request invariant.
   */
  ghost predicate Coherent(states: seq<RequestState>, nextId: nat) {
    && IdsDistinct(states)
    && (forall i :: 0 <= i < |states| ==> states[i].uuid < nextId && states[i].Valid())
  }

  predicate IdsDistinct(states: seq<RequestState>) {
    forall i, j :: 0 <= i < j < |states| ==> states[i].uuid != states[j].uuid
  }

  /** The positions, in increasing order, of the requests that run the tag. */
  function Owners(states: seq<RequestState>, tag: Tag): (r: seq<nat>)
    ensures forall a :: 0 <= a < |r| ==> r[a] < |states|
  {
    if states == [] then []
    else
      var n := |states| - 1;
      Owners(states[..n], tag) + (if states[n].IsRunning(tag) then [n] else [])
  }

  /** The owners are exactly the positions of the requests that run the tag, in increasing order. */
  lemma {:induction false} OwnersSpec(states: seq<RequestState>, tag: Tag)
    ensures forall k: nat :: k in Owners(states, tag) <==> k < |states| && states[k].IsRunning(tag)
    ensures forall a, b :: 0 <= a < b < |Owners(states, tag)| ==> Owners(states, tag)[a] < Owners(states, tag)[b]
    decreases |states|
  {
    if states != [] {
      var n := |states| - 1;
      OwnersSpec(states[..n], tag);
      assert forall k: nat :: k < n ==> states[..n][k] == states[k];
    }
  }

  /** What _notify(notify_type, tag) does to the requests, given the completion recorded for the tag. */
  function Route(states: seq<RequestState>, notifyType: string, tag: Tag, c: Completion): seq<RequestState> {
    if notifyType != "command" then states
    else
      var owners := Owners(states, tag);
      if |owners| != 1 then states
      else states[owners[0] := states[owners[0]].OnCompletion(tag, c)]
  }

  /** In a coherent registry at most one request runs a given tag: the one whose id the tag carries. */
  lemma OwnerIsUnique(states: seq<RequestState>, nextId: nat, tag: Tag, k: nat)
    requires Coherent(states, nextId)
    requires k < |states| && states[k].IsRunning(tag)
    ensures Owners(states, tag) == [k]
    ensures states[k].uuid == tag.id
  {
    forall i: nat | i < |states| ensures states[i].IsRunning(tag) ==> states[i].uuid == tag.id {
      RunningTagId(states[i], tag);
    }
    OnlyOwner(states, tag, k);
  }

  /** When only the request with the tag's id can run it, and ids are distinct, that request is the only owner. */
  lemma {:induction false} OnlyOwner(states: seq<RequestState>, tag: Tag, k: nat)
    requires IdsDistinct(states)
    requires forall i: nat :: i < |states| && states[i].IsRunning(tag) ==> states[i].uuid == tag.id
    requires k < |states| && states[k].IsRunning(tag)
    ensures Owners(states, tag) == [k]
    decreases |states|
  {
    var n := |states| - 1;
    var init := states[..n];
    assert Owners(states, tag) == Owners(init, tag) + (if states[n].IsRunning(tag) then [n] else []);
    if k == n {
      forall j: nat | j < n ensures !init[j].IsRunning(tag) {
        assert init[j] == states[j];
        assert states[j].uuid != states[n].uuid;
      }
      NoOwner(init, tag);
    } else {
      assert !states[n].IsRunning(tag) by {
        assert states[k].uuid != states[n].uuid;
      }
      assert IdsDistinct(init) by {
        forall i, j | 0 <= i < j < |init| ensures init[i].uuid != init[j].uuid {
          assert init[i] == states[i] && init[j] == states[j];
        }
      }
      forall i: nat | i < |init| && init[i].IsRunning(tag) ensures init[i].uuid == tag.id {
        assert init[i] == states[i];
      }
      assert init[k] == states[k];
      OnlyOwner(init, tag, k);
    }
  }

  lemma {:induction false} NoOwner(states: seq<RequestState>, tag: Tag)
    requires forall i: nat :: i < |states| ==> !states[i].IsRunning(tag)
    ensures Owners(states, tag) == []
    decreases |states|
  {
    if states != [] {
      var n := |states| - 1;
      assert forall j :: 0 <= j < n ==> states[..n][j] == states[j];
      NoOwner(states[..n], tag);
    }
  }

  /** A request runs only tags that carry its own id. */
  lemma RunningTagId(s: RequestState, tag: Tag)
    requires s.Valid()
    ensures s.IsRunning(tag) ==> s.uuid == tag.id
  {
    if s.IsRunning(tag) {
      var i :| 0 <= i < |s.running| && s.running[i].tag == tag;
      assert s.running[i] in s.running;
    }
  }

  /**
   * A completion for a command that a request of a coherent registry runs reaches
   * exactly that request and no other.
   */
  lemma RouteReachesOwner(states: seq<RequestState>, nextId: nat, tag: Tag, c: Completion, k: nat)
    requires Coherent(states, nextId)
    requires k < |states| && states[k].IsRunning(tag)
    ensures Route(states, "command", tag, c) == states[k := states[k].OnCompletion(tag, c)]
  {
    OwnerIsUnique(states, nextId, tag, k);
  }

  /**
   * A notification of another type, or for a tag that no request runs or that two
   * requests run, changes no request.
   */
  lemma RouteDropsUnknown(states: seq<RequestState>, notifyType: string, tag: Tag, c: Completion)
    requires || notifyType != "command"
             || (forall k :: 0 <= k < |states| ==> !states[k].IsRunning(tag))
             || (exists i, j :: 0 <= i < j < |states| && states[i].IsRunning(tag) && states[j].IsRunning(tag))
    ensures Route(states, notifyType, tag, c) == states
  {
    if notifyType == "command" {
      if forall k :: 0 <= k < |states| ==> !states[k].IsRunning(tag) {
        NoOwner(states, tag);
      } else {
        var i, j :| 0 <= i < j < |states| && states[i].IsRunning(tag) && states[j].IsRunning(tag);
        OwnersSpec(states, tag);
        var owners := Owners(states, tag);
        assert i in owners && j in owners;
      }
    }
  }

  /** Routing a completion keeps the registry coherent. */
  lemma RouteCoherent(states: seq<RequestState>, nextId: nat, notifyType: string, tag: Tag, c: Completion)
    requires Coherent(states, nextId)
    ensures Coherent(Route(states, notifyType, tag, c), nextId)
  {
    var owners := Owners(states, tag);
    if notifyType == "command" && |owners| == 1 {
      assert owners[0] in owners;
      OnCompletionValid(states[owners[0]], tag, c);
    }
  }

  // --------------------------------------------------------- OSD and pool maps

  /** An entry of the OSD map's "osds" list: its id and its "up" value. */
  datatype OsdRecord = OsdRecord(osd: int, up: Value)

  /** An entry of the OSD map's "pools" list: its id and its "pool_name" value. */
  datatype PoolRecord = PoolRecord(pool: int, poolName: Value)

  function OsdsWithId(osds: seq<OsdRecord>, id: int): (r: seq<OsdRecord>)
    ensures forall x :: x in r <==> x in osds && x.osd == id
    ensures (forall i :: 0 <= i < |osds| ==> osds[i].osd != id) ==> r == []
  {
    if osds == [] then []
    else (if osds[0].osd == id then [osds[0]] else []) + OsdsWithId(osds[1..], id)
  }

  /** get_osd_by_id(osd_id): the record with the id when exactly one record has it. */
  function GetOsdById(osds: seq<OsdRecord>, id: int): (r: Option<OsdRecord>)
    ensures r.Some? <==> |OsdsWithId(osds, id)| == 1
    ensures r.Some? ==> r.value in osds && r.value.osd == id
    ensures r.Some? ==> forall x :: x in osds && x.osd == id ==> x == r.value
  {
    var found := OsdsWithId(osds, id);
    if |found| != 1 then None
    else
      assert found[0] in found;
      Some(found[0])
  }

  /** A record whose id no other record has is found by get_osd_by_id. */
  lemma {:induction false} OsdFound(osds: seq<OsdRecord>, id: int, i: nat)
    requires i < |osds| && osds[i].osd == id
    requires forall j :: 0 <= j < |osds| && j != i ==> osds[j].osd != id
    ensures OsdsWithId(osds, id) == [osds[i]]
    ensures GetOsdById(osds, id) == Some(osds[i])
  {
    assert forall j :: 0 <= j < |osds[1..]| ==> osds[1..][j] == osds[j + 1];
    if i > 0 {
      OsdFound(osds[1..], id, i - 1);
    }
  }

  function PoolsWithId(pools: seq<PoolRecord>, id: int): (r: seq<PoolRecord>)
    ensures forall x :: x in r <==> x in pools && x.pool == id
    ensures (forall i :: 0 <= i < |pools| ==> pools[i].pool != id) ==> r == []
  {
    if pools == [] then []
    else (if pools[0].pool == id then [pools[0]] else []) + PoolsWithId(pools[1..], id)
  }

  /** get_pool_by_id(pool_id): the record with the id when exactly one record has it. */
  function GetPoolById(pools: seq<PoolRecord>, id: int): (r: Option<PoolRecord>)
    ensures r.Some? <==> |PoolsWithId(pools, id)| == 1
    ensures r.Some? ==> r.value in pools && r.value.pool == id
    ensures r.Some? ==> forall x :: x in pools && x.pool == id ==> x == r.value
  {
    var found := PoolsWithId(pools, id);
    if |found| != 1 then None
    else
      assert found[0] in found;
      Some(found[0])
  }

  /** A record whose id no other record has is found by get_pool_by_id. */
  lemma {:induction false} PoolFound(pools: seq<PoolRecord>, id: int, i: nat)
    requires i < |pools| && pools[i].pool == id
    requires forall j :: 0 <= j < |pools| && j != i ==> pools[j].pool != id
    ensures PoolsWithId(pools, id) == [pools[i]]
    ensures GetPoolById(pools, id) == Some(pools[i])
  {
    assert forall j :: 0 <= j < |pools[1..]| ==> pools[1..][j] == pools[j + 1];
    if i > 0 {
      PoolFound(pools[1..], id, i - 1);
    }
  }

  // ------------------------------------------------------------- the module

  /** Registering a fresh request, whose id is the next one, keeps the registry coherent. */
  lemma CoherentSnoc(states: seq<RequestState>, nextId: nat, s: RequestState)
    requires Coherent(states, nextId) && s.uuid == nextId && s.Valid()
    ensures Coherent(states + [s], nextId + 1)
  {
    var all := states + [s];
    forall i, j | 0 <= i < j < |all| ensures all[i].uuid != all[j].uuid {
      assert all[i] == states[i];
      if j < |states| {
        assert all[j] == states[j];
      }
    }
    forall i | 0 <= i < |all| ensures all[i].uuid < nextId + 1 && all[i].Valid() {
      if i < |states| {
        assert all[i] == states[i];
      }
    }
  }

  /** The manager module: its registry of requests and the source of fresh request ids. */
  class Module {
    var requests: seq<CommandsRequest>
    var nextId: nat

    /** The contents of the registered requests, in order. */
    function States(): seq<RequestState>
      reads this, requests
    {
      StatesOf(requests)
    }

    ghost predicate Valid()
      reads this, requests
    {
      Coherent(States(), nextId)
    }

    constructor ()
      ensures Valid() && States() == []
    {
      requests := [];
      nextId := 0;
    }

    /** submit_request(request): register a new request for the pipeline and return its id. */
    method SubmitRequest(pipeline: Pipeline) returns (id: nat)
      requires Valid()
      modifies this
      ensures Valid()
      ensures id == old(nextId) && nextId == old(nextId) + 1
      ensures |requests| == |old(requests)| + 1 && requests[..|old(requests)|] == old(requests)
      ensures fresh(requests[|old(requests)|])
      ensures States() == old(States()) + [Start(id, pipeline)]
    {
      id := nextId;
      ghost var before := States();
      var request := new CommandsRequest(id, pipeline);
      assert StatesOf(requests) == before;
      StartSpec(id, pipeline);
      CoherentSnoc(before, id, request.State());
      var grown := requests + [request];
      assert grown[..|grown| - 1] == requests;
      assert StatesOf(grown) == before + [request.State()];
      requests := grown;
      nextId := nextId + 1;
      assert States() == before + [Start(id, pipeline)];
      assert Coherent(States(), nextId);
    }

    /** The filter of _notify: the requests that run the tag, in registry order. */
    method RequestsRunning(tag: Tag) returns (owners: seq<CommandsRequest>)
      ensures |owners| == |Owners(States(), tag)|
      ensures forall a :: 0 <= a < |owners| ==> owners[a] == requests[Owners(States(), tag)[a]]
    {
      ghost var states := States();
      StatesOfIndex(requests);
      owners := [];
      ghost var positions: seq<nat> := [];
      for i := 0 to |requests|
        invariant positions == Owners(states[..i], tag)
        invariant |owners| == |positions|
        invariant forall a :: 0 <= a < |owners| ==> positions[a] < i && owners[a] == requests[positions[a]]
      {
        var running := requests[i].IsRunning(tag);
        assert states[i] == requests[i].State();
        assert states[..i + 1][..i] == states[..i];
        assert Owners(states[..i + 1], tag) == positions + (if running then [i] else []);
        if running {
          owners := owners + [requests[i]];
          positions := positions + [i];
        }
      }
      assert states[..|requests|] == states;
    }

    /** _notify(notify_type, tag), with the completion the monitor recorded for the tag. */
    method Notify(notifyType: string, tag: Tag, c: Completion)
      requires Valid()
      modifies requests
      ensures requests == old(requests) && nextId == old(nextId)
      ensures Valid()
      ensures States() == Route(old(States()), notifyType, tag, c)
    {
      ghost var before := States();
      if notifyType != "command" {
        return;
      }
      var owners := RequestsRunning(tag);
      if |owners| != 1 {
        assert States() == before;
        return;
      }
      ghost var k := Owners(before, tag)[0];
      Distinct(k);
      Complete(owners[0], k, tag, c);
      assert States() == Route(before, notifyType, tag, c);
      RouteCoherent(before, nextId, notifyType, tag, c);
    }

    /** Requests with distinct ids are distinct objects. */
    lemma Distinct(k: nat)
      requires Valid() && k < |requests|
      ensures forall j :: 0 <= j < |requests| && j != k ==> requests[j] != requests[k]
    {
      StatesOfIndex(requests);
      forall j | 0 <= j < |requests| && j != k
        ensures requests[j] != requests[k]
      {
        assert States()[j].uuid != States()[k].uuid;
      }
    }

    /** The body of _notify once the request is known: finish(tag), then next() if it is ready. */
    method Complete(request: CommandsRequest, ghost k: nat, tag: Tag, c: Completion)
      requires k < |requests| && request == requests[k]
      requires forall j :: 0 <= j < |requests| && j != k ==> requests[j] != request
      modifies request
      ensures States() == old(States())[k := old(States())[k].OnCompletion(tag, c)]
    {
      StatesOfIndex(requests);
      ghost var before := States();
      var _ := request.Finish(tag, c);
      if request.State().IsReady() {
        request.Next();
      }
      StatesOfIndex(requests);
      assert forall j :: 0 <= j < |requests| && j != k ==> requests[j].State() == before[j];
    }
  }
}
