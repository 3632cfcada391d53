/** The per-run record of which pipeline instances were initiated on which Continuum
    server: a map from server URL to an insertion-ordered, duplicate-free set of
    pipeline-instance IDs (a `LinkedHashSet`, here a sequence without duplicates). */
module Actions {
  import opened Wrappers

  /** The registry's contents: server URL to that server's IDs in insertion order. */
  type Registry = map<string, seq<string>>

  predicate NoDuplicates(ids: seq<string>) {
    forall i, j :: 0 <= i < j < |ids| ==> ids[i] != ids[j]
  }

  /** Every server's IDs form a set. */
  predicate WellFormed(m: Registry) {
    forall server :: server in m ==> NoDuplicates(m[server])
  }

  /** What `getPipelineIds` shows: the server's IDs, or none for a server never seen. */
  function Ids(m: Registry, server: string): seq<string> {
    if server in m then m[server] else []
  }

  /** The registry after `addPipelineId(server, id)`: a server seen for the first time gets
      a new set; an ID already present is left where it is. */
  function Added(m: Registry, server: string, id: string): Registry {
    if server !in m then m[server := [id]]
    else if id in m[server] then m
    else m[server := m[server] + [id]]
  }

  /** The registry after `reset(server)`: the server's set is emptied in place, so the
      server stays known; an unknown server is left alone. */
  function Cleared(m: Registry, server: string): Registry {
    if server in m then m[server := []] else m
  }

  /** What `getLastPipelineId` returns: the most recently inserted ID, absent (`null`) when
      the server is unknown or its set is empty. */
  function Last(m: Registry, server: string): Option<string> {
    if server in m && |m[server]| > 0 then Some(m[server][|m[server]| - 1]) else None
  }

  lemma AddedKeepsWellFormed(m: Registry, server: string, id: string)
    requires WellFormed(m)
    ensures WellFormed(Added(m, server, id))
  {
  }

  lemma ClearedKeepsWellFormed(m: Registry, server: string)
    requires WellFormed(m)
    ensures WellFormed(Cleared(m, server))
  {
  }

  /** After seeding with `(server, id)` the server holds exactly that ID, it is the last
      one, and no other server has entries. */
  lemma SeededRegistry(server: string, id: string, other: string)
    requires other != server
    ensures WellFormed(map[server := [id]])
    ensures Ids(map[server := [id]], server) == [id]
    ensures Last(map[server := [id]], server) == Some(id)
    ensures Ids(map[server := [id]], other) == []
  {
  }

  /** A server that was never added has no IDs and no last ID. */
  lemma UnknownServerIsEmpty(m: Registry, server: string)
    requires server !in m
    ensures Ids(m, server) == [] && Last(m, server) == None
  {
  }

  /** `addPipelineId` reports a new ID exactly when the ID was absent; afterwards the ID is
      present, a new ID is appended at the end, and every other server is unchanged. */
  lemma AddedContents(m: Registry, server: string, id: string, other: string)
    requires other != server
    ensures id in Ids(Added(m, server, id), server)
    ensures id !in Ids(m, server) ==> Ids(Added(m, server, id), server) == Ids(m, server) + [id]
    ensures id in Ids(m, server) ==> Ids(Added(m, server, id), server) == Ids(m, server)
    ensures Ids(Added(m, server, id), other) == Ids(m, other)
  {
  }

  /** An ID that was new becomes the last ID; a duplicate add changes nothing, so the last
      ID stays what it was. */
  lemma AddedLast(m: Registry, server: string, id: string)
    ensures id !in Ids(m, server) ==> Last(Added(m, server, id), server) == Some(id)
    ensures id in Ids(m, server) ==> Last(Added(m, server, id), server) == Last(m, server)
  {
  }

  /** In a duplicate-free sequence a present element occurs exactly once. */
  lemma {:induction false} OccursOnce(ids: seq<string>, id: string)
    requires NoDuplicates(ids) && id in ids
    ensures multiset(ids)[id] == 1
  {
    var n := |ids|;
    var init := ids[..n - 1];
    assert ids == init + [ids[n - 1]];
    if ids[n - 1] == id {
      assert id !in init;
      assert multiset(init)[id] == 0;
    } else {
      assert id in init;
      OccursOnce(init, id);
    }
  }

  /** Adding the same ID twice: the second add is a no-op, and the ID is there once. */
  lemma AddedTwice(m: Registry, server: string, id: string)
    requires WellFormed(m)
    ensures id in Ids(Added(m, server, id), server)
    ensures Added(Added(m, server, id), server, id) == Added(m, server, id)
    ensures multiset(Ids(Added(m, server, id), server))[id] == 1
  {
    AddedKeepsWellFormed(m, server, id);
    var m' := Added(m, server, id);
    assert server in m' && NoDuplicates(m'[server]);
    OccursOnce(m'[server], id);
  }

  /** `reset` empties the server's set, so it has no last ID; other servers keep theirs. */
  lemma ClearedContents(m: Registry, server: string, other: string)
    requires other != server
    ensures Ids(Cleared(m, server), server) == [] && Last(Cleared(m, server), server) == None
    ensures Ids(Cleared(m, server), other) == Ids(m, other)
    ensures server !in m ==> Cleared(m, server) == m
  {
  }

  /** The two ways the registry changes. */
  datatype Update = AddId(server: string, id: string) | ResetServer(server: string)

  function Apply(m: Registry, updates: seq<Update>): Registry
    decreases |updates|
  {
    if updates == [] then m
    else
      var m' := match updates[0]
        case AddId(s, id) => Added(m, s, id)
        case ResetServer(s) => Cleared(m, s);
      Apply(m', updates[1..])
  }

  /** An ID added for a server stays among that server's IDs through any later updates
      until the server is reset. */
  lemma {:induction false} AddedIdPersists(m: Registry, server: string, id: string, updates: seq<Update>)
    requires id in Ids(m, server)
    requires forall k :: 0 <= k < |updates| ==> updates[k] != ResetServer(server)
    ensures id in Ids(Apply(m, updates), server)
    decreases |updates|
  {
    if updates != [] {
      var m' := match updates[0]
        case AddId(s, x) => Added(m, s, x)
        case ResetServer(s) => Cleared(m, s);
      assert id in Ids(m', server) by {
        match updates[0]
        case AddId(s, x) =>
        case ResetServer(s) => assert s != server;
      }
      assert forall k :: 0 <= k < |updates[1..]| ==> updates[1..][k] == updates[k + 1];
      AddedIdPersists(m', server, id, updates[1..]);
    }
  }

  /** The registry object attached to a build run. */
  class PipelineInitiatedAction {
    var serverPipelineIds: Registry

    ghost predicate Valid()
      reads this
    {
      WellFormed(serverPipelineIds)
    }

    /** Seeds the registry with one ID for one server. */
    constructor (serverUrl: string, pipelineId: string)
      ensures Valid()
      ensures serverPipelineIds == map[serverUrl := [pipelineId]]
    {
      var pis := [pipelineId];
      serverPipelineIds := map[serverUrl := pis];
    }

    /** The server's IDs in insertion order (a read-only view in the source). */
    function GetPipelineIds(serverUrl: string): (ids: seq<string>)
      reads this
      requires Valid()
      ensures NoDuplicates(ids)
      ensures serverUrl !in serverPipelineIds ==> ids == []
      ensures forall id :: id in ids <==> serverUrl in serverPipelineIds && id in serverPipelineIds[serverUrl]
    {
      Ids(serverPipelineIds, serverUrl)
    }

    method AddPipelineId(serverUrl: string, pipelineId: string) returns (added: bool)
      requires Valid()
      modifies this
      ensures Valid()
      ensures added <==> pipelineId !in Ids(old(serverPipelineIds), serverUrl)
      ensures serverPipelineIds == Added(old(serverPipelineIds), serverUrl, pipelineId)
    {
      AddedKeepsWellFormed(serverPipelineIds, serverUrl, pipelineId);
      var pis: seq<string>;
      if serverUrl !in serverPipelineIds {
        pis := [];
        serverPipelineIds := serverPipelineIds[serverUrl := pis];
      } else {
        pis := serverPipelineIds[serverUrl];
      }
      added := pipelineId !in pis;
      if added {
        serverPipelineIds := serverPipelineIds[serverUrl := pis + [pipelineId]];
        assert serverUrl !in old(serverPipelineIds) ==> pis + [pipelineId] == [pipelineId];
      }
    }

    /** Walks the insertion-ordered set to its end and returns the element it stopped at. */
    method GetLastPipelineId(serverUrl: string) returns (pi: Option<string>)
      ensures pi == Last(serverPipelineIds, serverUrl)
      ensures pi.Some? ==> pi.value in Ids(serverPipelineIds, serverUrl)
    {
      pi := None;
      if serverUrl in serverPipelineIds {
        var pis := serverPipelineIds[serverUrl];
        var i := 0;
        while i < |pis|
          invariant 0 <= i <= |pis|
          invariant pi == if i == 0 then None else Some(pis[i - 1])
        {
          pi := Some(pis[i]);
          i := i + 1;
        }
      }
    }

    method Reset(serverUrl: string)
      requires Valid()
      modifies this
      ensures Valid()
      ensures serverPipelineIds == Cleared(old(serverPipelineIds), serverUrl)
    {
      if serverUrl in serverPipelineIds {
        serverPipelineIds := serverPipelineIds[serverUrl := []];
      }
    }
  }

  /** Adding "a", "b", "c" in that order for "s" leaves "c" as the last ID. */
  lemma LastOfThree()
    ensures Last(Added(Added(Added(map[], "s", "a"), "s", "b"), "s", "c"), "s") == Some("c")
  {
  }
}
