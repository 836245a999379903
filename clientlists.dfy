/** The list transforms over clients that the router store and the view-model share: replacing
    the entries with a given id, assigning a policy to everyone, and clearing a policy. */
module ClientLists {
  import opened Prelude
  import opened Models

  /** `clients.map { if (it.id == id) f(it) else it }` */
  function ReplaceWhereId(cs: seq<Client>, id: string, f: Client -> Client): (r: seq<Client>)
    ensures |r| == |cs|
    ensures forall i :: 0 <= i < |cs| ==> r[i] == (if cs[i].id == id then f(cs[i]) else cs[i])
  {
    seq(|cs|, i requires 0 <= i < |cs| => if cs[i].id == id then f(cs[i]) else cs[i])
  }

  /** No two clients share an id. */
  predicate UniqueIds(cs: seq<Client>) {
    forall i, j :: 0 <= i < j < |cs| ==> cs[i].id != cs[j].id
  }

  /** Position of the first client with the given id, as `indexOfFirst`. */
  function IndexOfId(cs: seq<Client>, id: string): (r: Option<nat>)
    ensures r.Some? ==> r.value < |cs| && cs[r.value].id == id
    ensures r.Some? ==> forall j :: 0 <= j < r.value ==> cs[j].id != id
    ensures r.None? <==> forall j :: 0 <= j < |cs| ==> cs[j].id != id
  {
    FirstIndex(cs, (c: Client) => c.id == id)
  }

  /** With unique ids, overwriting the client with id `id` by `f` and then putting back the
      snapshot `cs[k]` taken before gives back the original list, whatever `f` did, provided `f`
      keeps the id. This is the view-model's rollback after a failed single-client call. */
  lemma RollbackRestores(cs: seq<Client>, k: nat, f: Client -> Client)
    requires UniqueIds(cs) && k < |cs|
    requires forall c :: f(c).id == c.id
    ensures ReplaceWhereId(ReplaceWhereId(cs, cs[k].id, f), cs[k].id, (_: Client) => cs[k]) == cs
  {
    var id := cs[k].id;
    var mid := ReplaceWhereId(cs, id, f);
    var back := ReplaceWhereId(mid, id, (_: Client) => cs[k]);
    forall i | 0 <= i < |cs| ensures back[i] == cs[i] {
      if cs[i].id == id {
        assert i == k;
      }
    }
  }

  /** Updating the clients with `id` by `f` and then by `g`, where `f` keeps ids, is the same as
      updating them once by `f` followed by `g`. */
  lemma ReplaceTwice(cs: seq<Client>, id: string, f: Client -> Client, g: Client -> Client)
    requires forall c :: f(c).id == c.id
    ensures ReplaceWhereId(ReplaceWhereId(cs, id, f), id, g) == ReplaceWhereId(cs, id, (c: Client) => g(f(c)))
  {
  }

  /** The store's `applyPolicyToAll`: clients already on `policyId` stay exactly as they were,
      every other client gets the policy and is marked registered. */
  function AssignAll(cs: seq<Client>, policyId: string): (r: seq<Client>)
    ensures |r| == |cs|
    ensures forall i :: 0 <= i < |cs| ==> r[i].policyId == Some(policyId)
    ensures forall i :: 0 <= i < |cs| && cs[i].policyId == Some(policyId) ==> r[i] == cs[i]
    ensures forall i :: 0 <= i < |cs| && cs[i].policyId != Some(policyId) ==> r[i] == cs[i].Assigned(policyId)
    ensures forall i :: 0 <= i < |cs| ==> r[i].id == cs[i].id && r[i].mac == cs[i].mac
  {
    seq(|cs|, i requires 0 <= i < |cs| =>
      if cs[i].policyId == Some(policyId) then cs[i] else cs[i].Assigned(policyId))
  }

  /** The view-model's optimistic `applyPolicyToAll`: every client gets the policy and is
      marked registered. */
  function AssignEvery(cs: seq<Client>, policyId: string): (r: seq<Client>)
    ensures |r| == |cs|
    ensures forall i :: 0 <= i < |cs| ==> r[i] == cs[i].Assigned(policyId)
  {
    seq(|cs|, i requires 0 <= i < |cs| => cs[i].Assigned(policyId))
  }

  /** The optimistic bulk view and the store's answer disagree exactly on the clients that were
      already on the policy without being registered: the optimistic view marks them registered,
      the store leaves them alone. */
  lemma OptimisticBulkApplyAgreesExceptRegistration(cs: seq<Client>, policyId: string, i: nat)
    requires i < |cs|
    ensures AssignEvery(cs, policyId)[i] != AssignAll(cs, policyId)[i] <==>
      cs[i].policyId == Some(policyId) && !cs[i].registered
    ensures AssignEvery(cs, policyId)[i] == AssignAll(cs, policyId)[i].(registered := true)
  {
  }

  /** `clearPolicyFromAll`'s transform, shared by the store and the view-model: with no policy
      every client is cleared; otherwise only the clients on that policy are, and the others are
      left exactly as they were. */
  function ClearMatching(cs: seq<Client>, policyId: Option<string>): (r: seq<Client>)
    ensures |r| == |cs|
    ensures policyId.None? ==> forall i :: 0 <= i < |cs| ==> r[i] == cs[i].Cleared()
    ensures policyId.Some? ==> forall i :: 0 <= i < |cs| ==>
      r[i] == (if cs[i].policyId == policyId then cs[i].Cleared() else cs[i])
    ensures forall i :: 0 <= i < |cs| ==> r[i].id == cs[i].id && r[i].mac == cs[i].mac
  {
    seq(|cs|, i requires 0 <= i < |cs| =>
      if policyId.None? || cs[i].policyId == policyId then cs[i].Cleared() else cs[i])
  }

  /** After clearing, no client is left on the cleared policy, and with no policy given no
      client is left on any policy. */
  lemma ClearMatchingLeavesNone(cs: seq<Client>, policyId: Option<string>)
    ensures forall i :: 0 <= i < |cs| ==>
      ClearMatching(cs, policyId)[i].policyId != policyId || policyId.None?
    ensures policyId.None? ==> forall i :: 0 <= i < |cs| ==> ClearMatching(cs, policyId)[i].policyId.None?
  {
  }

  /** `clients.count { it.policyId == null }` */
  function CountUnassigned(cs: seq<Client>): (n: nat)
    ensures n <= |cs|
    decreases |cs|
  {
    if cs == [] then 0 else (if cs[0].policyId.None? then 1 else 0) + CountUnassigned(cs[1..])
  }

  lemma {:induction false} CountUnassignedAll(cs: seq<Client>)
    requires forall i :: 0 <= i < |cs| ==> cs[i].policyId.None?
    ensures CountUnassigned(cs) == |cs|
    decreases |cs|
  {
    if cs != [] {
      CountUnassignedAll(cs[1..]);
    }
  }

  /** Clearing every policy leaves every client unassigned, so the "reset" count is the whole
      list. */
  lemma ClearAllCountsEveryone(cs: seq<Client>)
    ensures CountUnassigned(ClearMatching(cs, None)) == |cs|
  {
    CountUnassignedAll(ClearMatching(cs, None));
  }
}
