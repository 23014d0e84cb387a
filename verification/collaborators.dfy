/**
 * The live collaborator list of a document on the client: refetched from
 * the server (newest request wins), refetched again when a peer broadcasts
 * a roles change, and edited optimistically by role changes and removals
 * that roll back when the server refuses them.
 */
module Collaborators {
  import opened Wrappers
  import opened Js
  import opened CollabTypes
  import Awareness

  // ---------------------------------------------------------------------------
  // List edits
  // ---------------------------------------------------------------------------

  /** `setPending(id, val)`: mark or unmark one id, leaving the others alone. */
  function SetPending(pending: set<string>, id: string, val: bool): (r: set<string>)
    ensures id in r <==> val
    ensures forall other :: other != id ==> (other in r <==> other in pending)
  {
    if val then pending + {id} else pending - {id}
  }

  /** `prev.map(c => c.id === id ? { ...c, role } : c)`. */
  function WithRole(cs: seq<Collaborator>, id: string, role: Role): (r: seq<Collaborator>)
    ensures |r| == |cs|
    ensures forall i :: 0 <= i < |cs| ==> r[i].id == cs[i].id
    ensures forall i :: 0 <= i < |cs| && cs[i].id == id ==> r[i] == cs[i].(role := role)
    ensures forall i :: 0 <= i < |cs| && cs[i].id != id ==> r[i] == cs[i]
    decreases |cs|
  {
    if |cs| == 0 then []
    else [if cs[0].id == id then cs[0].(role := role) else cs[0]] + WithRole(cs[1..], id, role)
  }

  /**
   * Rolling a role change back restores the list, provided every entry for
   * that user still had the role the rollback writes back.
   */
  lemma RoleRollbackRestores(cs: seq<Collaborator>, id: string, role: Role, previous: Role)
    requires forall i :: 0 <= i < |cs| && cs[i].id == id ==> cs[i].role == previous
    ensures WithRole(WithRole(cs, id, role), id, previous) == cs
  {
    var r := WithRole(WithRole(cs, id, role), id, previous);
    assert forall i :: 0 <= i < |cs| ==> r[i] == cs[i];
  }

  /** `prev.filter(c => c.id !== id)`. */
  function Without(cs: seq<Collaborator>, id: string): (r: seq<Collaborator>)
    ensures forall c :: c in r <==> c in cs && c.id != id
    ensures |r| <= |cs|
    decreases |cs|
  {
    if |cs| == 0 then []
    else (if cs[0].id == id then [] else [cs[0]]) + Without(cs[1..], id)
  }

  /** Filtering distributes over concatenation: the kept entries stay in their order. */
  lemma {:induction false} WithoutConcat(a: seq<Collaborator>, b: seq<Collaborator>, id: string)
    ensures Without(a + b, id) == Without(a, id) + Without(b, id)
    decreases |a|
  {
    if |a| == 0 {
      assert a + b == b;
    } else {
      assert (a + b)[0] == a[0] && (a + b)[1..] == a[1..] + b;
      WithoutConcat(a[1..], b, id);
    }
  }

  /** A list without `id` is left as it is. */
  lemma {:induction false} WithoutAbsent(cs: seq<Collaborator>, id: string)
    requires forall c :: c in cs ==> c.id != id
    ensures Without(cs, id) == cs
    decreases |cs|
  {
    if |cs| > 0 {
      WithoutAbsent(cs[1..], id);
    }
  }

  predicate HasId(cs: seq<Collaborator>, id: string) {
    exists c :: c in cs && c.id == id
  }

  /** The rollback of a removal: `prev.some(c => c.id === u.id) ? prev : [...prev, u]`. */
  function Reinsert(cs: seq<Collaborator>, u: Collaborator): (r: seq<Collaborator>)
    ensures HasId(r, u.id)
    ensures cs <= r && |r| <= |cs| + 1
    ensures HasId(cs, u.id) <==> r == cs
  {
    if HasId(cs, u.id) then cs else cs + [u]
  }

  /**
   * A removal rolled back with no change in between brings the user back,
   * at the end of the list, behind everyone else in their old order.
   */
  lemma RemoveRollback(cs: seq<Collaborator>, u: Collaborator)
    ensures Reinsert(Without(cs, u.id), u) == Without(cs, u.id) + [u]
  {
    assert !HasId(Without(cs, u.id), u.id);
  }

  // ---------------------------------------------------------------------------
  // The hook's state
  // ---------------------------------------------------------------------------

  class CollaboratorsHook {
    var collabs: seq<Collaborator>
    var pendingIds: set<string>
    var isFetching: bool
    /** How many roles-changed tokens this client has broadcast. */
    var bumpsSent: nat
    /** The fetch `abortRef` points at, by ticket. */
    var current: Option<nat>
    /** Tickets handed out so far are below this. */
    var nextTicket: nat
    /** Tickets whose abort controller has fired. */
    var aborted: set<nat>
    /** The newest roles token the subscription has seen. */
    var lastToken: Option<string>
    /** Whether the debounced refetch timer is pending. */
    var refetchScheduled: bool

    /** Every fetch but the one `abortRef` points at has been aborted. */
    ghost predicate Valid()
      reads this
    {
      && (current.Some? ==> current.value < nextTicket)
      && (forall t :: 0 <= t < nextTicket && current != Some(t) ==> t in aborted)
    }

    constructor (initial: seq<Collaborator>)
      ensures Valid()
      ensures collabs == initial && pendingIds == {} && !isFetching && current.None? && !refetchScheduled
    {
      collabs, pendingIds, isFetching, bumpsSent := initial, {}, false, 0;
      current, nextTicket, aborted := None, 0, {};
      lastToken, refetchScheduled := None, false;
    }

    /** A new `initial` list from the page replaces the list. */
    method ResetList(initial: seq<Collaborator>)
      requires Valid()
      modifies this
      ensures Valid()
      ensures collabs == initial
      ensures pendingIds == old(pendingIds) && isFetching == old(isFetching) && current == old(current)
      ensures nextTicket == old(nextTicket) && aborted == old(aborted) && bumpsSent == old(bumpsSent)
      ensures lastToken == old(lastToken) && refetchScheduled == old(refetchScheduled)
    {
      collabs := initial;
    }

    /**
     * The start of `refetch`: abort the previous request, file a new one as
     * current, and show the fetching state.
     */
    method BeginRefetch() returns (ticket: nat)
      requires Valid()
      modifies this
      ensures Valid()
      ensures ticket == old(nextTicket) && current == Some(ticket) && nextTicket == ticket + 1
      ensures aborted == old(aborted) + (if old(current).Some? then {old(current).value} else {})
      ensures isFetching && collabs == old(collabs) && pendingIds == old(pendingIds)
      ensures refetchScheduled == old(refetchScheduled) && lastToken == old(lastToken) && bumpsSent == old(bumpsSent)
    {
      if current.Some? {
        aborted := aborted + {current.value};
      }
      ticket := nextTicket;
      current, nextTicket, isFetching := Some(ticket), nextTicket + 1, true;
    }

    /**
     * Subscribing to the room's awareness: remember its current newest roles
     * token (null without one), drop any pending debounce, and start a refetch.
     */
    method Subscribe(aw: Awareness.Awareness) returns (ticket: nat)
      requires Valid()
      modifies this
      ensures Valid()
      ensures lastToken == Awareness.NewestRoles(aw) && !refetchScheduled
      ensures ticket == old(nextTicket) && current == Some(ticket) && nextTicket == ticket + 1 && isFetching
      ensures aborted == old(aborted) + (if old(current).Some? then {old(current).value} else {})
      ensures collabs == old(collabs) && pendingIds == old(pendingIds) && bumpsSent == old(bumpsSent)
    {
      lastToken := Awareness.ReadNewestRolesToken(aw);
      refetchScheduled := false;
      ticket := BeginRefetch();
    }

    /** Unmounting aborts the current request. */
    method AbortCurrent()
      requires Valid()
      modifies this
      ensures Valid()
      ensures aborted == old(aborted) + (if current.Some? then {current.value} else {})
      ensures collabs == old(collabs) && isFetching == old(isFetching) && current == old(current)
      ensures pendingIds == old(pendingIds) && nextTicket == old(nextTicket)
      ensures lastToken == old(lastToken) && bumpsSent == old(bumpsSent)
      ensures refetchScheduled == false
    {
      if current.Some? {
        aborted := aborted + {current.value};
      }
      refetchScheduled := false;
    }

    /**
     * Fetch `ticket` resolves with `data` (null on any failure). Only a
     * request that was not aborted may replace the list, and only with data;
     * only it clears the fetching state.
     */
    method FinishRefetch(ticket: nat, data: Option<seq<Collaborator>>)
      requires Valid()
      requires ticket < nextTicket
      modifies this
      ensures Valid()
      ensures ticket in old(aborted) ==> collabs == old(collabs) && isFetching == old(isFetching)
      ensures ticket !in old(aborted) ==>
        && current == Some(ticket)
        && collabs == (if data.Some? then data.value else old(collabs))
        && !isFetching
      ensures pendingIds == old(pendingIds) && current == old(current) && aborted == old(aborted)
      ensures nextTicket == old(nextTicket) && lastToken == old(lastToken)
      ensures refetchScheduled == old(refetchScheduled) && bumpsSent == old(bumpsSent)
    {
      if ticket !in aborted {
        if data.Some? {
          collabs := data.value;
        }
        isFetching := false;
      }
    }

    /**
     * An awareness update: a newest roles token that is non-empty and new
     * is remembered and (re)arms the debounced refetch.
     */
    method OnRolesUpdate(aw: Awareness.Awareness)
      requires Valid()
      modifies this
      ensures Valid()
      ensures var newest := Awareness.NewestRoles(aw);
        var changed := Truthy(newest) && newest != old(lastToken);
        && lastToken == (if changed then newest else old(lastToken))
        && refetchScheduled == (changed || old(refetchScheduled))
      ensures collabs == old(collabs) && current == old(current) && nextTicket == old(nextTicket)
      ensures pendingIds == old(pendingIds) && isFetching == old(isFetching)
      ensures aborted == old(aborted) && bumpsSent == old(bumpsSent)
    {
      var newest := Awareness.ReadNewestRolesToken(aw);
      if Truthy(newest) && newest != lastToken {
        lastToken, refetchScheduled := newest, true;
      }
    }

    /** The debounced timer fires and starts a refetch. */
    method FireRefetchTimer() returns (ticket: Option<nat>)
      requires Valid()
      modifies this
      ensures Valid()
      ensures old(refetchScheduled) <==> ticket.Some?
      ensures ticket.Some? ==>
        && ticket.value == old(nextTicket) && current == ticket && nextTicket == ticket.value + 1 && isFetching
        && aborted == old(aborted) + (if old(current).Some? then {old(current).value} else {})
      ensures ticket.None? ==>
        && current == old(current) && nextTicket == old(nextTicket)
        && isFetching == old(isFetching) && aborted == old(aborted)
      ensures !refetchScheduled
      ensures collabs == old(collabs) && pendingIds == old(pendingIds)
      ensures lastToken == old(lastToken) && bumpsSent == old(bumpsSent)
    {
      if !refetchScheduled {
        return None;
      }
      refetchScheduled := false;
      var t := BeginRefetch();
      ticket := Some(t);
    }

    /**
     * The synchronous part of `setRole`: unless the caller cannot manage,
     * the role is unchanged, the target is the caller or an owner, every
     * entry for the target gets the new role and the target is marked
     * pending.
     */
    method BeginSetRole(u: Collaborator, role: Role, currentUserId: string, canManage: bool) returns (started: bool)
      requires role != Owner
      requires Valid()
      modifies this
      ensures Valid()
      ensures started <==> canManage && u.role != role && u.id != currentUserId && u.role != Owner
      ensures started ==> collabs == WithRole(old(collabs), u.id, role) && pendingIds == SetPending(old(pendingIds), u.id, true)
      ensures !started ==> collabs == old(collabs) && pendingIds == old(pendingIds)
      ensures isFetching == old(isFetching) && bumpsSent == old(bumpsSent)
      ensures current == old(current) && nextTicket == old(nextTicket) && aborted == old(aborted)
      ensures lastToken == old(lastToken) && refetchScheduled == old(refetchScheduled)
    {
      if !canManage || u.role == role || u.id == currentUserId || u.role == Owner {
        return false;
      }
      collabs := WithRole(collabs, u.id, role);
      pendingIds := SetPending(pendingIds, u.id, true);
      started := true;
    }

    /**
     * The role request settles: on success a roles token is broadcast, on
     * failure every entry for the target gets its old role back; either way
     * the target is no longer pending.
     */
    method FinishSetRole(u: Collaborator, ok: bool)
      requires Valid()
      modifies this
      ensures Valid()
      ensures collabs == (if ok then old(collabs) else WithRole(old(collabs), u.id, u.role))
      ensures bumpsSent == (if ok then old(bumpsSent) + 1 else old(bumpsSent))
      ensures pendingIds == SetPending(old(pendingIds), u.id, false)
      ensures isFetching == old(isFetching)
      ensures current == old(current) && nextTicket == old(nextTicket) && aborted == old(aborted)
      ensures lastToken == old(lastToken) && refetchScheduled == old(refetchScheduled)
    {
      if ok {
        bumpsSent := bumpsSent + 1;
      } else {
        collabs := WithRole(collabs, u.id, u.role);
      }
      pendingIds := SetPending(pendingIds, u.id, false);
    }

    /**
     * The synchronous part of `removeUser`: unless the caller cannot manage
     * or does not confirm, every entry for the target leaves the list and
     * the target is marked pending.
     */
    method BeginRemoveUser(u: Collaborator, canManage: bool, confirmed: bool) returns (started: bool)
      requires Valid()
      modifies this
      ensures Valid()
      ensures started <==> canManage && confirmed
      ensures started ==> collabs == Without(old(collabs), u.id) && pendingIds == SetPending(old(pendingIds), u.id, true)
      ensures !started ==> collabs == old(collabs) && pendingIds == old(pendingIds)
      ensures isFetching == old(isFetching) && bumpsSent == old(bumpsSent)
      ensures current == old(current) && nextTicket == old(nextTicket) && aborted == old(aborted)
      ensures lastToken == old(lastToken) && refetchScheduled == old(refetchScheduled)
    {
      if !canManage || !confirmed {
        return false;
      }
      collabs := Without(collabs, u.id);
      pendingIds := SetPending(pendingIds, u.id, true);
      started := true;
    }

    /**
     * The removal request settles: on success a roles token is broadcast, on
     * failure the user is appended again unless the list already has them;
     * either way the target is no longer pending.
     */
    method FinishRemoveUser(u: Collaborator, ok: bool)
      requires Valid()
      modifies this
      ensures Valid()
      ensures collabs == (if ok then old(collabs) else Reinsert(old(collabs), u))
      ensures bumpsSent == (if ok then old(bumpsSent) + 1 else old(bumpsSent))
      ensures pendingIds == SetPending(old(pendingIds), u.id, false)
      ensures isFetching == old(isFetching)
      ensures current == old(current) && nextTicket == old(nextTicket) && aborted == old(aborted)
      ensures lastToken == old(lastToken) && refetchScheduled == old(refetchScheduled)
    {
      if ok {
        bumpsSent := bumpsSent + 1;
      } else {
        collabs := Reinsert(collabs, u);
      }
      pendingIds := SetPending(pendingIds, u.id, false);
    }
  }

  /** Among the issued requests, only the current one can still write the list. */
  lemma OnlyCurrentFetchWrites(hook: CollaboratorsHook, ticket: nat)
    requires hook.Valid() && ticket < hook.nextTicket && ticket !in hook.aborted
    ensures hook.current == Some(ticket)
  {
  }
}
