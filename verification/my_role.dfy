/**
 * The current user's role in a document, kept fresh by refetching it from
 * the server: on mount, and whenever a peer broadcasts a newer "roles
 * changed" token. Fetches are throttled and never overlap.
 */
module MyRole {
  import opened Wrappers
  import opened Js
  import opened CollabTypes
  import Awareness

  /** The caller's access to the document: a collaborator role, or none at all. */
  datatype Access = Has(role: Role) | NoAccess

  /**
   * `fetchMyRole`: `NoAccess` on 403 or 404, null on any other failure
   * status, otherwise the role named in the body, "none" among them (null
   * when the body has none or does not parse). The my-role route answers a
   * revoked caller with 200 and the role "none", which arrives here as
   * `bodyRole == Some(NoAccess)`.
   */
  function FetchMyRole(status: int, bodyRole: Option<Access>): (r: Option<Access>)
    ensures r == Some(NoAccess) <==>
      status == 403 || status == 404 || (200 <= status < 300 && bodyRole == Some(NoAccess))
    ensures r.Some? && r.value.Has? <==> 200 <= status < 300 && bodyRole.Some? && bodyRole.value.Has?
    ensures r.None? <==> status != 403 && status != 404 && (!(200 <= status < 300) || bodyRole.None?)
    ensures 200 <= status < 300 ==> r == bodyRole
  {
    if status == 403 || status == 404 then Some(NoAccess)
    else if !(200 <= status < 300) then None
    else bodyRole
  }

  /**
   * How a fetch answer changes the role: "none" revokes, a role is adopted
   * when it differs, null leaves the role alone.
   */
  function Adopt(current: Access, next: Option<Access>): (r: Access)
    ensures next.Some? ==> r == next.value
    ensures next.None? ==> r == current
  {
    if next == Some(NoAccess) then (if current != NoAccess then NoAccess else current)
    else if next.Some? && next.value != current then next.value
    else current
  }

  /** `canEdit`: owners and editors may edit; viewers and revoked users may not. */
  predicate CanEdit(a: Access): (b: bool)
    ensures b <==> a.Has? && a.role != Viewer
  {
    match a
    case NoAccess => false
    case Has(role) => role == Owner || role == Editor
  }

  /** A revoked user cannot edit, and a failed fetch leaves editing rights as they were. */
  lemma AdoptAndEditing(current: Access, next: Option<Access>)
    ensures next == Some(NoAccess) ==> !CanEdit(Adopt(current, next))
    ensures next.None? ==> CanEdit(Adopt(current, next)) == CanEdit(current)
    ensures next.Some? && next.value.Has? ==>
      (CanEdit(Adopt(current, next)) <==> next.value.role != Viewer)
  {
  }

  /** `String(st.rolesBump)` unless the field is null or undefined. */
  function BumpToken(st: Awareness.PeerState): (r: Option<string>)
    ensures r.None? <==> st.rolesBump.Nullish?
  {
    if st.rolesBump.Nullish? then None else Some(JsToString(st.rolesBump))
  }

  function BumpTokens(states: seq<Awareness.PeerState>): (r: seq<Option<string>>)
    ensures |r| == |states| && forall i :: 0 <= i < |states| ==> r[i] == BumpToken(states[i])
  {
    seq(|states|, i requires 0 <= i < |states| => BumpToken(states[i]))
  }

  /** The newest bump token of an awareness object; null without one. */
  function NewestBump(aw: Awareness.Awareness): Option<string> {
    if aw.None? then None else Awareness.NewestOf(BumpTokens(aw.value))
  }

  /**
   * `readNewestBumpToken`: the greatest non-empty stringified `rolesBump`
   * of any state; null without states or without such a token.
   */
  method ReadNewestBumpToken(aw: Awareness.Awareness) returns (newest: Option<string>)
    ensures newest == NewestBump(aw)
    ensures aw.None? ==> newest.None?
    ensures aw.Some? ==>
      && (newest.None? <==> forall i :: 0 <= i < |aw.value| ==> !Truthy(BumpToken(aw.value[i])))
      && (newest.Some? ==> newest.value != "")
      && (newest.Some? ==> exists i :: 0 <= i < |aw.value| && BumpToken(aw.value[i]) == newest)
      && (newest.Some? ==> forall i :: 0 <= i < |aw.value| && Truthy(BumpToken(aw.value[i])) ==>
            !Less(newest.value, BumpToken(aw.value[i]).value))
  {
    if aw.None? {
      return None;
    }
    var tokens := BumpTokens(aw.value);
    newest := Awareness.Newest(tokens);
    Awareness.NewestOfIsGreatest(tokens);
  }

  class RoleTracker {
    var role: Access
    var inFlight: bool
    /** When the last fetch started; 0 before the first. */
    var lastFetchAt: int
    /** The last bump token that triggered a fetch. */
    var lastToken: Option<string>
    const minIntervalMs: int

    constructor (initialRole: Role, minIntervalMs: int)
      ensures role == Has(initialRole) && !inFlight && lastFetchAt == 0 && lastToken.None?
      ensures this.minIntervalMs == minIntervalMs
    {
      role, inFlight, lastFetchAt, lastToken := Has(initialRole), false, 0, None;
      this.minIntervalMs := minIntervalMs;
    }

    /** A new `initialRole` from the page replaces the role. */
    method ResetRole(initialRole: Role)
      modifies this
      ensures role == Has(initialRole)
      ensures inFlight == old(inFlight) && lastFetchAt == old(lastFetchAt) && lastToken == old(lastToken)
    {
      role := Has(initialRole);
    }

    /**
     * The synchronous part of `refetch` at time `now`: a fetch starts only
     * when none is in flight and, unless forced, the last one started at
     * least `minIntervalMs` ago.
     */
    method Refetch(now: int, force: bool) returns (started: bool)
      modifies this
      ensures started <==> !old(inFlight) && (force || now - old(lastFetchAt) >= minIntervalMs)
      ensures started ==> inFlight && lastFetchAt == now
      ensures !started ==> inFlight == old(inFlight) && lastFetchAt == old(lastFetchAt)
      ensures role == old(role) && lastToken == old(lastToken)
    {
      if inFlight {
        return false;
      }
      if !force && now - lastFetchAt < minIntervalMs {
        return false;
      }
      inFlight, lastFetchAt := true, now;
      started := true;
    }

    /** The fetch resolves with `next` (null when it failed); in-flight clears whatever the answer. */
    method FinishFetch(next: Option<Access>)
      modifies this
      ensures role == Adopt(old(role), next)
      ensures !inFlight
      ensures lastFetchAt == old(lastFetchAt) && lastToken == old(lastToken)
    {
      role := Adopt(role, next);
      inFlight := false;
    }

    /**
     * Subscribing to the awareness object: remember its current newest
     * token (when it can be read) and force a fetch.
     */
    method Attach(aw: Awareness.Awareness, now: int) returns (started: bool)
      modifies this
      ensures lastToken == (if aw.None? then old(lastToken) else NewestBump(aw))
      ensures started <==> !old(inFlight)
      ensures started ==> inFlight && lastFetchAt == now
      ensures !started ==> inFlight == old(inFlight) && lastFetchAt == old(lastFetchAt)
      ensures role == old(role)
    {
      if aw.Some? {
        lastToken := ReadNewestBumpToken(aw);
      }
      started := Refetch(now, true);
    }

    /**
     * An awareness update: a newest token that is non-empty and differs from
     * the last one seen is remembered and forces a fetch; anything else is
     * ignored.
     */
    method OnBumpUpdate(aw: Awareness.Awareness, now: int) returns (started: bool)
      modifies this
      ensures var newest := NewestBump(aw);
        var changed := Truthy(newest) && newest != old(lastToken);
        && lastToken == (if changed then newest else old(lastToken))
        && (started <==> changed && !old(inFlight))
      ensures started ==> inFlight && lastFetchAt == now
      ensures !started ==> inFlight == old(inFlight) && lastFetchAt == old(lastFetchAt)
      ensures role == old(role)
    {
      var newest := ReadNewestBumpToken(aw);
      if Truthy(newest) && newest != lastToken {
        lastToken := newest;
        started := Refetch(now, true);
      } else {
        started := false;
      }
    }
  }
}
