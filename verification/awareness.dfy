/**
 * Readers over the awareness states of a room: which users are online, and
 * the newest "roles changed" token any peer has broadcast.
 */
module Awareness {
  import opened Wrappers
  import opened Js

  /**
   * One peer's awareness state, reduced to the fields the readers look at.
   * A state that is itself null, or has no `user` object, has `userDotId`
   * `Nullish`.
   */
  datatype PeerState = PeerState(userDotId: JsValue, userId: JsValue, rolesBump: JsValue)

  /**
   * The awareness object: `None` when it is absent or has no `getStates`,
   * otherwise the values of `getStates()` in iteration order.
   */
  type Awareness = Option<seq<PeerState>>

  // ---------------------------------------------------------------------------
  // Online users
  // ---------------------------------------------------------------------------

  /** `s?.user?.id ?? s?.userId`, stringified when it is not null or undefined. */
  function OnlineId(st: PeerState): (r: Option<string>)
    ensures r.None? <==> st.userDotId.Nullish? && st.userId.Nullish?
    ensures !st.userDotId.Nullish? ==> r == Some(JsToString(st.userDotId))
  {
    if !st.userDotId.Nullish? then Some(JsToString(st.userDotId))
    else if !st.userId.Nullish? then Some(JsToString(st.userId))
    else None
  }

  /** `readOnlineIdsFromAwareness`: the set of ids of every state that carries one. */
  method ReadOnlineIdsFromAwareness(aw: Awareness) returns (ids: set<string>)
    ensures aw.None? ==> ids == {}
    ensures aw.Some? ==> forall id ::
      id in ids <==> exists i :: 0 <= i < |aw.value| && OnlineId(aw.value[i]) == Some(id)
  {
    ids := {};
    if aw.None? {
      return;
    }
    var states := aw.value;
    var i := 0;
    while i < |states|
      invariant 0 <= i <= |states|
      invariant forall id :: id in ids <==> exists j :: 0 <= j < i && OnlineId(states[j]) == Some(id)
    {
      var id := OnlineId(states[i]);
      if id.Some? {
        ids := ids + {id.value};
      }
      i := i + 1;
    }
  }

  // ---------------------------------------------------------------------------
  // Newest token
  // ---------------------------------------------------------------------------

  /**
   * One step of the running maximum both token readers share: a truthy
   * candidate replaces the current value when that is falsy or strictly
   * smaller.
   */
  function NewestStep(newest: Option<string>, t: Option<string>): (r: Option<string>)
    ensures r == newest || r == t
    ensures Truthy(t) ==> Truthy(r) && !Less(r.value, t.value)
    ensures Truthy(newest) ==> Truthy(r) && !Less(r.value, newest.value)
    ensures !Truthy(t) ==> r == newest
  {
    var n, v := if newest.Some? then newest.value else "", if t.Some? then t.value else "";
    LessIrreflexive(n);
    LessIrreflexive(v);
    LessAsymmetric(n, v);
    if Truthy(t) && (!Truthy(newest) || Less(newest.value, t.value)) then t else newest
  }

  /** The running maximum over `tokens`, folded from the first to the last. */
  function NewestOf(tokens: seq<Option<string>>): Option<string>
    decreases |tokens|
  {
    if |tokens| == 0 then None
    else NewestStep(NewestOf(tokens[..|tokens| - 1]), tokens[|tokens| - 1])
  }

  /**
   * The running maximum is null exactly when no candidate is truthy, and
   * otherwise one of the candidates that no truthy candidate exceeds.
   */
  lemma {:induction false} NewestOfIsGreatest(tokens: seq<Option<string>>)
    ensures NewestOf(tokens).None? <==> forall i :: 0 <= i < |tokens| ==> !Truthy(tokens[i])
    ensures NewestOf(tokens).Some? ==> NewestOf(tokens).value != ""
    ensures NewestOf(tokens).Some? ==> exists i :: 0 <= i < |tokens| && tokens[i] == NewestOf(tokens)
    ensures NewestOf(tokens).Some? ==>
      forall i :: 0 <= i < |tokens| && Truthy(tokens[i]) ==> !Less(NewestOf(tokens).value, tokens[i].value)
    decreases |tokens|
  {
    if |tokens| > 0 {
      var init := tokens[..|tokens| - 1];
      var t := tokens[|tokens| - 1];
      var prev := NewestOf(init);
      NewestOfIsGreatest(init);
      assert forall i :: 0 <= i < |init| ==> init[i] == tokens[i];
      if Truthy(t) && (!Truthy(prev) || Less(prev.value, t.value)) {
        LessIrreflexive(t.value);
        forall i | 0 <= i < |init| && Truthy(init[i])
          ensures !Less(t.value, init[i].value)
        {
          if Less(t.value, init[i].value) {
            LessTransitive(prev.value, t.value, init[i].value);
          }
        }
      }
    }
  }

  /** The loop that computes `NewestOf`. */
  method Newest(tokens: seq<Option<string>>) returns (newest: Option<string>)
    ensures newest == NewestOf(tokens)
  {
    newest := None;
    var i := 0;
    while i < |tokens|
      invariant 0 <= i <= |tokens|
      invariant newest == NewestOf(tokens[..i])
    {
      assert tokens[..i + 1][..i] == tokens[..i];
      newest := NewestStep(newest, tokens[i]);
      i := i + 1;
    }
    assert tokens[..i] == tokens;
  }

  /** `typeof st?.rolesBump === "string" ? st.rolesBump : null`. */
  function RolesToken(st: PeerState): (r: Option<string>)
    ensures r.Some? <==> st.rolesBump.Str?
  {
    if st.rolesBump.Str? then Some(st.rolesBump.s) else None
  }

  /** The candidate of each state, in iteration order. */
  function RolesTokens(states: seq<PeerState>): (r: seq<Option<string>>)
    ensures |r| == |states| && forall i :: 0 <= i < |states| ==> r[i] == RolesToken(states[i])
  {
    seq(|states|, i requires 0 <= i < |states| => RolesToken(states[i]))
  }

  /** The newest roles token of an awareness object; null without one. */
  function NewestRoles(aw: Awareness): Option<string> {
    if aw.None? then None else NewestOf(RolesTokens(aw.value))
  }

  /**
   * `readNewestRolesToken`: null without states or without any non-empty
   * string token; otherwise a peer's string token that no other string
   * token exceeds.
   */
  method ReadNewestRolesToken(aw: Awareness) returns (newest: Option<string>)
    ensures newest == NewestRoles(aw)
    ensures aw.None? ==> newest.None?
    ensures aw.Some? ==>
      && (newest.None? <==> forall i :: 0 <= i < |aw.value| ==> !Truthy(RolesToken(aw.value[i])))
      && (newest.Some? ==> newest.value != "")
      && (newest.Some? ==> exists i :: 0 <= i < |aw.value| && aw.value[i].rolesBump == Str(newest.value))
      && (newest.Some? ==> forall i :: 0 <= i < |aw.value| && aw.value[i].rolesBump.Str? ==>
            aw.value[i].rolesBump.s == "" || !Less(newest.value, aw.value[i].rolesBump.s))
  {
    if aw.None? {
      return None;
    }
    var states := aw.value;
    var tokens := RolesTokens(states);
    newest := Newest(tokens);
    NewestOfIsGreatest(tokens);
    if newest.Some? {
      var k :| 0 <= k < |tokens| && tokens[k] == newest;
      assert states[k].rolesBump == Str(newest.value);
    }
  }
}
