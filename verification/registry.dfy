/**
 * The client's room registry: one shared document and one provider per
 * (normalised server URL, slug), reference counted, and destroyed only after
 * a grace delay once nobody holds it.
 */
module Registry {
  import opened Wrappers

  // ---------------------------------------------------------------------------
  // URL normalisation and room keys
  // ---------------------------------------------------------------------------

  /** `s` does not end with '/'. */
  predicate NoTrailingSlash(s: string) {
    |s| == 0 || s[|s| - 1] != '/'
  }

  /** Every character of `s` is '/'. */
  predicate AllSlashes(s: string) {
    forall i :: 0 <= i < |s| ==> s[i] == '/'
  }

  /** `s.replace(/\/+$/, "")`: drop every trailing '/'. */
  function StripTrailingSlashes(s: string): (r: string)
    ensures r <= s
    ensures NoTrailingSlash(r)
    ensures AllSlashes(s[|r|..])
    decreases |s|
  {
    if |s| > 0 && s[|s| - 1] == '/' then
      var r := StripTrailingSlashes(s[..|s| - 1]);
      assert s[|r|..] == s[..|s| - 1][|r|..] + ['/'];
      r
    else s
  }

  /**
   * The three properties of `StripTrailingSlashes` pin the result down: any
   * prefix without a trailing '/' whose removed suffix is all slashes is it.
   */
  lemma {:induction false} StripIsUnique(s: string, t: string)
    requires t <= s && NoTrailingSlash(t) && AllSlashes(s[|t|..])
    ensures t == StripTrailingSlashes(s)
    decreases |s|
  {
    if |t| == |s| {
      assert t == s;
    } else {
      assert s[|s| - 1] == s[|t|..][|s| - 1 - |t|];
      assert t <= s[..|s| - 1];
      assert s[..|s| - 1][|t|..] == s[|t|..|s| - 1];
      StripIsUnique(s[..|s| - 1], t);
    }
  }

  /** Stripping twice strips nothing more. */
  lemma StripIdempotent(s: string)
    ensures StripTrailingSlashes(StripTrailingSlashes(s)) == StripTrailingSlashes(s)
  {
    var r := StripTrailingSlashes(s);
    assert r[|r|..] == [];
    StripIsUnique(r, r);
  }

  /** Extra trailing slashes do not change the normalised form. */
  lemma StripIgnoresExtraSlash(s: string)
    ensures StripTrailingSlashes(s + "/") == StripTrailingSlashes(s)
  {
    var r := StripTrailingSlashes(s);
    assert (s + "/")[|r|..] == s[|r|..] + "/";
    StripIsUnique(s + "/", r);
  }

  /**
   * What the platform URL parser yields for a well-formed URL, as the parts
   * its serialiser concatenates: `head` is the scheme with the authority,
   * `search` and `hash` include their leading '?' and '#' (empty when
   * absent), `special` marks the schemes (ws, wss, http, ...) whose empty
   * path serialises as "/".
   */
  datatype Url = Url(head: string, pathname: string, search: string, hash: string, special: bool)

  /** The serialised form of a parsed URL. */
  function Href(u: Url): string {
    u.head + (if u.special && u.pathname == "" then "/" else u.pathname) + u.search + u.hash
  }

  /**
   * `normalizeWsUrl`: `parsed` is what the URL parser returns for `raw`, or
   * `None` when it throws. A parsed URL loses its query and fragment and the
   * trailing slashes of its path; an unparsable string only loses its
   * trailing slashes.
   */
  function NormalizeWsUrl(raw: string, parsed: Option<Url>): (r: string)
    ensures parsed.None? ==> r <= raw && NoTrailingSlash(r) && AllSlashes(raw[|r|..])
    ensures parsed.Some? ==> parsed.value.head <= r
  {
    match parsed
    case None => StripTrailingSlashes(raw)
    case Some(u) => Href(u.(search := "", hash := "", pathname := StripTrailingSlashes(u.pathname)))
  }

  /** The identity of a parsed URL does not depend on its query or fragment. */
  lemma NormalizeIgnoresQueryAndHash(raw: string, u: Url, search: string, hash: string)
    ensures NormalizeWsUrl(raw, Some(u)) == NormalizeWsUrl(raw, Some(u.(search := search, hash := hash)))
  {
  }

  /** The normalised form of an unparsable string is a fixed point. */
  lemma NormalizeFallbackIdempotent(raw: string)
    ensures NormalizeWsUrl(NormalizeWsUrl(raw, None), None) == NormalizeWsUrl(raw, None)
  {
    StripIdempotent(raw);
  }

  /** `roomKey`: the normalised URL, "::", then the slug. */
  function RoomKey(wsUrl: string, parsed: Option<Url>, slug: string): (k: string)
    ensures NormalizeWsUrl(wsUrl, parsed) <= k
    ensures k[|NormalizeWsUrl(wsUrl, parsed)|..] == "::" + slug
  {
    NormalizeWsUrl(wsUrl, parsed) + "::" + slug
  }

  /** The characters after the last ':' of `k` (all of `k` when it has none). */
  function LastSegment(k: string): (r: string)
    ensures |r| <= |k| && r == k[|k| - |r|..] && ':' !in r
    decreases |k|
  {
    if |k| == 0 || k[|k| - 1] == ':' then ""
    else LastSegment(k[..|k| - 1]) + [k[|k| - 1]]
  }

  /** A segment free of ':' is recovered after a ':' separator. */
  lemma {:induction false} LastSegmentAfterColon(p: string, s: string)
    requires ':' !in s
    ensures LastSegment(p + ":" + s) == s
    decreases |s|
  {
    if |s| > 0 {
      var q := s[..|s| - 1];
      assert (p + ":" + s)[..|p + ":" + s| - 1] == p + ":" + q;
      LastSegmentAfterColon(p, q);
      assert q + [s[|s| - 1]] == s;
    }
  }

  /**
   * Slugs never contain ':' (they are drawn from an alphabet of letters,
   * digits, '_' and '-'), and then a room key determines both the URL and the
   * slug it was built from.
   */
  lemma RoomKeyInjective(n1: string, s1: string, n2: string, s2: string)
    requires ':' !in s1 && ':' !in s2
    requires n1 + "::" + s1 == n2 + "::" + s2
    ensures n1 == n2 && s1 == s2
  {
    var k := n1 + "::" + s1;
    assert k == (n1 + ":") + ":" + s1;
    assert k == (n2 + ":") + ":" + s2;
    LastSegmentAfterColon(n1 + ":", s1);
    LastSegmentAfterColon(n2 + ":", s2);
    assert n1 == k[..|n1|] == n2;
  }

  // ---------------------------------------------------------------------------
  // The registry
  // ---------------------------------------------------------------------------

  datatype LocalUser = LocalUser(id: string, name: string, color: Option<string>)

  /** A provider object: its identity, the URL it connects to and the room name. */
  datatype Provider = Provider(handle: nat, url: string, name: string)

  /** `RoomEntry`; the shared document is represented by its object identity. */
  datatype RoomEntry = RoomEntry(ydoc: nat, provider: Provider, refs: int,
                                 disposeTimer: Option<nat>, localUser: Option<LocalUser>, key: string)

  /** What `acquireProvider` hands back. */
  datatype Acquired = Acquired(provider: Provider, ydoc: nat, key: string)

  /** Each entry is filed under its own key, which names its provider's URL and room. */
  predicate EntriesKeyed(rooms: map<string, RoomEntry>) {
    forall k :: k in rooms ==>
      rooms[k].key == k && k == rooms[k].provider.url + "::" + rooms[k].provider.name
  }

  /** Pending dispose timers are exactly the entries' `disposeTimer` slots, and only unreferenced rooms have one. */
  predicate TimersMatch(rooms: map<string, RoomEntry>, timers: map<nat, string>, nextTimer: nat) {
    && (forall k :: k in rooms && rooms[k].disposeTimer.Some? ==>
          rooms[k].refs <= 0 && rooms[k].disposeTimer.value in timers && timers[rooms[k].disposeTimer.value] == k)
    && (forall h {:trigger timers[h]} :: h in timers ==>
          h < nextTimer && timers[h] in rooms && rooms[timers[h]].disposeTimer == Some(h))
  }

  /** Object identities handed out so far are below the allocation counter. */
  predicate HandlesBelow(rooms: map<string, RoomEntry>, nextObject: nat) {
    forall k :: k in rooms ==> rooms[k].ydoc < nextObject && rooms[k].provider.handle < nextObject
  }

  /** Whether releasing `e` arms its dispose timer: no reference left and none pending. */
  predicate ArmsDispose(e: RoomEntry) {
    e.refs - 1 <= 0 && e.disposeTimer.None?
  }

  /** `e` after one release; `h` is the handle a newly armed timer gets. */
  function Released(e: RoomEntry, h: nat): RoomEntry {
    e.(refs := e.refs - 1, disposeTimer := if ArmsDispose(e) then Some(h) else e.disposeTimer)
  }

  /** `e` after one acquire: one more reference and no pending dispose. */
  function Reacquired(e: RoomEntry): RoomEntry {
    e.(refs := e.refs + 1, disposeTimer := None)
  }

  /** The handles of the timers an acquire of `e` cancels. */
  function Cancelled(e: RoomEntry): set<nat> {
    if e.disposeTimer.Some? then {e.disposeTimer.value} else {}
  }

  /** A room is created with no dispose pending. */
  lemma CreateKeepsTimers(rooms: map<string, RoomEntry>, timers: map<nat, string>, nextTimer: nat,
                          key: string, e: RoomEntry)
    requires TimersMatch(rooms, timers, nextTimer)
    requires key !in rooms && e.disposeTimer.None?
    ensures TimersMatch(rooms[key := e], timers, nextTimer)
  {
    var r := rooms[key := e];
    forall h | h in timers
      ensures timers[h] in r && r[timers[h]].disposeTimer == Some(h)
    {
      assert timers[h] in rooms && timers[h] != key;
    }
  }

  /** Re-acquiring a room takes a reference and clears its pending dispose. */
  lemma AcquireKeepsTimers(rooms: map<string, RoomEntry>, timers: map<nat, string>, nextTimer: nat, key: string)
    requires TimersMatch(rooms, timers, nextTimer) && key in rooms
    ensures TimersMatch(rooms[key := Reacquired(rooms[key])], timers - Cancelled(rooms[key]), nextTimer)
  {
    var t := timers - Cancelled(rooms[key]);
    forall h | h in t
      ensures timers[h] != key
    {
      assert rooms[timers[h]].disposeTimer == Some(h);
    }
  }

  /** Dropping a reference, and arming the dispose timer when none is left and none is pending. */
  lemma ReleaseKeepsTimers(rooms: map<string, RoomEntry>, timers: map<nat, string>, nextTimer: nat, key: string)
    requires TimersMatch(rooms, timers, nextTimer) && key in rooms
    ensures var arm := ArmsDispose(rooms[key]);
      TimersMatch(rooms[key := Released(rooms[key], nextTimer)],
                  if arm then timers[nextTimer := key] else timers,
                  if arm then nextTimer + 1 else nextTimer)
  {
    if ArmsDispose(rooms[key]) {
      var r := rooms[key := Released(rooms[key], nextTimer)];
      var t := timers[nextTimer := key];
      forall h | h in timers
        ensures timers[h] != key
      {
        assert rooms[timers[h]].disposeTimer == Some(h);
      }
      assert TimersMatch(r, t, nextTimer + 1);
    }
  }

  /** Firing a pending timer deletes exactly its room. */
  lemma FireKeepsTimers(rooms: map<string, RoomEntry>, timers: map<nat, string>, nextTimer: nat, h: nat)
    requires TimersMatch(rooms, timers, nextTimer) && h in timers
    ensures TimersMatch(rooms - {timers[h]}, timers - {h}, nextTimer)
  {
    var key := timers[h];
    forall h' | h' in timers - {h}
      ensures timers[h'] != key
    {
      assert rooms[timers[h']].disposeTimer == Some(h');
    }
  }

  class RoomRegistry {
    /** The module-level `rooms` map. */
    var rooms: map<string, RoomEntry>
    /** Pending dispose timers: handle to the key they will delete. */
    var timers: map<nat, string>
    /** Next `setTimeout` handle; handles are never reused. */
    var nextTimer: nat
    /** Next object identity for a new document or provider. */
    var nextObject: nat

    ghost predicate Valid()
      reads this
    {
      EntriesKeyed(rooms) && TimersMatch(rooms, timers, nextTimer) && HandlesBelow(rooms, nextObject)
    }

    constructor ()
      ensures Valid()
      ensures rooms == map[] && timers == map[]
    {
      rooms, timers, nextTimer, nextObject := map[], map[], 0, 0;
    }

    /**
     * `acquireProvider`: create the room if it is new (fresh document and
     * provider, no references), take one reference, cancel a pending dispose.
     */
    method AcquireProvider(slug: string, wsUrl: string, parsed: Option<Url>) returns (r: Acquired)
      requires Valid()
      modifies this
      ensures Valid()
      ensures r.key == RoomKey(wsUrl, parsed, slug) && r.key in rooms
      ensures r.key in old(rooms) ==>
        && r.provider == old(rooms)[r.key].provider && r.ydoc == old(rooms)[r.key].ydoc
        && rooms[r.key] == Reacquired(old(rooms)[r.key])
        && timers == old(timers) - Cancelled(old(rooms)[r.key])
      ensures r.key !in old(rooms) ==>
        && r.provider == Provider(old(nextObject) + 1, NormalizeWsUrl(wsUrl, parsed), slug)
        && r.ydoc == old(nextObject)
        && rooms[r.key] == RoomEntry(r.ydoc, r.provider, 1, None, None, r.key)
        && timers == old(timers)
      ensures rooms == old(rooms)[r.key := rooms[r.key]]
      ensures nextTimer == old(nextTimer)
    {
      var key := RoomKey(wsUrl, parsed, slug);
      if key !in rooms {
        var ydoc := nextObject;
        var provider := Provider(nextObject + 1, NormalizeWsUrl(wsUrl, parsed), slug);
        CreateKeepsTimers(rooms, timers, nextTimer, key, RoomEntry(ydoc, provider, 1, None, None, key));
        rooms, nextObject := rooms[key := RoomEntry(ydoc, provider, 1, None, None, key)], nextObject + 2;
        return Acquired(provider, ydoc, key);
      }
      var entry := rooms[key];
      AcquireKeepsTimers(rooms, timers, nextTimer, key);
      rooms, timers := rooms[key := Reacquired(entry)], timers - Cancelled(entry);
      r := Acquired(entry.provider, entry.ydoc, key);
    }

    /** `setLocalUser`: remember the local user on an existing room; nothing for an absent one. */
    method SetLocalUser(slug: string, wsUrl: string, parsed: Option<Url>, user: LocalUser)
      requires Valid()
      modifies this
      ensures Valid()
      ensures var key := RoomKey(wsUrl, parsed, slug);
        rooms == if key in old(rooms) then old(rooms)[key := old(rooms)[key].(localUser := Some(user))] else old(rooms)
      ensures timers == old(timers) && nextTimer == old(nextTimer)
    {
      var key := RoomKey(wsUrl, parsed, slug);
      if key in rooms {
        rooms := rooms[key := rooms[key].(localUser := Some(user))];
      }
    }

    /**
     * `releaseProvider`: drop one reference (without clamping at zero) and,
     * when none remain and no dispose is pending, arm the dispose timer.
     * An unknown key is ignored.
     */
    method ReleaseProvider(key: string)
      requires Valid()
      modifies this
      ensures Valid()
      ensures key !in old(rooms) ==> rooms == old(rooms) && timers == old(timers) && nextTimer == old(nextTimer)
      ensures key in old(rooms) ==>
        var arm := ArmsDispose(old(rooms)[key]);
        && rooms == old(rooms)[key := Released(old(rooms)[key], old(nextTimer))]
        && timers == (if arm then old(timers)[old(nextTimer) := key] else old(timers))
        && nextTimer == (if arm then old(nextTimer) + 1 else old(nextTimer))
    {
      if key !in rooms {
        return;
      }
      var entry := rooms[key];
      ReleaseKeepsTimers(rooms, timers, nextTimer, key);
      if ArmsDispose(entry) {
        rooms, timers, nextTimer := rooms[key := Released(entry, nextTimer)], timers[nextTimer := key], nextTimer + 1;
      } else {
        rooms := rooms[key := Released(entry, nextTimer)];
      }
    }

    /**
     * The dispose timer `h` fires: its room (which has no references left)
     * is destroyed and removed; every other room is untouched. A cleared
     * timer never fires.
     */
    method FireDisposeTimer(h: nat)
      requires Valid()
      modifies this
      ensures Valid()
      ensures h !in old(timers) ==> rooms == old(rooms) && timers == old(timers)
      ensures h in old(timers) ==>
        && old(timers)[h] in old(rooms) && old(rooms)[old(timers)[h]].refs <= 0
        && rooms == old(rooms) - {old(timers)[h]}
        && timers == old(timers) - {h}
      ensures nextTimer == old(nextTimer)
    {
      if h !in timers {
        return;
      }
      var key := timers[h];
      FireKeepsTimers(rooms, timers, nextTimer, h);
      rooms, timers := rooms - {key}, timers - {h};
    }
  }

  /** A key never has two pending dispose timers. */
  lemma AtMostOneDisposeTimer(reg: RoomRegistry, h1: nat, h2: nat)
    requires reg.Valid()
    requires h1 in reg.timers && h2 in reg.timers && reg.timers[h1] == reg.timers[h2]
    ensures h1 == h2
  {
    assert reg.rooms[reg.timers[h1]].disposeTimer == Some(h1);
    assert reg.rooms[reg.timers[h2]].disposeTimer == Some(h2);
  }

  /** The provider of the room acquired for `slug` is connected to `slug`'s room. */
  lemma AcquiredProviderServesSlug(reg: RoomRegistry, wsUrl: string, parsed: Option<Url>, slug: string)
    requires reg.Valid()
    requires ':' !in slug
    requires RoomKey(wsUrl, parsed, slug) in reg.rooms
    requires ':' !in reg.rooms[RoomKey(wsUrl, parsed, slug)].provider.name
    ensures reg.rooms[RoomKey(wsUrl, parsed, slug)].provider.name == slug
    ensures reg.rooms[RoomKey(wsUrl, parsed, slug)].provider.url == NormalizeWsUrl(wsUrl, parsed)
  {
    var p := reg.rooms[RoomKey(wsUrl, parsed, slug)].provider;
    RoomKeyInjective(p.url, p.name, NormalizeWsUrl(wsUrl, parsed), slug);
  }
}
