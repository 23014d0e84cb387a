/**
 * The collaboration server's change pipeline: every change notification is
 * appended to the update log, the document title is projected into the
 * documents table through a per-slug debounce timer, and a per-slug change
 * counter with an idle timer decides when to compact (snapshot, then prune).
 * Timers are explicit: arming adds a pending timer with a fresh handle,
 * `clearTimeout` removes it, and firing is a method of its own.
 */
module CollabServer {
  import opened Wrappers
  import opened Crdt
  import opened HpDatabase

  /** Compact after this many changes since the last successful compaction. */
  const SnapshotEveryUpdates: int := 300
  /** Compact after this much idleness (milliseconds). */
  const SnapshotIdleMs: nat := 60_000
  /** Updates larger than this are reported (and still stored). */
  const MaxUpdateBytes: nat := 512 * 1024
  /** Debounce delay of title writes (milliseconds). */
  const TitleDelayMs: nat := 800

  /** What a pending timer does when it fires. */
  datatype Job = PersistTitle(slug: string, title: string) | IdleSnapshot(slug: string)

  datatype Timer = Timer(job: Job, delayMs: nat)

  /** The bookkeeping record `docStats` keeps per slug. */
  datatype Stats = Stats(updatesSinceSnapshot: int, idleTimerId: Option<nat>)

  /** Which awaited call of a store-then-prune sequence throws, if any. */
  datatype Fault = NoFault | EnsureFails | StoreFails | PruneFails

  /** The writes `ensureDocumentBySlug(slug)` performs on `docs`. */
  function EnsureWrites(docs: map<string, DocRow>, slug: string, freshId: string): seq<Write> {
    if slug in docs then [] else [InsertDocument(slug, freshId)]
  }

  /**
   * The writes of one store-then-prune cycle for `slug`, whose document id is
   * `id`: the snapshot upsert always comes before the delete, and the delete
   * happens only after the upsert succeeded.
   */
  function CycleWrites(docs: map<string, DocRow>, slug: string, freshId: string, id: string, fault: Fault): (w: seq<Write>)
    ensures DeleteUpdates(id) in w ==> fault == NoFault && |w| >= 2 && w[|w| - 2] == UpsertSnapshot(id) && w[|w| - 1] == DeleteUpdates(id)
  {
    if fault == EnsureFails then [] else EnsureWrites(docs, slug, freshId) + SnapshotWrites(id, fault)
  }

  /** The writes of a cycle after the slug resolved to `id`: the upsert unless it threw, then the delete unless it threw. */
  function SnapshotWrites(id: string, fault: Fault): seq<Write> {
    match fault
    case EnsureFails => []
    case StoreFails => []
    case PruneFails => [UpsertSnapshot(id)]
    case NoFault => [UpsertSnapshot(id), DeleteUpdates(id)]
  }

  /** The id `ensureDocumentBySlug(slug)` answers on the documents table `docs`. */
  function ResolvedId(docs: map<string, DocRow>, slug: string, freshId: string): string {
    EnsuredDocs(docs, slug, freshId)[slug].id
  }

  /**
   * The tables after one store-then-prune cycle for `slug` with the live
   * document `doc`: the document row exists unless resolving threw, the
   * snapshot is the encoded document once the store succeeded, and the log
   * of that document is gone only when the prune succeeded too.
   */
  function AfterCycle<S>(e: Engine<S>, t: Tables, slug: string, freshId: string, doc: S, fault: Fault): Tables {
    var id := ResolvedId(t.documents, slug, freshId);
    if fault == EnsureFails then t
    else Tables(EnsuredDocs(t.documents, slug, freshId),
                if fault == StoreFails then t.snapshots else t.snapshots[id := ToJson(e.encode(doc))],
                if fault == NoFault then Without(t.updates, id) else t.updates)
  }

  /** The steps after a successful resolve make up a whole cycle. */
  lemma CycleAfterResolve<S>(e: Engine<S>, t: Tables, slug: string, freshId: string, doc: S, fault: Fault, id: string, j: seq<Write>)
    requires fault != EnsureFails && id == ResolvedId(t.documents, slug, freshId)
    ensures AfterCycle(e, t, slug, freshId, doc, fault)
         == Tables(EnsuredDocs(t.documents, slug, freshId),
                   if fault == StoreFails then t.snapshots else t.snapshots[id := ToJson(e.encode(doc))],
                   if fault == NoFault then Without(t.updates, id) else t.updates)
    ensures j + EnsureWrites(t.documents, slug, freshId) + SnapshotWrites(id, fault) == j + CycleWrites(t.documents, slug, freshId, id, fault)
  {
  }

  /**
   * Once a cycle has stored its snapshot (whether or not the prune then
   * threw), loading the slug's document yields exactly the document stored,
   * whatever is appended to the log afterwards.
   */
  lemma CycleLoad<S>(e: Engine<S>, t: Tables, slug: string, freshId: string, doc: S, fault: Fault, later: seq<UpdateRow>)
    requires fault == PruneFails || fault == NoFault
    ensures var t' := AfterCycle(e, t, slug, freshId, doc, fault);
      && slug in t'.documents
      && Load(e, t'.snapshots, t'.updates + later, t'.documents[slug].id) == Some(e.encode(doc))
  {
    LoadAfterStore(e, t.snapshots, t.updates, ResolvedId(t.documents, slug, freshId), doc, later);
  }

  /** The runtime's timers after the slug's pending title timer is cleared and timer `n` armed with `title`. */
  function ArmTitle(timers: map<nat, Timer>, titleDebouncers: map<string, nat>, slug: string, title: string, delayMs: nat, n: nat): (r: map<nat, Timer>)
    ensures n in r && r[n] == Timer(PersistTitle(slug, title), delayMs)
    ensures slug in titleDebouncers && titleDebouncers[slug] != n ==> titleDebouncers[slug] !in r
    ensures forall h :: h in timers && h != n && !(slug in titleDebouncers && h == titleDebouncers[slug]) ==> h in r && r[h] == timers[h]
    ensures r.Keys <= timers.Keys + {n}
  {
    (timers - (if slug in titleDebouncers then {titleDebouncers[slug]} else {}))[n := Timer(PersistTitle(slug, title), delayMs)]
  }

  /** The runtime's timers after the slug's idle timer is cleared and timer `n` armed in its place. */
  function ArmIdle(timers: map<nat, Timer>, docStats: map<string, Stats>, slug: string, n: nat): (r: map<nat, Timer>)
    ensures n in r && r[n] == Timer(IdleSnapshot(slug), SnapshotIdleMs)
    ensures forall h :: h in IdleHandle(docStats, slug) && h != n ==> h !in r
    ensures forall h :: h in timers && h != n && h !in IdleHandle(docStats, slug) ==> h in r && r[h] == timers[h]
    ensures r.Keys <= timers.Keys + {n}
  {
    (timers - IdleHandle(docStats, slug))[n := Timer(IdleSnapshot(slug), SnapshotIdleMs)]
  }

  lemma UpdateTwice<K, V>(m: map<K, V>, k: K, v1: V, v2: V)
    ensures m[k := v1][k := v2] == m[k := v2]
  {
  }

  /** The idle timer handle recorded for `slug`, as a set of at most one. */
  function IdleHandle(docStats: map<string, Stats>, slug: string): set<nat> {
    if slug in docStats && docStats[slug].idleTimerId.Some? then {docStats[slug].idleTimerId.value} else {}
  }

  /** Every handle ever given out is below `next`, so a new handle is never a stale one. */
  ghost predicate HandlesBelow(timers: map<nat, Timer>, next: nat) {
    forall h {:trigger h in timers} :: h in timers ==> h < next
  }

  /** `titleDebouncers` holds exactly the pending title timers, one per slug. */
  ghost predicate TitleTimersTracked(titleDebouncers: map<string, nat>, timers: map<nat, Timer>) {
    && (forall s {:trigger titleDebouncers[s]} :: s in titleDebouncers ==>
          titleDebouncers[s] in timers && timers[titleDebouncers[s]].job.PersistTitle?
          && timers[titleDebouncers[s]].job.slug == s)
    && (forall h {:trigger timers[h]} :: h in timers && timers[h].job.PersistTitle? ==>
          timers[h].job.slug in titleDebouncers && titleDebouncers[timers[h].job.slug] == h)
  }

  /** Each pending idle timer is the one its slug's stats record, and a recorded one is never reused. */
  ghost predicate IdleTimersTracked(docStats: map<string, Stats>, timers: map<nat, Timer>, next: nat) {
    && (forall s {:trigger docStats[s]} :: s in docStats && docStats[s].idleTimerId.Some? ==>
          docStats[s].idleTimerId.value < next
          && (docStats[s].idleTimerId.value in timers ==> timers[docStats[s].idleTimerId.value].job == IdleSnapshot(s)))
    && (forall h {:trigger timers[h]} :: h in timers && timers[h].job.IdleSnapshot? ==>
          timers[h].job.slug in docStats && docStats[timers[h].job.slug].idleTimerId == Some(h))
  }

  ghost predicate TimersTracked(titleDebouncers: map<string, nat>, docStats: map<string, Stats>, timers: map<nat, Timer>, next: nat) {
    HandlesBelow(timers, next) && TitleTimersTracked(titleDebouncers, timers) && IdleTimersTracked(docStats, timers, next)
  }

  /** Cancelling a slug's title timer and arming a new one keeps the bookkeeping exact. */
  lemma ArmTitleTimer(td: map<string, nat>, ds: map<string, Stats>, tm: map<nat, Timer>, n: nat, slug: string, title: string, d: nat)
    requires TimersTracked(td, ds, tm, n)
    ensures var tm' := ArmTitle(tm, td, slug, title, d, n);
      && TimersTracked(td[slug := n], ds, tm', n + 1)
      && forall h :: h in tm' && tm'[h].job.PersistTitle? && tm'[h].job.slug == slug ==> h == n && tm'[h].job.title == title
  {
  }

  /** A fired title timer leaves the runtime and the slug's entry. */
  lemma FireTitle(td: map<string, nat>, ds: map<string, Stats>, tm: map<nat, Timer>, n: nat, h: nat)
    requires TimersTracked(td, ds, tm, n) && h in tm && tm[h].job.PersistTitle?
    ensures TimersTracked(td - {tm[h].job.slug}, ds, tm - {h}, n)
  {
  }

  /** Cancelling a slug's idle timer and arming a new one keeps the bookkeeping exact. */
  lemma ArmIdleTimer(td: map<string, nat>, ds: map<string, Stats>, tm: map<nat, Timer>, n: nat, slug: string, count: int)
    requires TimersTracked(td, ds, tm, n)
    ensures TimersTracked(td, ds[slug := Stats(count, Some(n))], ArmIdle(tm, ds, slug, n), n + 1)
  {
  }

  /** A fired idle timer leaves the runtime; its handle stays recorded, harmlessly. */
  lemma FireIdle(td: map<string, nat>, ds: map<string, Stats>, tm: map<nat, Timer>, n: nat, h: nat)
    requires TimersTracked(td, ds, tm, n) && h in tm && tm[h].job.IdleSnapshot?
    ensures TimersTracked(td, ds, tm - {h}, n)
  {
  }

  /** Resetting or keeping a counter does not touch the timers. */
  lemma SetCount(td: map<string, nat>, ds: map<string, Stats>, tm: map<nat, Timer>, n: nat, slug: string, count: int)
    requires TimersTracked(td, ds, tm, n) && slug in ds
    ensures TimersTracked(td, ds[slug := ds[slug].(updatesSinceSnapshot := count)], tm, n)
  {
  }

  class Server {
    const db: Database
    var titleDebouncers: map<string, nat>   // slug -> handle of its pending title timer
    var lastTitles: map<string, string>     // slug -> last title written
    var docStats: map<string, Stats>        // slug -> compaction bookkeeping
    var timers: map<nat, Timer>             // the runtime's pending timers
    var nextTimer: nat                      // handles are never reused

    ghost predicate Valid()
      reads this, db
    {
      db.Valid() && TimersTracked(titleDebouncers, docStats, timers, nextTimer)
    }

    /** The number of changes counted for `slug` since its last successful compaction. */
    function Count(slug: string): int
      reads this`docStats
    {
      if slug in docStats then docStats[slug].updatesSinceSnapshot else 0
    }

    constructor (db: Database)
      requires db.Valid()
      ensures Valid() && this.db == db
      ensures titleDebouncers == map[] && lastTitles == map[] && docStats == map[] && timers == map[]
    {
      this.db := db;
      titleDebouncers, lastTitles, docStats, timers, nextTimer := map[], map[], map[], map[], 0;
    }

    /**
     * `scheduleTitlePersist`: nothing happens when `title` is the last title
     * written for `slug`; otherwise the slug's pending title timer, if any, is
     * cancelled and one new timer carrying `title` is armed.
     */
    method ScheduleTitlePersist(slug: string, title: string, delayMs: nat)
      requires Valid()
      modifies this
      ensures Valid()
      ensures lastTitles == old(lastTitles) && docStats == old(docStats)
      ensures slug in lastTitles && lastTitles[slug] == title ==>
        titleDebouncers == old(titleDebouncers) && timers == old(timers) && nextTimer == old(nextTimer)
      ensures !(slug in lastTitles && lastTitles[slug] == title) ==>
        && nextTimer == old(nextTimer) + 1
        && titleDebouncers == old(titleDebouncers)[slug := old(nextTimer)]
        && timers == ArmTitle(old(timers), old(titleDebouncers), slug, title, delayMs, old(nextTimer))
      // last value wins: the one pending title timer of the slug carries `title`
      ensures !(slug in lastTitles && lastTitles[slug] == title) ==>
        forall h :: h in timers && timers[h].job.PersistTitle? && timers[h].job.slug == slug ==>
          h == titleDebouncers[slug] && timers[h].job.title == title
    {
      if slug in lastTitles && lastTitles[slug] == title {
        return;
      }
      ArmTitleTimer(titleDebouncers, docStats, timers, nextTimer, slug, title, delayMs);
      // clearTimeout on the pending title timer, if any, then setTimeout
      var id := nextTimer;
      timers, nextTimer := ArmTitle(timers, titleDebouncers, slug, title, delayMs, id), nextTimer + 1;
      titleDebouncers := titleDebouncers[slug := id];
    }

    /**
     * The title timer `h` fires: the title is written and, only if the write
     * succeeds, remembered as the last title; either way the slug's pending
     * entry is removed.
     */
    method FireTitleTimer(h: nat, writeOk: bool)
      requires Valid() && h in timers && timers[h].job.PersistTitle?
      modifies this, db
      ensures Valid()
      ensures var job := old(timers[h].job);
        && timers == old(timers) - {h}
        && titleDebouncers == old(titleDebouncers) - {job.slug}
        && lastTitles == (if writeOk then old(lastTitles)[job.slug := job.title] else old(lastTitles))
        && docStats == old(docStats) && nextTimer == old(nextTimer)
        && db.Contents() == (if writeOk then old(db.Contents()).(documents := Retitled(old(db.documents), job.slug, job.title))
                             else old(db.Contents()))
        && db.journal == old(db.journal) + (if writeOk then [SetTitle(job.slug, job.title)] else [])
    {
      var job := timers[h].job;
      if writeOk {
        db.UpdateTitleBySlug(job.slug, job.title);
      }
      ForgetTitleTimer(h, writeOk);
    }

    /**
     * The bookkeeping after title timer `h` ran: the timer and the slug's
     * entry go, and a written title is remembered.
     */
    method ForgetTitleTimer(h: nat, writeOk: bool)
      requires TimersTracked(titleDebouncers, docStats, timers, nextTimer) && h in timers && timers[h].job.PersistTitle?
      modifies this`timers, this`titleDebouncers, this`lastTitles
      ensures TimersTracked(titleDebouncers, docStats, timers, nextTimer)
      ensures var job := old(timers[h].job);
        && timers == old(timers) - {h}
        && titleDebouncers == old(titleDebouncers) - {job.slug}
        && lastTitles == (if writeOk then old(lastTitles)[job.slug := job.title] else old(lastTitles))
    {
      var job := timers[h].job;
      FireTitle(titleDebouncers, docStats, timers, nextTimer, h);
      timers := timers - {h};
      if writeOk {
        lastTitles := lastTitles[job.slug := job.title];
      }
      titleDebouncers := titleDebouncers - {job.slug};
    }

    /**
     * One store-then-prune cycle: resolve the slug, store the live document
     * as the snapshot, delete the log. A throwing step ends the cycle; no
     * later step runs.
     */
    method StoreThenPrune<S>(e: Engine<S>, slug: string, doc: S, freshId: string, fault: Fault) returns (ok: bool)
      requires db.Valid()
      requires slug !in db.documents ==> FreshId(db.documents, freshId)
      modifies db
      ensures db.Valid()
      ensures ok <==> fault == NoFault
      ensures db.Contents() == AfterCycle(e, old(db.Contents()), slug, freshId, doc, fault)
      ensures db.journal == old(db.journal)
        + CycleWrites(old(db.documents), slug, freshId, ResolvedId(old(db.documents), slug, freshId), fault)
    {
      if fault == EnsureFails {
        return false;
      }
      ghost var t, j := db.Contents(), db.journal;
      var id := db.EnsureDocumentBySlug(slug, freshId);
      ok := SnapshotThenPrune(e, id, doc, fault);
      CycleAfterResolve(e, t, slug, freshId, doc, fault, id, j);
    }

    /** The steps of a cycle after the slug resolved to the document id `id`. */
    method SnapshotThenPrune<S>(e: Engine<S>, id: string, doc: S, fault: Fault) returns (ok: bool)
      requires db.Valid() && id in db.DocIds() && fault != EnsureFails
      modifies db
      ensures db.Valid()
      ensures ok <==> fault == NoFault
      ensures db.documents == old(db.documents)
      ensures db.docSnapshots == if fault == StoreFails then old(db.docSnapshots) else old(db.docSnapshots)[id := ToJson(e.encode(doc))]
      ensures db.docUpdates == if fault == NoFault then Without(old(db.docUpdates), id) else old(db.docUpdates)
      ensures db.journal == old(db.journal) + SnapshotWrites(id, fault)
    {
      if fault == StoreFails {
        return false;
      }
      var stored := db.StoreSnapshot(e, id, doc);
      if fault == PruneFails {
        return false;
      }
      db.PruneUpdatesBeforeNow(id);
      ok := true;
    }

    /**
     * A compaction of `slug` (idle or threshold): store-then-prune, and reset
     * the slug's counter to 0 only when every step succeeded.
     */
    method Compact<S>(e: Engine<S>, slug: string, doc: S, freshId: string, fault: Fault) returns (ok: bool)
      requires Valid() && slug in docStats
      requires slug !in db.documents ==> FreshId(db.documents, freshId)
      modifies this, db
      ensures Valid()
      ensures ok <==> fault == NoFault
      ensures docStats == if ok then old(docStats)[slug := old(docStats[slug]).(updatesSinceSnapshot := 0)] else old(docStats)
      ensures titleDebouncers == old(titleDebouncers) && lastTitles == old(lastTitles)
      ensures timers == old(timers) && nextTimer == old(nextTimer)
      ensures db.Contents() == AfterCycle(e, old(db.Contents()), slug, freshId, doc, fault)
      ensures db.journal == old(db.journal)
        + CycleWrites(old(db.documents), slug, freshId, ResolvedId(old(db.documents), slug, freshId), fault)
    {
      ok := StoreThenPrune(e, slug, doc, freshId, fault);
      ResetCount(slug, ok);
    }

    /** The counter of `slug` drops to 0 when `reset` holds; nothing else changes. */
    method ResetCount(slug: string, reset: bool)
      requires slug in docStats && TimersTracked(titleDebouncers, docStats, timers, nextTimer)
      modifies this`docStats
      ensures docStats == if reset then old(docStats)[slug := old(docStats[slug]).(updatesSinceSnapshot := 0)] else old(docStats)
      ensures TimersTracked(titleDebouncers, docStats, timers, nextTimer)
    {
      if reset {
        SetCount(titleDebouncers, docStats, timers, nextTimer, slug, 0);
        docStats := docStats[slug := docStats[slug].(updatesSinceSnapshot := 0)];
      }
    }

    /**
     * `markDocChanged`: count the change, replace the slug's idle timer by a
     * new one, and compact at once when the count reaches the threshold.
     */
    method MarkDocChanged<S>(e: Engine<S>, slug: string, doc: S, freshId: string, fault: Fault) returns (thresholdHit: bool)
      requires Valid()
      requires slug !in db.documents ==> FreshId(db.documents, freshId)
      modifies this, db
      ensures Valid()
      ensures thresholdHit == (old(Count(slug)) + 1 >= SnapshotEveryUpdates)
      ensures slug in docStats
      ensures Count(slug) == if thresholdHit && fault == NoFault then 0 else old(Count(slug)) + 1
      ensures docStats[slug].idleTimerId == Some(old(nextTimer))
      ensures docStats == old(docStats)[slug := docStats[slug]]
      ensures nextTimer == old(nextTimer) + 1
      ensures timers == ArmIdle(old(timers), old(docStats), slug, old(nextTimer))
      ensures titleDebouncers == old(titleDebouncers) && lastTitles == old(lastTitles)
      ensures db.Contents() == if thresholdHit then AfterCycle(e, old(db.Contents()), slug, freshId, doc, fault) else old(db.Contents())
      ensures db.journal == old(db.journal)
        + if thresholdHit then CycleWrites(old(db.documents), slug, freshId, ResolvedId(old(db.documents), slug, freshId), fault) else []
    {
      var stats := CountChange(slug);
      thresholdHit := stats.updatesSinceSnapshot >= SnapshotEveryUpdates;
      if thresholdHit {
        var _ := Compact(e, slug, doc, freshId, fault);
        UpdateTwice(old(docStats), slug, stats, docStats[slug]);
      }
    }

    /** The bookkeeping half of `markDocChanged`: count the change and replace the slug's idle timer. */
    method CountChange(slug: string) returns (stats: Stats)
      requires Valid()
      modifies this
      ensures Valid()
      ensures stats == Stats(old(Count(slug)) + 1, Some(old(nextTimer)))
      ensures docStats == old(docStats)[slug := stats]
      ensures nextTimer == old(nextTimer) + 1
      ensures timers == ArmIdle(old(timers), old(docStats), slug, old(nextTimer))
      ensures titleDebouncers == old(titleDebouncers) && lastTitles == old(lastTitles)
    {
      var count := Count(slug) + 1;
      ArmIdleTimer(titleDebouncers, docStats, timers, nextTimer, slug, count);
      // clearTimeout on the previous idle timer, if any, then setTimeout
      var id := nextTimer;
      timers, nextTimer := ArmIdle(timers, docStats, slug, id), nextTimer + 1;
      stats := Stats(count, Some(id));
      docStats := docStats[slug := stats];
    }

    /** The idle timer `h` fires with the live document in state `doc`: compact. */
    method FireIdleTimer<S>(e: Engine<S>, h: nat, doc: S, freshId: string, fault: Fault) returns (ok: bool)
      requires Valid() && h in timers && timers[h].job.IdleSnapshot?
      requires timers[h].job.slug !in db.documents ==> FreshId(db.documents, freshId)
      modifies this, db
      ensures Valid()
      ensures var slug := old(timers[h].job.slug);
        && ok == (fault == NoFault)
        && timers == old(timers) - {h}
        && docStats == old(docStats)[slug := old(docStats[slug]).(updatesSinceSnapshot := if ok then 0 else old(Count(slug)))]
        && titleDebouncers == old(titleDebouncers) && lastTitles == old(lastTitles) && nextTimer == old(nextTimer)
        && db.Contents() == AfterCycle(e, old(db.Contents()), slug, freshId, doc, fault)
        && db.journal == old(db.journal)
             + CycleWrites(old(db.documents), slug, freshId, ResolvedId(old(db.documents), slug, freshId), fault)
    {
      var slug := timers[h].job.slug;
      FireIdle(titleDebouncers, docStats, timers, nextTimer, h);
      timers := timers - {h};
      ok := Compact(e, slug, doc, freshId, fault);
    }

    /** The `fetch` hook: whatever `fetchSnapshotBySlug` answers. */
    method Fetch<S>(e: Engine<S>, slug: string, freshId: string) returns (r: Option<Bytes>)
      requires Valid()
      requires slug !in db.documents ==> FreshId(db.documents, freshId)
      modifies db
      ensures Valid()
      ensures db.documents == EnsuredDocs(old(db.documents), slug, freshId)
      ensures db.docUpdates == old(db.docUpdates) && db.docSnapshots == old(db.docSnapshots)
      ensures r == Load(e, db.docSnapshots, db.docUpdates, db.documents[slug].id)
    {
      r := db.FetchSnapshotBySlug(e, slug, freshId);
    }

    /** The `store` hook: one store-then-prune cycle, without touching the counters. */
    method Store<S>(e: Engine<S>, slug: string, doc: S, freshId: string, fault: Fault) returns (ok: bool)
      requires Valid()
      requires slug !in db.documents ==> FreshId(db.documents, freshId)
      modifies db
      ensures Valid()
      ensures ok <==> fault == NoFault
      ensures db.Contents() == AfterCycle(e, old(db.Contents()), slug, freshId, doc, fault)
      // once the snapshot is stored, a load of the slug gives back exactly `doc`
      ensures fault == PruneFails || fault == NoFault ==>
        && slug in db.documents
        && Load(e, db.docSnapshots, db.docUpdates, db.documents[slug].id) == Some(e.encode(doc))
      ensures db.journal == old(db.journal)
        + CycleWrites(old(db.documents), slug, freshId, ResolvedId(old(db.documents), slug, freshId), fault)
    {
      ghost var t := db.Contents();
      ok := StoreThenPrune(e, slug, doc, freshId, fault);
      if fault == PruneFails || fault == NoFault {
        CycleLoad(e, t, slug, freshId, doc, fault, []);
        assert db.docUpdates + [] == db.docUpdates;
      }
    }

    /**
     * `onChange`: report an oversize update, append it, then (only if the
     * append succeeded) schedule the title when the shared `meta.title` is a
     * string, then count the change. `metaTitle` is `None` when that value is
     * not a string; `appendFails` says the insert threw for an I/O reason.
     * Every failure is caught; nothing after the failing step runs.
     */
    method OnChange<S>(e: Engine<S>, slug: string, doc: S, update: Bytes, metaTitle: Option<string>,
                       freshId: string, appendFails: bool, fault: Fault)
      returns (oversize: bool, appended: bool, thresholdHit: bool)
      requires Valid()
      requires slug !in db.documents ==> FreshId(db.documents, freshId)
      modifies this, db
      ensures Valid()
      ensures oversize == (|update| > MaxUpdateBytes)
      ensures appended == (!appendFails && AppendAccepted(old(db.documents), slug))
      ensures !appended ==>
        && !thresholdHit && docStats == old(docStats) && titleDebouncers == old(titleDebouncers)
        && timers == old(timers) && nextTimer == old(nextTimer)
      ensures appended ==>
        && thresholdHit == (old(Count(slug)) + 1 >= SnapshotEveryUpdates)
        && Count(slug) == (if thresholdHit && fault == NoFault then 0 else old(Count(slug)) + 1)
      ensures lastTitles == old(lastTitles)
      // the tables: the append's rows, then a threshold compaction's cycle
      ensures var docs := if appendFails then old(db.documents) else AppendDocs(old(db.documents), slug, freshId);
              var rows := if appendFails then old(db.docUpdates)
                          else old(db.docUpdates) + AppendRows(old(db.documents), slug, freshId, update);
        db.Contents() == if thresholdHit then AfterCycle(e, Tables(docs, old(db.docSnapshots), rows), slug, freshId, doc, fault)
                         else Tables(docs, old(db.docSnapshots), rows)
      // a new string title is scheduled first, then the idle timer is re-armed
      ensures var titled := appended && metaTitle.Some? && !(slug in lastTitles && lastTitles[slug] == metaTitle.value);
              var n := if titled then old(nextTimer) + 1 else old(nextTimer);
        && titleDebouncers == (if titled then old(titleDebouncers)[slug := old(nextTimer)] else old(titleDebouncers))
        && (appended ==>
              && nextTimer == n + 1
              && slug in docStats && docStats[slug].idleTimerId == Some(n)
              && docStats == old(docStats)[slug := docStats[slug]]
              && timers == ArmIdle(if titled then ArmTitle(old(timers), old(titleDebouncers), slug, metaTitle.value, TitleDelayMs, old(nextTimer))
                                   else old(timers), old(docStats), slug, n))
      // the append's writes come first, then those of a threshold compaction
      ensures var docs := AppendDocs(old(db.documents), slug, freshId);
        db.journal == old(db.journal)
          + (if appendFails then [] else AppendWrites(old(db.documents), slug, freshId))
          + (if thresholdHit then CycleWrites(docs, slug, freshId, ResolvedId(docs, slug, freshId), fault) else [])
    {
      oversize := |update| > MaxUpdateBytes;
      if appendFails {
        return oversize, false, false;
      }
      appended := db.AppendUpdate(slug, update, freshId);
      if appended {
        thresholdHit := TitleThenCount(e, slug, doc, metaTitle, freshId, fault);
      } else {
        thresholdHit := false;
      }
    }

    /** The rest of `onChange` after a successful append: schedule a string title, then count the change. */
    method TitleThenCount<S>(e: Engine<S>, slug: string, doc: S, metaTitle: Option<string>, freshId: string, fault: Fault)
      returns (thresholdHit: bool)
      requires Valid()
      requires slug !in db.documents ==> FreshId(db.documents, freshId)
      modifies this, db
      ensures Valid()
      ensures thresholdHit == (old(Count(slug)) + 1 >= SnapshotEveryUpdates)
      ensures Count(slug) == (if thresholdHit && fault == NoFault then 0 else old(Count(slug)) + 1)
      ensures lastTitles == old(lastTitles)
      ensures db.Contents() == if thresholdHit then AfterCycle(e, old(db.Contents()), slug, freshId, doc, fault) else old(db.Contents())
      ensures db.journal == old(db.journal)
        + (if thresholdHit then CycleWrites(old(db.documents), slug, freshId, ResolvedId(old(db.documents), slug, freshId), fault) else [])
      ensures var titled := metaTitle.Some? && !(slug in lastTitles && lastTitles[slug] == metaTitle.value);
              var n := if titled then old(nextTimer) + 1 else old(nextTimer);
        && titleDebouncers == (if titled then old(titleDebouncers)[slug := old(nextTimer)] else old(titleDebouncers))
        && nextTimer == n + 1
        && slug in docStats && docStats[slug].idleTimerId == Some(n)
        && docStats == old(docStats)[slug := docStats[slug]]
        && timers == ArmIdle(if titled then ArmTitle(old(timers), old(titleDebouncers), slug, metaTitle.value, TitleDelayMs, old(nextTimer))
                             else old(timers), old(docStats), slug, n)
    {
      ghost var titled := metaTitle.Some? && !(slug in lastTitles && lastTitles[slug] == metaTitle.value);
      ghost var timers0, n0 := if titled then ArmTitle(timers, titleDebouncers, slug, metaTitle.value, TitleDelayMs, nextTimer) else timers,
                               if titled then nextTimer + 1 else nextTimer;
      if metaTitle.Some? {
        ScheduleTitlePersist(slug, metaTitle.value, TitleDelayMs);
      }
      assert timers == timers0 && nextTimer == n0;
      assert db.documents == old(db.documents) && db.docUpdates == old(db.docUpdates);
      assert db.docSnapshots == old(db.docSnapshots) && db.journal == old(db.journal);
      assert docStats == old(docStats) && lastTitles == old(lastTitles);
      thresholdHit := MarkDocChanged(e, slug, doc, freshId, fault);
    }
  }

  /** Each slug has at most one pending title timer and at most one pending idle timer. */
  lemma AtMostOneTimerPerSlug(srv: Server, h1: nat, h2: nat)
    requires srv.Valid()
    requires h1 in srv.timers && h2 in srv.timers
    requires srv.timers[h1].job.PersistTitle? == srv.timers[h2].job.PersistTitle?
    requires srv.timers[h1].job.slug == srv.timers[h2].job.slug
    ensures h1 == h2
  {
  }
}
