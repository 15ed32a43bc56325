/**
 * The three LiveView hooks of the offline mode: OfflineSync (connectivity
 * state, pending count, draining when the browser comes back online),
 * OfflineAction (job buttons that queue their action while offline) and
 * OfflineIndicator (the status dot, text and badge).
 *
 * Every hook shares the one OfflineStorage instance of the page.  What a hook
 * pushes to the server (`pushEvent`) is recorded, in order, in an event trace.
 * What the browser reports (`navigator.onLine`) and how each IndexedDB
 * request turns out are parameters.
 */
module SyncHooks {
  import opened Wrappers
  import opened Strings
  import opened OfflineQueue

  /** The events the hooks push to the LiveView, with their payloads. */
  datatype HookEvent =
    | OfflineStatus(online: bool, pendingCount: nat, syncing: bool)  // `syncing: true` is sent by the online handler only
    | UpdateQueued(action: string, jobId: string, pendingCount: nat)
    | SyncComplete(synced: nat, failed: nat)
    | OfflineActionQueued(action: string, jobId: string)
    | ShowToast(message: string, kind: string)

  /** The `[data-pending-badge]` element: whether it carries `hidden`, and its text. */
  datatype Badge = Badge(hidden: bool, text: string)

  /**
   * The badge after a refresh with n pending updates: shown with the count
   * when there is something pending, otherwise hidden with its old text.
   */
  function BadgeAfter(b: Badge, n: nat): (r: Badge)
    ensures r.hidden <==> n == 0
    ensures n > 0 ==> AllDigits(r.text) && DecimalValue(r.text) == n
    ensures n == 0 ==> r.text == b.text
  {
    if n > 0 then
      NatToStringRoundTrip(n);
      Badge(false, NatToString(n))
    else
      Badge(true, b.text)
  }

  /** How each storage request of one drain turns out. */
  datatype SyncEnv = SyncEnv(open: OpenOutcome, listOk: bool, drain: DrainOracle, countOk: bool)

  /** The OfflineSync hook, mounted on the technician dashboard. */
  class OfflineSync {
    const store: OfflineStorage
    var isOnline: bool
    var pendingCount: nat
    /** Whether the hook element holds a `[data-pending-badge]` element. */
    const hasBadge: bool
    var badge: Badge
    var events: seq<HookEvent>

    /**
     * mounted: reads the browser's status, starts at a count of zero and
     * pushes that status at once (the count is refreshed later, when the
     * store is ready; see StorageReady).
     */
    constructor Mounted(store: OfflineStorage, navOnline: bool, hasBadge: bool, badge: Badge)
      ensures this.store == store && this.hasBadge == hasBadge && this.badge == badge
      ensures isOnline == navOnline && pendingCount == 0
      ensures events == [OfflineStatus(navOnline, 0, false)]
    {
      this.store := store;
      this.hasBadge := hasBadge;
      this.badge := badge;
      isOnline := navOnline;
      pendingCount := 0;
      events := [OfflineStatus(navOnline, 0, false)];
    }

    /** updateBadge: applies the badge rule to the current count, if there is a badge. */
    method UpdateBadge()
      modifies this
      ensures badge == if hasBadge then BadgeAfter(old(badge), pendingCount) else old(badge)
      ensures isOnline == old(isOnline) && pendingCount == old(pendingCount) && events == old(events)
    {
      if hasBadge {
        badge := BadgeAfter(badge, pendingCount);
      }
    }

    /**
     * updatePendingCount: reads the store's count into `pendingCount` and
     * refreshes the badge.  A rejected request propagates and changes nothing.
     */
    method UpdatePendingCount(open: OpenOutcome, countOk: bool) returns (r: Result<nat, StoreError>)
      requires store.Valid()
      modifies this, store
      ensures store.Valid()
      ensures store.records == old(store.records) && store.nextId == old(store.nextId)
      ensures store.db == DbAfterInit(old(store.db), open)
      ensures r.Success? <==> DbAfterInit(old(store.db), open).Some? && countOk
      ensures r.Success? ==>
        && r.value == pendingCount == |store.records|
        && badge == if hasBadge then BadgeAfter(old(badge), pendingCount) else old(badge)
      ensures r.Failure? ==> pendingCount == old(pendingCount) && badge == old(badge)
      ensures isOnline == old(isOnline) && events == old(events)
    {
      r := store.GetPendingCount(open, countOk);
      if r.Success? {
        pendingCount := r.value;
        UpdateBadge();
      }
    }

    /** The `init().then(updatePendingCount)` started by mounted, once it settles. */
    method StorageReady(open: OpenOutcome, countOk: bool)
      requires store.Valid()
      modifies this, store
      ensures store.Valid()
      ensures store.records == old(store.records) && store.nextId == old(store.nextId)
      ensures store.db == DbAfterInit(old(store.db), open)
      ensures DbAfterInit(old(store.db), open).Some? && countOk ==>
        && pendingCount == |store.records|
        && badge == if hasBadge then BadgeAfter(old(badge), |store.records|) else old(badge)
      ensures !(DbAfterInit(old(store.db), open).Some? && countOk) ==> pendingCount == old(pendingCount) && badge == old(badge)
      ensures isOnline == old(isOnline) && events == old(events)
    {
      var h := store.Init(open);
      if h.Success? {
        var _ := UpdatePendingCount(open, countOk);
      }
    }

    /**
     * handleOffline: records the offline status and pushes it with the
     * current count; the store is not touched.
     */
    method HandleOffline()
      modifies this
      ensures !isOnline && pendingCount == old(pendingCount) && badge == old(badge)
      ensures events == old(events) + [OfflineStatus(false, old(pendingCount), false)]
    {
      isOnline := false;
      events := events + [OfflineStatus(false, pendingCount, false)];
    }

    /**
     * queueUpdate: stores the update, refreshes the count and reports the
     * queued update with the new count.  A storage error is swallowed:
     * nothing is pushed.
     */
    method QueueUpdate(action: string, jobId: string, data: map<string, string>, timestamp: string,
                       open: OpenOutcome, addOk: bool, countOk: bool)
      requires store.Valid()
      modifies this, store
      ensures store.Valid() && isOnline == old(isOnline)
      ensures store.db == DbAfterInit(old(store.db), open)
      ensures DbAfterInit(old(store.db), open).Some? && addOk ==>
        && store.records == old(store.records) + [PendingUpdate(old(store.nextId), action, jobId, data, timestamp, false)]
        && |store.records| == |old(store.records)| + 1
      ensures !(DbAfterInit(old(store.db), open).Some? && addOk) ==>
        store.records == old(store.records) && events == old(events) && pendingCount == old(pendingCount)
      ensures DbAfterInit(old(store.db), open).Some? && addOk && countOk ==>
        && pendingCount == |store.records|
        && badge == (if hasBadge then BadgeAfter(old(badge), |store.records|) else old(badge))
        && events == old(events) + [UpdateQueued(action, jobId, |store.records|)]
      ensures !(DbAfterInit(old(store.db), open).Some? && addOk && countOk) ==>
        pendingCount == old(pendingCount) && badge == old(badge)
      ensures !countOk ==> events == old(events)
    {
      var added := store.QueueUpdate(action, jobId, data, timestamp, open, addOk);
      if added.Failure? {
        return;
      }
      var counted := UpdatePendingCount(open, countOk);
      if counted.Failure? {
        return;
      }
      events := events + [UpdateQueued(action, jobId, pendingCount)];
    }

    /**
     * syncNow: does nothing and reports zero counts while the browser says
     * it is offline; otherwise drains the queue and refreshes the count,
     * returning the drain's counts.  A rejected request propagates.
     */
    method SyncNow(navOnline: bool, env: SyncEnv) returns (r: Result<SyncCounts, StoreError>, calls: seq<SyncCall>)
      requires store.Valid()
      modifies this, store
      ensures store.Valid() && isOnline == old(isOnline) && events == old(events)
      ensures !navOnline ==>
        && r == Success(SyncCounts(0, 0)) && calls == []
        && store.records == old(store.records) && store.db == old(store.db)
        && pendingCount == old(pendingCount) && badge == old(badge)
      ensures navOnline ==> store.db == DbAfterInit(old(store.db), env.open)
      ensures navOnline && !(DbAfterInit(old(store.db), env.open).Some? && env.listOk) ==>
        && r.Failure? && calls == [] && store.records == old(store.records)
        && pendingCount == old(pendingCount) && badge == old(badge)
      ensures navOnline && DbAfterInit(old(store.db), env.open).Some? && env.listOk ==>
        && calls == Calls(old(store.records), |old(store.records)|)
        && store.records == Kept(old(store.records), |old(store.records)|, env.drain)
        && (r.Success? <==> env.countOk)
        && (env.countOk ==>
              && r.value == DrainCounts(old(store.records), env.drain)
              && pendingCount == |store.records|
              && badge == if hasBadge then BadgeAfter(old(badge), |store.records|) else old(badge))
        && (!env.countOk ==> pendingCount == old(pendingCount) && badge == old(badge))
    {
      if !navOnline {
        return Success(SyncCounts(0, 0)), [];
      }
      r, calls := store.SyncAll(env.open, env.listOk, env.drain);
      if r.Failure? {
        return;
      }
      var counted := UpdatePendingCount(env.open, env.countOk);
      if counted.Failure? {
        r := Failure(counted.error);
      }
    }

    /**
     * handleOnline: records the online status, pushes it flagged as syncing
     * with the count from before the drain, drains, then pushes the drain's
     * counts.  When the drain rejects, no completion is pushed.
     */
    method HandleOnline(navOnline: bool, env: SyncEnv) returns (r: Result<SyncCounts, StoreError>, calls: seq<SyncCall>)
      requires store.Valid()
      modifies this, store
      ensures store.Valid() && isOnline
      ensures r.Success? ==>
        events == old(events) + [OfflineStatus(true, old(pendingCount), true), SyncComplete(r.value.synced, r.value.failed)]
      ensures r.Failure? ==> events == old(events) + [OfflineStatus(true, old(pendingCount), true)]
      ensures !navOnline ==>
        && r == Success(SyncCounts(0, 0)) && calls == []
        && store.records == old(store.records) && store.db == old(store.db)
        && pendingCount == old(pendingCount) && badge == old(badge)
      ensures navOnline ==> store.db == DbAfterInit(old(store.db), env.open)
      ensures navOnline && !(DbAfterInit(old(store.db), env.open).Some? && env.listOk) ==>
        && r.Failure? && calls == [] && store.records == old(store.records)
        && pendingCount == old(pendingCount) && badge == old(badge)
      ensures navOnline && DbAfterInit(old(store.db), env.open).Some? && env.listOk ==>
        && calls == Calls(old(store.records), |old(store.records)|)
        && store.records == Kept(old(store.records), |old(store.records)|, env.drain)
        && (r.Success? <==> env.countOk)
        && (env.countOk ==>
              && r.value == DrainCounts(old(store.records), env.drain)
              && r.value.synced + r.value.failed == |old(store.records)|
              && pendingCount == |store.records|
              && badge == if hasBadge then BadgeAfter(old(badge), |store.records|) else old(badge))
        && (!env.countOk ==> pendingCount == old(pendingCount) && badge == old(badge))
    {
      isOnline := true;
      events := events + [OfflineStatus(true, pendingCount, true)];
      ghost var before := store.records;
      r, calls := SyncNow(navOnline, env);
      if r.Success? {
        if navOnline {
          DrainAccounts(before, |before|, env.drain);
        }
        events := events + [SyncComplete(r.value.synced, r.value.failed)];
      }
    }
  }

  // ---------------------------------------------------------------------------
  // OfflineAction

  /** The object the form entries are copied into, one assignment per entry. */
  function FormDataMap(entries: seq<(string, string)>): map<string, string>
    decreases |entries|
  {
    if |entries| == 0 then map[]
    else FormDataMap(entries[..|entries| - 1])[entries[|entries| - 1].0 := entries[|entries| - 1].1]
  }

  /** The copied object has exactly the entry names as keys. */
  lemma {:induction false} FormDataKeys(entries: seq<(string, string)>, k: string)
    ensures k in FormDataMap(entries) <==> exists i :: 0 <= i < |entries| && entries[i].0 == k
    decreases |entries|
  {
    if |entries| > 0 {
      var init := entries[..|entries| - 1];
      FormDataKeys(init, k);
      if k in FormDataMap(init) {
        var i :| 0 <= i < |init| && init[i].0 == k;
        assert entries[i].0 == k;
      }
      if exists i :: 0 <= i < |entries| && entries[i].0 == k {
        var i :| 0 <= i < |entries| && entries[i].0 == k;
        if i < |init| {
          assert init[i].0 == k;
        }
      }
    }
  }

  /** A name given several times keeps the value of its last entry. */
  lemma {:induction false} FormDataLastWins(entries: seq<(string, string)>, i: nat)
    requires i < |entries|
    requires forall j :: i < j < |entries| ==> entries[j].0 != entries[i].0
    ensures entries[i].0 in FormDataMap(entries) && FormDataMap(entries)[entries[i].0] == entries[i].1
    decreases |entries|
  {
    if i < |entries| - 1 {
      var init := entries[..|entries| - 1];
      assert init[i] == entries[i];
      FormDataLastWins(init, i);
    }
  }

  /** The `for (const [key, value] of formData.entries())` loop. */
  method CollectFormData(entries: seq<(string, string)>) returns (data: map<string, string>)
    ensures data == FormDataMap(entries)
  {
    data := map[];
    var i := 0;
    while i < |entries|
      invariant 0 <= i <= |entries|
      invariant data == FormDataMap(entries[..i])
    {
      assert entries[..i + 1][..i] == entries[..i];
      data := data[entries[i].0 := entries[i].1];
      i := i + 1;
    }
    assert entries[..|entries|] == entries;
  }

  const QUEUED_TOAST := "Action saved offline. Will sync when connected."
  const FAILED_TOAST := "Failed to save offline action"

  /** What the button's action stores as `data`: form entries for `complete` inside a form, else nothing. */
  function ActionData(action: string, hasForm: bool, entries: seq<(string, string)>): map<string, string> {
    if action == "complete" && hasForm then FormDataMap(entries) else map[]
  }

  /** The OfflineAction hook on one job action button. */
  class OfflineAction {
    const store: OfflineStorage
    const action: string
    const jobId: string
    /** The button shows the queued marker (`offline-queued`, "Queued") and is disabled. */
    var queued: bool
    var events: seq<HookEvent>

    constructor Mounted(store: OfflineStorage, action: string, jobId: string)
      ensures this.store == store && this.action == action && this.jobId == jobId
      ensures !queued && events == []
    {
      this.store := store;
      this.action := action;
      this.jobId := jobId;
      queued := false;
      events := [];
    }

    /**
     * handleOfflineAction: stores the button's action (with the enclosing
     * form's entries for `complete`), then confirms with an event and an
     * info toast and marks the button; a storage error only shows an error toast.
     */
    method HandleOfflineAction(hasForm: bool, entries: seq<(string, string)>, timestamp: string,
                               open: OpenOutcome, addOk: bool)
      requires store.Valid()
      modifies this, store
      ensures store.Valid() && store.db == DbAfterInit(old(store.db), open)
      ensures DbAfterInit(old(store.db), open).Some? && addOk ==>
        && store.records == old(store.records) + [PendingUpdate(old(store.nextId), action, jobId, ActionData(action, hasForm, entries), timestamp, false)]
        && events == old(events) + [OfflineActionQueued(action, jobId), ShowToast(QUEUED_TOAST, "info")]
        && queued
      ensures !(DbAfterInit(old(store.db), open).Some? && addOk) ==>
        && store.records == old(store.records)
        && events == old(events) + [ShowToast(FAILED_TOAST, "error")]
        && queued == old(queued)
    {
      var data := map[];
      if action == "complete" && hasForm {
        data := CollectFormData(entries);
      }
      var r := store.QueueUpdate(action, jobId, data, timestamp, open, addOk);
      if r.Success? {
        events := events + [OfflineActionQueued(action, jobId), ShowToast(QUEUED_TOAST, "info")];
        queued := true;
      } else {
        events := events + [ShowToast(FAILED_TOAST, "error")];
      }
    }

    /** The click listener: while the browser is online the click is left to the LiveView. */
    method Click(navOnline: bool, hasForm: bool, entries: seq<(string, string)>, timestamp: string,
                 open: OpenOutcome, addOk: bool)
      requires store.Valid()
      modifies this, store
      ensures store.Valid()
      ensures navOnline ==>
        store.records == old(store.records) && store.db == old(store.db) && events == old(events) && queued == old(queued)
      ensures !navOnline ==> store.db == DbAfterInit(old(store.db), open)
      ensures !navOnline && DbAfterInit(old(store.db), open).Some? && addOk ==>
        && store.records == old(store.records) + [PendingUpdate(old(store.nextId), action, jobId, ActionData(action, hasForm, entries), timestamp, false)]
        && events == old(events) + [OfflineActionQueued(action, jobId), ShowToast(QUEUED_TOAST, "info")]
        && queued
      ensures !navOnline && !(DbAfterInit(old(store.db), open).Some? && addOk) ==>
        && store.records == old(store.records)
        && events == old(events) + [ShowToast(FAILED_TOAST, "error")]
        && queued == old(queued)
    {
      if navOnline {
        return;
      }
      HandleOfflineAction(hasForm, entries, timestamp, open, addOk);
    }
  }

  // ---------------------------------------------------------------------------
  // OfflineIndicator

  /** The indicator's text for a status and a pending count. */
  function IndicatorText(online: bool, n: nat): string {
    if !online then "Offline"
    else if n > 0 then "Syncing (" + NatToString(n) + ")"
    else "Online"
  }

  /**
   * The text tells the status apart, and while online it gives the exact
   * pending count back.
   */
  lemma IndicatorTextDetermines(online1: bool, n1: nat, online2: bool, n2: nat)
    requires IndicatorText(online1, n1) == IndicatorText(online2, n2)
    ensures online1 == online2
    ensures online1 ==> n1 == n2
  {
    var t := IndicatorText(online1, n1);
    if online1 && n1 > 0 {
      assert t[0] == 'S';
      assert online2 && n2 > 0;
      var prefix := "Syncing (";
      assert t == prefix + NatToString(n1) + ")";
      assert t == prefix + NatToString(n2) + ")";
      assert NatToString(n1) == t[|prefix|..|t| - 1];
      assert NatToString(n2) == t[|prefix|..|t| - 1];
      NatToStringRoundTrip(n1);
      NatToStringRoundTrip(n2);
    } else if !(online2 && n2 > 0) {
      assert IndicatorText(online1, n1)[1] == IndicatorText(online2, n2)[1];
    }
  }

  /** The OfflineIndicator hook. */
  class OfflineIndicator {
    const store: OfflineStorage
    /** Which of `[data-indicator]`, `[data-text]` and `[data-pending-badge]` the element holds. */
    const hasIndicator: bool
    const hasText: bool
    const hasBadge: bool
    /** The indicator dot's classes. */
    var emerald: bool
    var amber: bool
    var pulse: bool
    var text: string
    var badge: Badge

    /**
     * mounted, up to its first update (a separate step, see Update): the
     * dot's classes, the text and the badge are those of the page markup.
     */
    constructor (store: OfflineStorage, hasIndicator: bool, hasText: bool, hasBadge: bool,
                 emerald: bool, amber: bool, pulse: bool, text: string, badge: Badge)
      ensures this.store == store && this.hasIndicator == hasIndicator
      ensures this.hasText == hasText && this.hasBadge == hasBadge
      ensures this.emerald == emerald && this.amber == amber && this.pulse == pulse
      ensures this.text == text && this.badge == badge
    {
      this.store := store;
      this.hasIndicator := hasIndicator;
      this.hasText := hasText;
      this.hasBadge := hasBadge;
      this.emerald, this.amber, this.pulse := emerald, amber, pulse;
      this.text := text;
      this.badge := badge;
    }

    /**
     * update: reads the browser status and the store's count, then sets the
     * dot green when online and amber when offline, pulsing while offline or
     * with updates pending, the text and the badge.  A rejected count changes nothing.
     */
    method Update(navOnline: bool, open: OpenOutcome, countOk: bool)
      requires store.Valid()
      modifies this, store
      ensures store.Valid()
      ensures store.records == old(store.records) && store.db == DbAfterInit(old(store.db), open)
      ensures !(DbAfterInit(old(store.db), open).Some? && countOk) ==>
        emerald == old(emerald) && amber == old(amber) && pulse == old(pulse) && text == old(text) && badge == old(badge)
      ensures DbAfterInit(old(store.db), open).Some? && countOk ==>
        && (hasIndicator ==>
              emerald == navOnline && amber == !navOnline && pulse == (!navOnline || |store.records| > 0))
        && (!hasIndicator ==> emerald == old(emerald) && amber == old(amber) && pulse == old(pulse))
        && text == (if hasText then IndicatorText(navOnline, |store.records|) else old(text))
        && badge == (if hasBadge then BadgeAfter(old(badge), |store.records|) else old(badge))
    {
      var counted := store.GetPendingCount(open, countOk);
      if counted.Failure? {
        return;
      }
      var n := counted.value;
      if hasIndicator {
        emerald := navOnline;
        amber := !navOnline;
        pulse := !navOnline || n > 0;
      }
      if hasText {
        text := IndicatorText(navOnline, n);
      }
      if hasBadge {
        badge := BadgeAfter(badge, n);
      }
    }

    /** One tick of the five-second poll: refreshes only while the browser is online. */
    method PollTick(navOnline: bool, open: OpenOutcome, countOk: bool)
      requires store.Valid()
      modifies this, store
      ensures store.Valid() && store.records == old(store.records)
      ensures !navOnline ==>
        && store.db == old(store.db)
        && emerald == old(emerald) && amber == old(amber) && pulse == old(pulse)
        && text == old(text) && badge == old(badge)
      ensures navOnline ==> store.db == DbAfterInit(old(store.db), open)
      ensures navOnline && !(DbAfterInit(old(store.db), open).Some? && countOk) ==>
        emerald == old(emerald) && amber == old(amber) && pulse == old(pulse) && text == old(text) && badge == old(badge)
      ensures navOnline && DbAfterInit(old(store.db), open).Some? && countOk ==>
        && (hasIndicator ==> emerald && !amber && pulse == (|store.records| > 0))
        && (!hasIndicator ==> emerald == old(emerald) && amber == old(amber) && pulse == old(pulse))
        && text == (if hasText then IndicatorText(true, |store.records|) else old(text))
        && badge == (if hasBadge then BadgeAfter(old(badge), |store.records|) else old(badge))
    {
      if navOnline {
        Update(navOnline, open, countOk);
      }
    }
  }
}
