# FieldHub offline client — a Dafny model

FieldHub is a field-service application. Its browser client lets a technician keep
working without a connection, and this project models the core of that offline layer:

- **OfflineQueue** (`offline_storage.dfy`). The IndexedDB queue of pending job updates,
  as a class `OfflineStorage`:
  - an optional database handle;
  - the records in key order;
  - the auto-increment key generator, which starts at 1.

  Every operation first opens the database, then issues one request. Both steps get their
  outcome from an oracle parameter. `SyncAll` drains the queue one record at a time. A
  record leaves the store only when both its POST to `/api/tech/sync` and its delete
  succeed. The pure functions `Kept`, `SyncedCount` and `Calls` say what the drain leaves
  behind, counts and sends.
- **SyncHooks** (`offline_sync.dfy`). The three LiveView hooks built on the queue:
  - `OfflineSync`: online/offline events, queueing, manual and automatic sync, and the
    pending badge;
  - `OfflineAction`: an action button that queues its form data while offline;
  - `OfflineIndicator`: the status dot, the status text and the 5-second poll.

  Events pushed to the server are recorded in an `events` sequence.
- **ServiceWorker** (`service_worker.dfy`). The service worker:
  - request routing: pass-through, network-first, cache-first or stale-while-revalidate;
  - the named caches, as a sequence of partitions in creation order;
  - pre-caching on install and the removal of old caches on activate;
  - the three fetch strategies with their offline fallbacks;
  - the notification-click target.
- **MapMarkers** (`map_hook.dfy`). The dispatch map hook. Its dictionary of markers, keyed
  `tech-<id>` and `job-<id>`, is reconciled in place with every push of technicians and
  jobs. The module also holds the pure helpers: initials and status colours.
- **Search** (`search_modal.dfy`). The Cmd/Ctrl+K search modal:
  - open/closed state and the three status panels;
  - the debounced query;
  - the rendered result list and keyboard selection.
- **Strings** and **Wrappers**. The JavaScript string operations the client relies on, and
  `Option`/`Result`.

## Model

| member | source | states |
|---|---|---|
| OfflineQueue.EventName | field_hub/assets/js/lib/offline_storage.js:172-184 | an action has an event name exactly when it is one of the four known actions (start_travel, arrive, start_work, complete) |
| OfflineQueue.EventNameInjective | field_hub/assets/js/lib/offline_storage.js:172-177 | no two actions share an event name |
| OfflineQueue.EventMapLookupAsWritten | field_hub/assets/js/lib/offline_storage.js:179 | the object lookup as written finds a value for the four known actions and also for every inherited Object.prototype member name |
| OfflineQueue.InheritedNamePassesGuardAsWritten | field_hub/assets/js/lib/offline_storage.js:179-183 | the action "toString" passes the unknown-action guard as written, yet is not a known action |
| OfflineQueue.SyncUpdate | field_hub/assets/js/lib/offline_storage.js:170-213 | a request is sent exactly for the four mapped actions (the corrected guard of the Findings table); it carries the record's own action, job id, data and timestamp; the call succeeds exactly when it was sent and answered with a 2xx status |
| OfflineQueue.WithoutMembers | field_hub/assets/js/lib/offline_storage.js:116-130 | deleting a key removes exactly the records with that key |
| OfflineQueue.WithoutAscending | field_hub/assets/js/lib/offline_storage.js:116-130 | deleting a key keeps the store in ascending key order |
| OfflineQueue.WithoutLength | field_hub/assets/js/lib/offline_storage.js:116-130 | deleting a present key shrinks the store by one; deleting an absent key changes nothing |
| OfflineQueue.WithoutConcat | field_hub/assets/js/lib/offline_storage.js:116-130 | deletion distributes over concatenation |
| OfflineQueue.WithoutAbsent | field_hub/assets/js/lib/offline_storage.js:116-130 | deleting a key no record has leaves the store as it was |
| OfflineQueue.WithoutUnique | field_hub/assets/js/lib/offline_storage.js:116-130 | deleting a record's unique key removes just that record, in place |
| OfflineQueue.Kept | field_hub/assets/js/lib/offline_storage.js:148-161 | a drain of n records keeps at most n of them |
| OfflineQueue.KeptFromPrefix | field_hub/assets/js/lib/offline_storage.js:148-161 | the drain keeps only records it has visited |
| OfflineQueue.SyncedCount | field_hub/assets/js/lib/offline_storage.js:148-161 | the drain counts at most one success per visited record |
| OfflineQueue.KeptIdsBelow | field_hub/assets/js/lib/offline_storage.js:148-161 | every record kept so far has a smaller key than the next record visited |
| OfflineQueue.DrainStepRemoves | field_hub/assets/js/lib/offline_storage.js:150-153 | removing the record just synced turns the store into the kept records plus the unvisited ones |
| OfflineQueue.DrainAccounts | field_hub/assets/js/lib/offline_storage.js:145-164 | synced plus kept equals the number visited, so no record is lost or counted twice |
| OfflineQueue.KeptExactlyUnremoved | field_hub/assets/js/lib/offline_storage.js:150-160 | a visited record stays exactly when its sync or its delete failed |
| OfflineQueue.KeptAscending | field_hub/assets/js/lib/offline_storage.js:148-161 | the records left after a drain are still in key order |
| OfflineQueue.CallsAscending | field_hub/assets/js/lib/offline_storage.js:148-150 | the drain sends at most one request per record, in key order, each for a visited record with that record's body |
| OfflineQueue.CallsExactlySendable | field_hub/assets/js/lib/offline_storage.js:148-150 | a record of the snapshot gets its request exactly when its action is sendable, and every request sent carries a sendable action |
| OfflineQueue.DrainEmpty | field_hub/assets/js/lib/offline_storage.js:138-141 | draining an empty queue reports 0 synced, 0 failed, sends nothing and keeps nothing |
| OfflineQueue.DrainAllSucceed | field_hub/assets/js/lib/offline_storage.js:148-161 | when every record is sendable and every call and delete succeeds, the queue empties and every record counts as synced |
| OfflineQueue.OfflineStorage.constructor | field_hub/assets/js/lib/offline_storage.js:11-14 | a new instance has no handle and is not ready; the persisted records and key generator are those of the database |
| OfflineQueue.OfflineStorage.Init | field_hub/assets/js/lib/offline_storage.js:16-47 | an open handle is reused; otherwise a successful open stores the handle and a failed one rejects; the records are untouched |
| OfflineQueue.OfflineStorage.QueueUpdate | field_hub/assets/js/lib/offline_storage.js:55-79 | on success the new record is appended unsynced with the next key, which is larger than every stored key; on failure nothing changes |
| OfflineQueue.OfflineStorage.GetPendingUpdates | field_hub/assets/js/lib/offline_storage.js:84-95 | on success returns all records in key order; the store is unchanged |
| OfflineQueue.OfflineStorage.GetPendingCount | field_hub/assets/js/lib/offline_storage.js:100-111 | on success returns the number of records; the store is unchanged |
| OfflineQueue.OfflineStorage.RemoveUpdate | field_hub/assets/js/lib/offline_storage.js:116-130 | on success exactly the records with that key are gone; on failure nothing changes |
| OfflineQueue.OfflineStorage.SyncOne | field_hub/assets/js/lib/offline_storage.js:149-160 | one loop iteration: syncs the next record, deletes it when the call succeeded, and advances the counts and the call trace by one record |
| OfflineQueue.OfflineStorage.Drain | field_hub/assets/js/lib/offline_storage.js:145-161 | the loop over a snapshot of the whole queue (with the corrected action guard): the counts are the drain's counts, the store holds exactly the kept records and the requests sent are the drain's calls |
| OfflineQueue.OfflineStorage.SyncAll | field_hub/assets/js/lib/offline_storage.js:135-165 | a failed listing changes nothing; otherwise (with the corrected action guard) the result is the drain's counts, the store holds exactly the kept records and the requests sent are the drain's calls |
| SyncHooks.BadgeAfter | field_hub/assets/js/hooks/offline_sync.js:115-125 | the badge is hidden exactly when the count is 0; otherwise its text is the decimal count; when hidden the text is left as it was |
| SyncHooks.OfflineSync.Mounted | field_hub/assets/js/hooks/offline_sync.js:14-44 | the hook starts with the browser's online flag and count 0, and pushes one offline_status event |
| SyncHooks.OfflineSync.UpdateBadge | field_hub/assets/js/hooks/offline_sync.js:115-125 | a present badge shows the pending count; an absent badge changes nothing |
| SyncHooks.OfflineSync.UpdatePendingCount | field_hub/assets/js/hooks/offline_sync.js:109-113 | on success the count equals the number of stored records and the badge shows it; on failure the count and badge stay |
| SyncHooks.OfflineSync.StorageReady | field_hub/assets/js/hooks/offline_sync.js:19-21 | once storage opens and the count succeeds, the hook's count equals the number of stored records and the badge shows it; otherwise count and badge are unchanged |
| SyncHooks.OfflineSync.HandleOffline | field_hub/assets/js/hooks/offline_sync.js:70-78 | the hook goes offline and pushes an offline_status event with the current count |
| SyncHooks.OfflineSync.QueueUpdate | field_hub/assets/js/hooks/offline_sync.js:80-95 | a successful add appends the update to the store; with the count refreshed, the count and badge follow the store and an update_queued event carries the new count; a storage error is swallowed and leaves count and badge |
| SyncHooks.OfflineSync.SyncNow | field_hub/assets/js/hooks/offline_sync.js:97-107 | offline, reports 0/0 and touches nothing; online, a failed listing changes nothing; otherwise the store holds the kept records and the requests are the drain's calls, and a successful count gives the drain's counts, the count of what is left and the badge for it, while a failed count leaves count and badge |
| SyncHooks.OfflineSync.HandleOnline | field_hub/assets/js/hooks/offline_sync.js:51-68 | goes online and pushes a syncing status with the old count; the store, calls, count and badge end as in syncNow; on success a sync_complete follows whose counts add up to the queue length |
| SyncHooks.FormDataKeys | field_hub/assets/js/hooks/offline_sync.js:152-182 | the collected form data has exactly the keys of the form's entries |
| SyncHooks.FormDataLastWins | field_hub/assets/js/hooks/offline_sync.js:152-182 | for a repeated field name the last entry's value wins |
| SyncHooks.CollectFormData | field_hub/assets/js/hooks/offline_sync.js:152-182 | the loop over the form entries builds exactly the form-data map |
| SyncHooks.OfflineAction.Mounted | field_hub/assets/js/hooks/offline_sync.js:134-150 | the button keeps its action and job id and has queued nothing |
| SyncHooks.OfflineAction.HandleOfflineAction | field_hub/assets/js/hooks/offline_sync.js:152-206 | a successful add queues the action with its form data, pushes offline_action_queued and an info toast; a failure pushes only the error toast |
| SyncHooks.OfflineAction.Click | field_hub/assets/js/hooks/offline_sync.js:134-150 | online clicks are left to LiveView and change nothing; offline clicks queue the action, push offline_action_queued with an info toast and mark the button, or show only the error toast when storing fails |
| SyncHooks.IndicatorTextDetermines | field_hub/assets/js/hooks/offline_sync.js:243-251 | the status text tells offline from online, and online it tells the pending count |
| SyncHooks.OfflineIndicator.constructor | field_hub/assets/js/hooks/offline_sync.js:214-223 | up to its first update, the indicator has the page markup's dot classes, text and badge |
| SyncHooks.OfflineIndicator.Update | field_hub/assets/js/hooks/offline_sync.js:229-261 | with a count, the dot is emerald exactly when online, amber exactly when offline, pulsing when offline or anything is pending; the text and badge show the status and count |
| SyncHooks.OfflineIndicator.PollTick | field_hub/assets/js/hooks/offline_sync.js:263-267 | offline the poll changes nothing; online it refreshes as update does: green, not amber, pulsing exactly with updates pending, the online text and the badge for the count; a failed count changes nothing |
| ServiceWorker.RouteFor | field_hub/priv/static/sw.js:70-103 | non-GET, non-http and API requests pass through; HTML requests go network-first; static assets cache-first; the rest stale-while-revalidate |
| ServiceWorker.ApiPathsPassThrough | field_hub/priv/static/sw.js:22-26 | every path under /api/, /live/ or /socket/ reaches the network untouched |
| ServiceWorker.DrainRequestPassesThrough | field_hub/priv/static/sw.js:70-103 | the queue's sync POST to /api/tech/sync is never answered from a cache |
| ServiceWorker.LookupFirst | field_hub/priv/static/sw.js:107 | a cache match finds a key exactly when some cache holds it, and answers from the first such cache |
| ServiceWorker.Open | field_hub/priv/static/sw.js:115 | opening a cache makes it exist, keeps names distinct and changes no match |
| ServiceWorker.LookupAppendEmpty | field_hub/priv/static/sw.js:115 | a new empty cache changes no match |
| ServiceWorker.MergeIn | field_hub/priv/static/sw.js:116 | putting entries changes only the named cache, whose entries gain the new ones |
| ServiceWorker.MergeInFound | field_hub/priv/static/sw.js:116 | after a put into an existing cache the key is matched |
| ServiceWorker.MergeInOthers | field_hub/priv/static/sw.js:116 | a put changes no match for other keys |
| ServiceWorker.MergeInFirstAnswers | field_hub/priv/static/sw.js:116 | a put into the oldest cache is what a later match returns |
| ServiceWorker.MergeInKeepsDistinct | field_hub/priv/static/sw.js:116 | a put keeps cache names distinct |
| ServiceWorker.DeleteInConcat | field_hub/priv/static/sw.js:59 | deleting a cache distributes over the cache list |
| ServiceWorker.DeleteInAbsent | field_hub/priv/static/sw.js:59 | deleting a missing cache changes nothing |
| ServiceWorker.CurrentOnlyMembers | field_hub/priv/static/sw.js:53-61 | activation keeps exactly the static and dynamic caches |
| ServiceWorker.CurrentOnlyConcat | field_hub/priv/static/sw.js:53-61 | the activation filter distributes over the cache list |
| ServiceWorker.CurrentOnlyDistinct | field_hub/priv/static/sw.js:53-61 | activation keeps cache names distinct |
| ServiceWorker.ActivationKeepsCurrent | field_hub/priv/static/sw.js:53-61 | a cache survives activation exactly when it is current; the unused fieldhub-v1 cache never survives |
| ServiceWorker.ActivateStep | field_hub/priv/static/sw.js:55-60 | deleting the i-th cache when it is not current is one step of the activation filter |
| ServiceWorker.PrecacheListMembers | field_hub/priv/static/sw.js:36 | the install list is exactly the static assets without a query string |
| ServiceWorker.AddedEntries | field_hub/priv/static/sw.js:36 | when all fetches succeed, addAll stores exactly the listed URLs |
| ServiceWorker.Absolute | field_hub/priv/static/sw.js:36 | each listed path is resolved against the worker's origin |
| ServiceWorker.PrecachedFound | field_hub/priv/static/sw.js:33-36 | after a complete addAll every pre-cached URL is matched |
| ServiceWorker.ClickTarget | field_hub/priv/static/sw.js:303 | the target is the notification's non-empty data URL, and /tech when the URL is missing or empty |
| ServiceWorker.NotificationClick | field_hub/priv/static/sw.js:298-320 | focuses the first window whose URL contains the target; otherwise opens a window when the browser can; otherwise does nothing |
| ServiceWorker.FallbackFor | field_hub/priv/static/sw.js:137-157 | offline, the cached copy wins, then the cached /offline page, then a 503 text/html offline page |
| ServiceWorker.Worker.constructor | field_hub/priv/static/sw.js:4-26 | the worker starts from the existing caches; its pre-cache list is the given asset list without the URLs that carry a query |
| ServiceWorker.Worker.Install | field_hub/priv/static/sw.js:29-44 | the static cache exists afterwards; a complete addAll (every fetch ok and none a 206 partial response) makes every pre-cached URL matched; a failed one stores nothing; waiting is skipped either way |
| ServiceWorker.Worker.Activate | field_hub/priv/static/sw.js:47-67 | the caches become exactly the current ones, in their old order, and clients are claimed |
| ServiceWorker.Worker.CacheFirstFetch | field_hub/priv/static/sw.js:106-123 | a cached answer is returned without fetching; otherwise the fetched response is returned; an ok answer opens the static cache and is stored there unless it is a 206 partial response, which opens the cache and stores nothing; or 503 "Offline" on a network failure |
| ServiceWorker.Worker.NetworkFirstFetch | field_hub/priv/static/sw.js:126-158 | the fetched response is returned; an ok answer opens the dynamic cache and is stored there unless it is a 206 partial response, which opens the cache and stores nothing; on a network failure the fallback answers and nothing is stored |
| ServiceWorker.Worker.StaleWhileRevalidateFetch | field_hub/priv/static/sw.js:161-175 | a cached answer is returned, else the fetched response or nothing; an ok fetch opens the dynamic cache either way and is stored there unless it is a 206 partial response |
| ServiceWorker.Worker.HandleFetch | field_hub/priv/static/sw.js:70-103 | the worker answers exactly the requests it intercepts; page requests get the network answer or the fallback; static assets get the cached copy, else the fetched answer or 503 Offline; other requests get the cached copy, else the network answer or nothing; in each case an ok fetch opens the route's cache (dynamic, static, dynamic) and is stored there unless it is a 206 partial response |
| ServiceWorker.Stored | field_hub/priv/static/sw.js:114-118 | an ok fetch opens the named cache; unless it is a 206 partial response it is put there under its URL, so that cache holds that response and match finds it; a 206 leaves only the opened cache, as cache.put rejects it, and the URL answers as before; other URLs answer as before; a failed or non-ok fetch changes nothing |
| MapMarkers.KeysConcat | field_hub/assets/js/hooks/map.js:131-245 | the keys placed by both loops are the union of each loop's keys |
| MapMarkers.TechKeys | field_hub/assets/js/hooks/map.js:131-134 | a tech- key is placed exactly when some technician with that id has both coordinates truthy |
| MapMarkers.JobKeys | field_hub/assets/js/hooks/map.js:194-197 | a job- key is placed exactly when some job with that id has both service coordinates truthy |
| MapMarkers.TechAndJobKeysDiffer | field_hub/assets/js/hooks/map.js:133 | technician and job markers never share a key |
| MapMarkers.ReconcileStep | field_hub/assets/js/hooks/map.js:139-190 | moving an existing marker or creating a new one keeps the dictionary reconciled with the placements so far |
| MapMarkers.ReconciledThenPruned | field_hub/assets/js/hooks/map.js:248-253 | removing the keys not placed leaves exactly the placed markers, each at its last position |
| MapMarkers.SerialsRemove | field_hub/assets/js/hooks/map.js:250-251 | removing a marker's entry removes its layer from the map |
| MapMarkers.SerialsAdd | field_hub/assets/js/hooks/map.js:179 | a new marker's layer joins the map |
| MapMarkers.SerialsMove | field_hub/assets/js/hooks/map.js:140 | moving a marker leaves the map's layers unchanged |
| MapMarkers.MapHook.Mounted | field_hub/assets/js/hooks/map.js:18-27 | there is no map yet and the dictionary is empty |
| MapMarkers.MapHook.InitializeMap | field_hub/assets/js/hooks/map.js:44-84 | without a container size nothing changes; otherwise the map exists and, when the initial data loads, the markers are those updateMarkers shows for it; data that does not load leaves markers, layers and view as they were |
| MapMarkers.InitialData | field_hub/assets/js/hooks/map.js:109-122 | data is loaded exactly when the technicians parse and the jobs are absent or parse; absent jobs stand for none |
| MapMarkers.MapHook.Place | field_hub/assets/js/hooks/map.js:139-190 | an existing marker is moved in place; otherwise a new marker with its icon is created and added to the map |
| MapMarkers.MapHook.UpdateMarkers | field_hub/assets/js/hooks/map.js:124-263 | without a map nothing changes; otherwise exactly the placed keys remain, each at its last position; existing markers keep identity and icon; new ones take their first placement's icon; bounds are fitted to all points when any |
| MapMarkers.MapHook.PlaceTechnicians | field_hub/assets/js/hooks/map.js:131-191 | the technician loop reconciles the dictionary with the technicians' placements |
| MapMarkers.MapHook.PlaceJobs | field_hub/assets/js/hooks/map.js:194-245 | the job loop continues the reconciliation with the jobs' placements |
| MapMarkers.MapHook.Accept | field_hub/assets/js/hooks/map.js:132-140 | one loop step: the placement, if any, is applied and its key and point are collected |
| MapMarkers.MapHook.RemoveUnseen | field_hub/assets/js/hooks/map.js:248-253 | exactly the markers whose key was not placed leave the dictionary and the map |
| MapMarkers.MapHook.Destroyed | field_hub/assets/js/hooks/map.js:302-315 | the map is gone, the dictionary is empty and no layer remains |
| MapMarkers.Initials | field_hub/assets/js/hooks/map.js:266-273 | a missing or empty name gives "?"; otherwise at most two characters |
| MapMarkers.InitialsStart | field_hub/assets/js/hooks/map.js:266-273 | a name not starting with a space starts its initials with its upper-cased first letter |
| MapMarkers.InitialsOfTwoWords | field_hub/assets/js/hooks/map.js:266-273 | "first last" gives the two upper-cased first letters |
| MapMarkers.InitialsIgnoreLaterWords | field_hub/assets/js/hooks/map.js:268-269 | words after the second never change the initials |
| MapMarkers.TechStatusColor | field_hub/assets/js/hooks/map.js:276-285 | the grey default is returned exactly for statuses other than available, on_job, traveling and break |
| MapMarkers.JobStatusColor | field_hub/assets/js/hooks/map.js:288-299 | the zinc default is returned exactly for statuses other than the six coloured ones |
| Search.VisibleCount | field_hub/assets/js/hooks/search_modal.js:90-104 | no panel is visible exactly when all three are hidden |
| Search.PanelsFor | field_hub/assets/js/hooks/search_modal.js:90-98 | each of the three known states shows its own panel and only it; any other state shows none |
| Search.AllItems | field_hub/assets/js/hooks/search_modal.js:144-148 | the result list is the jobs, then the customers, then the invoices |
| Search.SelectDown | field_hub/assets/js/hooks/search_modal.js:241-244 | ArrowDown moves down one row before the last item and stays on the last item from there on, Math.min(i + 1, n - 1) |
| Search.SelectUp | field_hub/assets/js/hooks/search_modal.js:245-248 | ArrowUp never goes below 0 and moves up one row above it |
| Search.DownsStopAtLast | field_hub/assets/js/hooks/search_modal.js:241-244 | k presses of ArrowDown move k rows, stopping at the last row |
| Search.IconFor | field_hub/assets/js/hooks/search_modal.js:229-236 | customers and invoices get their own icon; any other kind, unknown ones included, gets the job icon |
| Search.SearchModal.Mounted | field_hub/assets/js/hooks/search_modal.js:16-18 | no results and no selection |
| Search.SearchModal.ShowState | field_hub/assets/js/hooks/search_modal.js:90-98 | the panels become those of the state; nothing else changes |
| Search.SearchModal.ResetResults | field_hub/assets/js/hooks/search_modal.js:81-88 | back to no results and no selection, with only the empty panel visible |
| Search.SearchModal.Open | field_hub/assets/js/hooks/search_modal.js:58-64 | the modal is open with an empty input, reset results and the page scroll locked |
| Search.SearchModal.Close | field_hub/assets/js/hooks/search_modal.js:66-71 | the modal is closed with an empty input, reset results and the page scroll released |
| Search.SearchModal.Toggle | field_hub/assets/js/hooks/search_modal.js:73-79 | flips open and closed, with the input cleared, the results reset and the empty panel shown |
| Search.SearchModal.GlobalKeydown | field_hub/assets/js/hooks/search_modal.js:21-29 | Cmd/Ctrl+K flips the modal; Escape closes it when open and otherwise changes nothing; either way the input is cleared, the results, selection and rendered items reset, the empty panel shown and the scroll lock follows the modal |
| Search.SearchModal.HandleInput | field_hub/assets/js/hooks/search_modal.js:106-119 | a query under two UTF-16 code units resets and schedules nothing; a longer one shows loading and schedules its search |
| Search.QueryThreshold | field_hub/assets/js/hooks/search_modal.js:109 | a query of two or more characters is searched, and a single character is searched exactly when it lies above U+FFFF |
| Search.SearchModal.RenderResults | field_hub/assets/js/hooks/search_modal.js:139-184 | the shown items are the flat list; an empty list shows no-results and keeps the old results and selection; otherwise the first row is selected |
| Search.SearchModal.DebounceFires | field_hub/assets/js/hooks/search_modal.js:116-137 | a scheduled search renders a successful answer: its items are shown with the first selected and no panel, or, when there are none, the no-results panel with results and selection kept; any other outcome shows no-results |
| Search.SearchModal.HandleInputKeydown | field_hub/assets/js/hooks/search_modal.js:238-257 | the arrows keep the selection in range and change nothing else the user sees; Enter navigates to the selected item and closes, clears and resets the modal and releases the scroll lock, only when such an item is shown |
| Strings.JoinSplit | field_hub/assets/js/hooks/map.js:268 | splitting on a separator loses nothing: joining the parts gives the string back |
| Strings.SplitAtSep | field_hub/assets/js/hooks/map.js:268 | the first part of a split is the text before the first separator |
| Strings.SplitNoSep | field_hub/assets/js/hooks/map.js:268 | a string without the separator is a single part |
| Strings.NatToStringRoundTrip | field_hub/assets/js/hooks/offline_sync.js:119 | the badge text of a count reads back as that count |
| Search.Utf16Length | field_hub/assets/js/hooks/search_modal.js:109 | the JavaScript length of a string is at least its number of characters and at most twice it, and equals it exactly when no character lies above U+FFFF |

## Left out

- IndexedDB and promise plumbing. The database is a sequence of records plus a key generator. Each open and each request succeeds or fails according to an oracle parameter.
- The object-store schema and its indexes: no behaviour depends on them.
- `fetch`, HTTP and the CSRF header lookup. Every network call is an outcome parameter: a status code or a network error.
- The ISO timestamp of a queued update. It is an input.
- `triggerBackgroundSync`. It only probes browser capabilities and does not change the queue.
- The service worker's `syncPendingUpdates`. It is an empty stub; `OfflineQueue.SYNC_TAG` records the tag that dispatches it.
- The `offlineHtml` markup is an opaque body, `OfflinePage`. The push-notification display is not modelled.
- The `destroyed` handler of the sync hook. It removes freshly created listeners, which is a matter of listener identity in the event system, not of modelled state.
- DOM wiring beyond the modelled state:
  - the sync-trigger click and the `queue_offline_update` event subscription;
  - the search field focus, backdrop click and result-item click (each just calls `Open` or `Close`);
  - `updateSelection` highlighting.
- DOM templates and `innerHTML`: marker popups and tooltips, the result-item markup and its status colours, and the toast markup.
- Leaflet rendering: tiles, ResizeObserver, refresh timers and the `fitBounds` geometry. Coordinates are reals, and `fitted` records the points passed.
- Timers. The search debounce is a pending query. `DebounceFires` stands for the timer firing. The 5-second indicator poll is `PollTick`.
- URL parsing. A request carries its already-parsed protocol and pathname.
- The asset list. `ServiceWorker.Worker.constructor` takes the list as a parameter. It stands for the script's `STATIC_ASSETS` constant, which `ServiceWorker.STATIC_ASSETS` also records.
- The order in which the unawaited `cache.put` calls complete. Each put is applied when its response arrives.
- The other client hooks (signature pad, sidebar tooltip, geolocation, drag and drop) are not part of this model.
- MapMarkers.Initials: `toUpperCase` is modelled on ASCII letters only, and the first letter of a word is a whole character, where `charAt(0)` takes the first UTF-16 code unit (half of a surrogate pair for a character above U+FFFF).
- MapMarkers.TechStatusColor: a status named like an inherited Object.prototype member returns that member in JavaScript rather than the default colour. The model returns the default.
- MapMarkers.JobStatusColor: the same applies to job statuses.
- Search.IconFor: the same applies to result kinds.
- MapMarkers.MapHook.InitializeMap: attribute JSON that parses to something other than an array of records is not modelled. In the source, updateMarkers then throws part way through, and the error is caught. The parser itself is not modelled either: each attribute arrives as absent, unparseable or parsed.
- MapMarkers.MapHook.UpdateMarkers: a coordinate counts as located when it is present and non-zero. JavaScript truthiness of other non-numeric values (strings, NaN) is not modelled.

## Findings

| source | as written | input that shows it | evidently intended | confidence | as-written member | corrected member |
|---|---|---|---|---|---|---|
| field_hub/assets/js/lib/offline_storage.js:179-183 | the unknown-action guard looks the action up in a plain object literal, so inherited Object.prototype members such as `toString` or `constructor` are found and pass the guard; the record is then POSTed with that action | a queued update whose action is "toString" | only the four mapped actions are sent; any other action is reported unknown and counted as failed | not executed | OfflineQueue.EventMapLookupAsWritten, OfflineQueue.InheritedNamePassesGuardAsWritten | OfflineQueue.EventName, OfflineQueue.SyncUpdate, OfflineQueue.OfflineStorage.SyncAll |
