/**
 * The durable queue of offline job updates (OfflineStorage over IndexedDB)
 * and its drain loop syncAll.
 *
 * The object store is the sequence `records`, kept in key order, and the
 * store's key generator is `nextId`.  Every store operation first runs
 * `init`, which opens the database only when no handle is held yet; whether
 * that open succeeds and whether the operation's own request succeeds are
 * parameters (oracles), as is each server reply during a drain.
 */
module OfflineQueue {
  import opened Wrappers

  /** An open IndexedDB connection; opaque. */
  type DbHandle = nat

  /** What `indexedDB.open` delivers when it is asked. */
  datatype OpenOutcome = Opened(handle: DbHandle) | OpenError

  /** Why a store operation's promise rejected. */
  datatype StoreError = OpenRejected | RequestRejected

  /** A queued offline action; `id` is the auto-incremented key. */
  datatype PendingUpdate = PendingUpdate(
    id: nat,
    action: string,
    jobId: string,
    data: map<string, string>,
    timestamp: string,
    synced: bool)

  /** The JSON body of `POST /api/tech/sync`. */
  datatype SyncBody = SyncBody(
    action: string,
    jobId: string,
    data: map<string, string>,
    offlineTimestamp: string)

  /** One request the drain sent, tagged with the record it was sent for. */
  datatype SyncCall = SyncCall(updateId: nat, body: SyncBody)

  datatype SyncCounts = SyncCounts(synced: nat, failed: nat)

  /** What `fetch('/api/tech/sync', ...)` settles to. */
  datatype SyncReply = NetworkError | Replied(status: int)

  const SYNC_ENDPOINT: string := "/api/tech/sync"
  const SYNC_TAG: string := "sync-job-updates"

  /** `response.ok`: a 2xx status. */
  predicate IsOk(reply: SyncReply) {
    reply.Replied? && 200 <= reply.status <= 299
  }

  // ---------------------------------------------------------------------------
  // The action table of syncUpdate

  /** The four actions the table knows. */
  const KNOWN_ACTIONS: set<string> := {"start_travel", "arrive", "start_work", "complete"}

  /**
   * `eventMap[update.action]`, looking only at the table's own keys
   * (the corrected lookup; see EventMapLookupAsWritten).
   */
  function EventName(action: string): (r: Option<string>)
    ensures r.Some? <==> action in KNOWN_ACTIONS
  {
    if action == "start_travel" then Some("start_travel")
    else if action == "arrive" then Some("mark_arrived")
    else if action == "start_work" then Some("start_work")
    else if action == "complete" then Some("complete_job")
    else None
  }

  /** The table sends distinct actions to distinct server operations. */
  lemma EventNameInjective(a: string, b: string)
    requires EventName(a).Some? && EventName(a) == EventName(b)
    ensures a == b
  {
  }

  /** Property names every plain JavaScript object inherits from Object.prototype. */
  const OBJECT_PROTOTYPE_KEYS: set<string> := {
    "constructor", "toString", "toLocaleString", "valueOf", "hasOwnProperty",
    "isPrototypeOf", "propertyIsEnumerable", "__proto__", "__defineGetter__",
    "__defineSetter__", "__lookupGetter__", "__lookupSetter__"}

  /** The value a property read on the object literal yields. */
  datatype LookupValue = OwnName(name: string) | InheritedMember(key: string)

  /**
   * `eventMap[action]` as written: a plain object literal also answers for the
   * names it inherits, with a function or object, which is truthy.
   */
  function EventMapLookupAsWritten(action: string): (r: Option<LookupValue>)
    ensures r.Some? <==> action in KNOWN_ACTIONS || action in OBJECT_PROTOTYPE_KEYS
  {
    match EventName(action)
    case Some(n) => Some(OwnName(n))
    case None => if action in OBJECT_PROTOTYPE_KEYS then Some(InheritedMember(action)) else None
  }

  /**
   * As written, an update whose action is "toString" passes the
   * "Unknown action" guard and is posted to the server; the corrected table
   * rejects it without a call.
   */
  lemma InheritedNamePassesGuardAsWritten()
    ensures EventMapLookupAsWritten("toString").Some?
    ensures EventName("toString").None?
  {
  }

  // ---------------------------------------------------------------------------
  // syncUpdate

  /** syncUpdate sends a request for `u` at all. */
  predicate Sendable(u: PendingUpdate) {
    EventName(u.action).Some?
  }

  /** The body syncUpdate posts for `u`: the raw action, not the mapped name. */
  function BodyOf(u: PendingUpdate): SyncBody {
    SyncBody(u.action, u.jobId, u.data, u.timestamp)
  }

  /** What syncUpdate resolves to for `u` when the server answers `reply`. */
  predicate CallSucceeded(u: PendingUpdate, reply: SyncReply) {
    Sendable(u) && IsOk(reply)
  }

  /**
   * syncUpdate: never rejects.  An unknown action resolves to false with no
   * request; otherwise one request is sent and the result is `response.ok`.
   */
  method SyncUpdate(u: PendingUpdate, reply: SyncReply) returns (ok: bool, sent: Option<SyncBody>)
    ensures sent.Some? <==> u.action in KNOWN_ACTIONS
    ensures sent.Some? ==> sent.value.jobId == u.jobId && sent.value.action == u.action
                           && sent.value.data == u.data && sent.value.offlineTimestamp == u.timestamp
    ensures ok <==> sent.Some? && reply.Replied? && 200 <= reply.status < 300
  {
    var eventName := EventName(u.action);
    if eventName.None? {
      return false, None;
    }
    sent := Some(BodyOf(u));
    match reply
    case NetworkError =>
      ok := false;
    case Replied(status) =>
      ok := 200 <= status <= 299;
  }

  // ---------------------------------------------------------------------------
  // The queue as a value

  ghost predicate IdsAscending(rs: seq<PendingUpdate>) {
    forall i, j :: 0 <= i < j < |rs| ==> rs[i].id < rs[j].id
  }

  /** `store.delete(id)` on the record sequence. */
  function Without(rs: seq<PendingUpdate>, id: nat): seq<PendingUpdate>
    decreases |rs|
  {
    if |rs| == 0 then []
    else (if rs[0].id == id then [] else [rs[0]]) + Without(rs[1..], id)
  }

  /** Deleting an id keeps exactly the records with another id. */
  lemma {:induction false} WithoutMembers(rs: seq<PendingUpdate>, id: nat)
    ensures forall x :: x in Without(rs, id) <==> x in rs && x.id != id
    decreases |rs|
  {
    if |rs| > 0 {
      WithoutMembers(rs[1..], id);
      assert rs == [rs[0]] + rs[1..];
    }
  }

  /** Deletion never adds a record, so a lower bound on the keys survives it. */
  lemma WithoutAbove(rs: seq<PendingUpdate>, id: nat, bound: nat)
    requires forall k :: 0 <= k < |rs| ==> bound < rs[k].id
    ensures forall x :: x in Without(rs, id) ==> bound < x.id
  {
    WithoutMembers(rs, id);
    forall x | x in Without(rs, id) ensures bound < x.id {
      var k :| 0 <= k < |rs| && rs[k] == x;
    }
  }

  /** A record below every key of an ascending sequence extends it in key order. */
  lemma AscendingCons(h: PendingUpdate, t: seq<PendingUpdate>)
    requires IdsAscending(t) && forall x :: x in t ==> h.id < x.id
    ensures IdsAscending([h] + t)
  {
    var w := [h] + t;
    forall i, j | 0 <= i < j < |w| ensures w[i].id < w[j].id {
      assert w[j] == t[j - 1] && w[j] in t;
      if i > 0 {
        assert w[i] == t[i - 1];
      }
    }
  }

  /** Deleting an id keeps the key order of the rest. */
  lemma {:induction false} WithoutAscending(rs: seq<PendingUpdate>, id: nat)
    requires IdsAscending(rs)
    ensures IdsAscending(Without(rs, id))
    decreases |rs|
  {
    if |rs| > 0 {
      var rest := rs[1..];
      assert IdsAscending(rest) by {
        forall i, j | 0 <= i < j < |rest| ensures rest[i].id < rest[j].id {
          assert rest[i] == rs[i + 1] && rest[j] == rs[j + 1];
        }
      }
      WithoutAscending(rest, id);
      if rs[0].id != id {
        assert forall k :: 0 <= k < |rest| ==> rs[0].id < rest[k].id by {
          forall k | 0 <= k < |rest| ensures rs[0].id < rest[k].id {
            assert rest[k] == rs[k + 1];
          }
        }
        WithoutAbove(rest, id, rs[0].id);
        AscendingCons(rs[0], Without(rest, id));
      }
    }
  }

  /** Deleting an id that is present removes exactly one record. */
  lemma {:induction false} WithoutLength(rs: seq<PendingUpdate>, id: nat)
    requires IdsAscending(rs)
    ensures |Without(rs, id)| == if exists x :: x in rs && x.id == id then |rs| - 1 else |rs|
    decreases |rs|
  {
    if |rs| > 0 {
      assert IdsAscending(rs[1..]);
      WithoutLength(rs[1..], id);
      assert rs == [rs[0]] + rs[1..];
      if rs[0].id == id {
        forall x | x in rs[1..] ensures x.id != id {
          var k :| 0 <= k < |rs[1..]| && rs[1..][k] == x;
          assert rs[k + 1] == x;
        }
      }
    }
  }

  lemma {:induction false} WithoutConcat(a: seq<PendingUpdate>, b: seq<PendingUpdate>, id: nat)
    ensures Without(a + b, id) == Without(a, id) + Without(b, id)
    decreases |a|
  {
    if |a| > 0 {
      WithoutConcat(a[1..], b, id);
      assert (a + b)[1..] == a[1..] + b;
    } else {
      assert a + b == b;
    }
  }

  lemma {:induction false} WithoutAbsent(rs: seq<PendingUpdate>, id: nat)
    requires forall x :: x in rs ==> x.id != id
    ensures Without(rs, id) == rs
    decreases |rs|
  {
    if |rs| > 0 {
      WithoutAbsent(rs[1..], id);
      assert rs == [rs[0]] + rs[1..];
    }
  }

  /** Deleting the key of a record whose key is unique removes just that record. */
  lemma WithoutUnique(a: seq<PendingUpdate>, x: PendingUpdate, b: seq<PendingUpdate>)
    requires forall y :: y in a + b ==> y.id != x.id
    ensures Without(a + [x] + b, x.id) == a + b
  {
    forall y | y in a ensures y.id != x.id {
      assert y in a + b;
    }
    forall y | y in b ensures y.id != x.id {
      assert y in a + b;
    }
    WithoutConcat(a + [x], b, x.id);
    WithoutConcat(a, [x], x.id);
    WithoutAbsent(a, x.id);
    WithoutAbsent(b, x.id);
    assert Without([x], x.id) == [] by {
      assert [x][1..] == [];
    }
    assert Without(a + [x], x.id) == a;
  }

  // ---------------------------------------------------------------------------
  // The drain, as functions of the snapshot and the oracles

  /**
   * The server and the store during one drain: the reply to the request for
   * the k-th snapshot record and whether its delete succeeds.  Past the end
   * of the script the network is down.
   */
  datatype DrainOracle = DrainOracle(replies: seq<SyncReply>, deletesOk: seq<bool>)

  function ReplyAt(o: DrainOracle, k: nat): SyncReply {
    if k < |o.replies| then o.replies[k] else NetworkError
  }

  function DeleteOkAt(o: DrainOracle, k: nat): bool {
    k < |o.deletesOk| && o.deletesOk[k]
  }

  /** The k-th snapshot record leaves the store: its call succeeded and so did its delete. */
  predicate Removed(s: seq<PendingUpdate>, k: nat, o: DrainOracle)
    requires k < |s|
  {
    CallSucceeded(s[k], ReplyAt(o, k)) && DeleteOkAt(o, k)
  }

  /** The records among the first n of the snapshot that the drain leaves in the store. */
  function Kept(s: seq<PendingUpdate>, n: nat, o: DrainOracle): (r: seq<PendingUpdate>)
    requires n <= |s|
    ensures |r| <= n
    decreases n
  {
    if n == 0 then []
    else Kept(s, n - 1, o) + (if Removed(s, n - 1, o) then [] else [s[n - 1]])
  }

  /** The drain only ever keeps records of the snapshot prefix it has visited. */
  lemma {:induction false} KeptFromPrefix(s: seq<PendingUpdate>, n: nat, o: DrainOracle)
    requires n <= |s|
    ensures forall x :: x in Kept(s, n, o) ==> x in s[..n]
    decreases n
  {
    if n > 0 {
      KeptFromPrefix(s, n - 1, o);
      assert s[..n - 1] == s[..n][..n - 1];
    }
  }

  /** How many of the first n snapshot records the drain counted as synced. */
  function SyncedCount(s: seq<PendingUpdate>, n: nat, o: DrainOracle): (r: nat)
    requires n <= |s|
    ensures r <= n
    decreases n
  {
    if n == 0 then 0
    else SyncedCount(s, n - 1, o) + (if Removed(s, n - 1, o) then 1 else 0)
  }

  /** The requests sent for the first n snapshot records, in order. */
  function Calls(s: seq<PendingUpdate>, n: nat): seq<SyncCall>
    requires n <= |s|
    decreases n
  {
    if n == 0 then []
    else Calls(s, n - 1) + (if Sendable(s[n - 1]) then [SyncCall(s[n - 1].id, BodyOf(s[n - 1]))] else [])
  }

  /** The counts syncAll reports for a drain of `s`. */
  function DrainCounts(s: seq<PendingUpdate>, o: DrainOracle): SyncCounts {
    SyncCounts(SyncedCount(s, |s|, o), |s| - SyncedCount(s, |s|, o))
  }

  /** Everything kept from the first n records has a key below that of record n. */
  lemma KeptIdsBelow(s: seq<PendingUpdate>, n: nat, o: DrainOracle)
    requires n < |s|
    requires IdsAscending(s)
    ensures forall x :: x in Kept(s, n, o) ==> x.id < s[n].id
  {
    KeptFromPrefix(s, n, o);
    forall x | x in Kept(s, n, o) ensures x.id < s[n].id {
      assert x in s[..n];
      var j :| 0 <= j < n && s[..n][j] == x;
      assert s[j] == x;
    }
  }

  /** One step of the drain: deleting record i from the store the loop holds at that point. */
  lemma DrainStepRemoves(s: seq<PendingUpdate>, i: nat, o: DrainOracle)
    requires i < |s|
    requires IdsAscending(s)
    ensures Without(Kept(s, i, o) + s[i..], s[i].id) == Kept(s, i, o) + s[i + 1..]
  {
    var kept := Kept(s, i, o);
    KeptIdsBelow(s, i, o);
    forall y | y in s[i + 1..] ensures y.id != s[i].id {
      var m :| 0 <= m < |s[i + 1..]| && s[i + 1..][m] == y;
      assert s[i + 1 + m] == y;
    }
    assert s[i..] == [s[i]] + s[i + 1..];
    assert kept + s[i..] == kept + [s[i]] + s[i + 1..];
    WithoutUnique(kept, s[i], s[i + 1..]);
  }

  /** Every snapshot record is accounted for once: synced + kept = snapshot size. */
  lemma {:induction false} DrainAccounts(s: seq<PendingUpdate>, n: nat, o: DrainOracle)
    requires n <= |s|
    ensures SyncedCount(s, n, o) + |Kept(s, n, o)| == n
    decreases n
  {
    if n > 0 {
      DrainAccounts(s, n - 1, o);
    }
  }

  /** A snapshot record stays in the store exactly when it was not removed. */
  lemma {:induction false} KeptExactlyUnremoved(s: seq<PendingUpdate>, n: nat, o: DrainOracle, k: nat)
    requires n <= |s| && k < n
    requires IdsAscending(s)
    ensures s[k] in Kept(s, n, o) <==> !Removed(s, k, o)
    decreases n
  {
    if k < n - 1 {
      KeptExactlyUnremoved(s, n - 1, o, k);
      if !Removed(s, n - 1, o) {
        assert s[k] != s[n - 1] by { assert s[k].id < s[n - 1].id; }
      }
    } else {
      KeptIdsBelow(s, n - 1, o);
    }
  }

  /** The records left by a drain keep the store's key order (FIFO). */
  lemma {:induction false} KeptAscending(s: seq<PendingUpdate>, n: nat, o: DrainOracle)
    requires n <= |s|
    requires IdsAscending(s)
    ensures IdsAscending(Kept(s, n, o))
    decreases n
  {
    if n > 0 {
      KeptAscending(s, n - 1, o);
      var before := Kept(s, n - 1, o);
      if !Removed(s, n - 1, o) {
        var w := before + [s[n - 1]];
        forall i, j | 0 <= i < j < |w| ensures w[i].id < w[j].id {
          if j == |w| - 1 {
            assert w[i] == before[i] && w[i] in before;
            KeptFromPrefix(s, n - 1, o);
            assert w[i] in s[..n - 1];
            var m :| 0 <= m < n - 1 && s[..n - 1][m] == w[i];
            assert s[m].id < s[n - 1].id;
          } else {
            assert w[i] == before[i] && w[j] == before[j];
          }
        }
      }
    }
  }

  /** The drain posts one request per sendable record, for ascending ids. */
  lemma {:induction false} CallsAscending(s: seq<PendingUpdate>, n: nat)
    requires n <= |s|
    requires IdsAscending(s)
    ensures |Calls(s, n)| <= n
    ensures forall i, j :: 0 <= i < j < |Calls(s, n)| ==> Calls(s, n)[i].updateId < Calls(s, n)[j].updateId
    ensures forall c :: c in Calls(s, n) ==> exists k :: 0 <= k < n && c == SyncCall(s[k].id, BodyOf(s[k]))
    decreases n
  {
    if n > 0 {
      CallsAscending(s, n - 1);
      var before := Calls(s, n - 1);
      if Sendable(s[n - 1]) {
        var w := before + [SyncCall(s[n - 1].id, BodyOf(s[n - 1]))];
        forall i, j | 0 <= i < j < |w| ensures w[i].updateId < w[j].updateId {
          if j == |w| - 1 {
            assert w[i] == before[i] && w[i] in before;
            var k :| 0 <= k < n - 1 && w[i] == SyncCall(s[k].id, BodyOf(s[k]));
          } else {
            assert w[i] == before[i] && w[j] == before[j];
          }
        }
      }
    }
  }

  /**
   * Among the first n records, a record's request is sent exactly when it
   * is sendable; with CallsAscending, each is sent once.
   */
  lemma {:induction false} CallsExactlySendable(s: seq<PendingUpdate>, n: nat)
    requires n <= |s|
    ensures forall c :: c in Calls(s, n) ==> EventName(c.body.action).Some?
    ensures forall k :: 0 <= k < n ==> (Sendable(s[k]) <==> SyncCall(s[k].id, BodyOf(s[k])) in Calls(s, n))
    decreases n
  {
    if n > 0 {
      CallsExactlySendable(s, n - 1);
      var last := if Sendable(s[n - 1]) then [SyncCall(s[n - 1].id, BodyOf(s[n - 1]))] else [];
      assert Calls(s, n) == Calls(s, n - 1) + last;
      assert forall c :: c in last ==> EventName(c.body.action).Some?;
      forall k | 0 <= k < n
        ensures Sendable(s[k]) <==> SyncCall(s[k].id, BodyOf(s[k])) in Calls(s, n)
      {
        if k < n - 1 && SyncCall(s[k].id, BodyOf(s[k])) in last {
          // the same body means the same action, hence the same verdict of the guard
          assert s[k].action == BodyOf(s[k]).action == BodyOf(s[n - 1]).action == s[n - 1].action;
        }
      }
    }
  }

  /** Draining an empty queue syncs nothing, fails nothing and sends nothing. */
  lemma DrainEmpty(o: DrainOracle)
    ensures DrainCounts([], o) == SyncCounts(0, 0)
    ensures Calls([], 0) == [] && Kept([], 0, o) == []
  {
  }

  /** When every call and every delete succeeds, the whole snapshot of known actions leaves. */
  lemma {:induction false} DrainAllSucceed(s: seq<PendingUpdate>, n: nat, o: DrainOracle)
    requires n <= |s|
    requires forall k :: 0 <= k < n ==> Sendable(s[k]) && IsOk(ReplyAt(o, k)) && DeleteOkAt(o, k)
    ensures Kept(s, n, o) == [] && SyncedCount(s, n, o) == n
    ensures |Calls(s, n)| == n
    decreases n
  {
    if n > 0 {
      DrainAllSucceed(s, n - 1, o);
    }
  }

  // ---------------------------------------------------------------------------
  // The store object

  /** The database handle after `init` with the given outcome. */
  function DbAfterInit(db: Option<DbHandle>, open: OpenOutcome): Option<DbHandle> {
    if db.Some? then db else if open.Opened? then Some(open.handle) else None
  }

  class OfflineStorage {
    var db: Option<DbHandle>
    var isReady: bool
    /** The pending_updates object store, in key order. */
    var records: seq<PendingUpdate>
    /** The key generator: the id the next insert receives. */
    var nextId: nat

    ghost predicate Valid()
      reads this
    {
      && (isReady <==> db.Some?)
      && 1 <= nextId
      && IdsAscending(records)
      && (forall i :: 0 <= i < |records| ==> 1 <= records[i].id < nextId && !records[i].synced)
    }

    /**
     * `new OfflineStorage()` on a page whose database already holds
     * `persisted` with key generator at `generator` (the queue survives reloads).
     */
    constructor (persisted: seq<PendingUpdate>, generator: nat)
      requires 1 <= generator && IdsAscending(persisted)
      requires forall i :: 0 <= i < |persisted| ==> 1 <= persisted[i].id < generator && !persisted[i].synced
      ensures Valid()
      ensures db == None && !isReady && records == persisted && nextId == generator
    {
      db := None;
      isReady := false;
      records := persisted;
      nextId := generator;
    }

    /** init: returns the held handle without reopening; otherwise opens the database. */
    method Init(open: OpenOutcome) returns (r: Result<DbHandle, StoreError>)
      requires Valid()
      modifies this
      ensures Valid()
      ensures records == old(records) && nextId == old(nextId)
      ensures db == DbAfterInit(old(db), open)
      ensures old(db).Some? ==> r == Success(old(db).value) && isReady == old(isReady)
      ensures old(db).None? && open.Opened? ==> r == Success(open.handle)
      ensures old(db).None? && open.OpenError? ==> r == Failure(OpenRejected)
    {
      if db.Some? {
        return Success(db.value);
      }
      match open
      case Opened(h) =>
        db := Some(h);
        isReady := true;
        r := Success(h);
      case OpenError =>
        r := Failure(OpenRejected);
    }

    /** queueUpdate: appends one unsynced record under a fresh key and returns that key. */
    method QueueUpdate(action: string, jobId: string, data: map<string, string>, timestamp: string,
                       open: OpenOutcome, requestOk: bool)
      returns (r: Result<nat, StoreError>)
      requires Valid()
      modifies this
      ensures Valid()
      ensures db == DbAfterInit(old(db), open)
      ensures r.Success? <==> DbAfterInit(old(db), open).Some? && requestOk
      ensures r.Success? ==>
        && r.value == old(nextId)
        && (forall x :: x in old(records) ==> x.id < r.value)
        && records == old(records) + [PendingUpdate(r.value, action, jobId, data, timestamp, false)]
        && nextId == old(nextId) + 1
      ensures r.Failure? ==> records == old(records) && nextId == old(nextId)
    {
      var handle := Init(open);
      if handle.Failure? {
        return Failure(handle.error);
      }
      if !requestOk {
        return Failure(RequestRejected);
      }
      var id := nextId;
      records := records + [PendingUpdate(id, action, jobId, data, timestamp, false)];
      nextId := nextId + 1;
      r := Success(id);
    }

    /** getPendingUpdates: every resident record, in key order. */
    method GetPendingUpdates(open: OpenOutcome, requestOk: bool) returns (r: Result<seq<PendingUpdate>, StoreError>)
      requires Valid()
      modifies this
      ensures Valid()
      ensures records == old(records) && nextId == old(nextId)
      ensures db == DbAfterInit(old(db), open)
      ensures r.Success? <==> DbAfterInit(old(db), open).Some? && requestOk
      ensures r.Success? ==> r.value == records
    {
      var handle := Init(open);
      if handle.Failure? {
        return Failure(handle.error);
      }
      if !requestOk {
        return Failure(RequestRejected);
      }
      r := Success(records);
    }

    /** getPendingCount: the number of resident records. */
    method GetPendingCount(open: OpenOutcome, requestOk: bool) returns (r: Result<nat, StoreError>)
      requires Valid()
      modifies this
      ensures Valid()
      ensures records == old(records) && nextId == old(nextId)
      ensures db == DbAfterInit(old(db), open)
      ensures r.Success? <==> DbAfterInit(old(db), open).Some? && requestOk
      ensures r.Success? ==> r.value == |records|
    {
      var handle := Init(open);
      if handle.Failure? {
        return Failure(handle.error);
      }
      if !requestOk {
        return Failure(RequestRejected);
      }
      r := Success(|records|);
    }

    /** removeUpdate: deletes the record with key `id`; an absent key is no error. */
    method RemoveUpdate(id: nat, open: OpenOutcome, requestOk: bool) returns (r: Result<(), StoreError>)
      requires Valid()
      modifies this
      ensures Valid()
      ensures nextId == old(nextId)
      ensures db == DbAfterInit(old(db), open)
      ensures r.Success? <==> DbAfterInit(old(db), open).Some? && requestOk
      ensures r.Success? ==> records == Without(old(records), id)
      ensures r.Failure? ==> records == old(records)
    {
      var handle := Init(open);
      if handle.Failure? {
        return Failure(handle.error);
      }
      if !requestOk {
        return Failure(RequestRejected);
      }
      WithoutMembers(records, id);
      WithoutAscending(records, id);
      records := Without(records, id);
      r := Success(());
    }

    /** The state after the first i records of the snapshot have been sent. */
    ghost predicate DrainedTo(updates: seq<PendingUpdate>, i: nat, o: DrainOracle,
                              synced: nat, failed: nat, calls: seq<SyncCall>)
      reads this
    {
      && i <= |updates|
      && Valid() && db.Some? && IdsAscending(updates)
      && records == Kept(updates, i, o) + updates[i..]
      && synced == SyncedCount(updates, i, o) && failed == i - synced
      && calls == Calls(updates, i)
    }

    /**
     * One pass of syncAll's loop body for the i-th snapshot record: syncUpdate,
     * then removeUpdate when the call succeeded; a rejected delete is caught.
     * The record counts as synced only when both steps succeeded, otherwise
     * as failed; the request it sent, if any, joins the call trace.
     */
    method SyncOne(updates: seq<PendingUpdate>, i: nat, o: DrainOracle,
                   synced0: nat, failed0: nat, calls0: seq<SyncCall>)
      returns (synced: nat, failed: nat, calls: seq<SyncCall>)
      requires i < |updates| && DrainedTo(updates, i, o, synced0, failed0, calls0)
      modifies this
      ensures db == old(db) && nextId == old(nextId)
      ensures DrainedTo(updates, i + 1, o, synced, failed, calls)
    {
      var u := updates[i];
      var ok, sent := SyncUpdate(u, ReplyAt(o, i));
      assert ok == CallSucceeded(u, ReplyAt(o, i));
      calls := calls0 + if sent.Some? then [SyncCall(u.id, sent.value)] else [];
      ghost var kept := Kept(updates, i, o);
      assert updates[i..] == [u] + updates[i + 1..];
      var removed := false;
      if ok {
        var done := RemoveUpdate(u.id, OpenError, DeleteOkAt(o, i));
        if done.Success? {
          DrainStepRemoves(updates, i, o);
          removed := true;
          assert Kept(updates, i + 1, o) == kept;
        }
      }
      if removed {
        synced, failed := synced0 + 1, failed0;
      } else {
        synced, failed := synced0, failed0 + 1;
        assert Kept(updates, i + 1, o) == kept + [u];
        assert records == kept + [u] + updates[i + 1..];
      }
    }

    /**
     * syncAll: drains a snapshot of the queue in key order, one request per
     * record with a known action, deleting a record only after its request
     * succeeded; a failed call or delete is counted and the loop goes on.
     * Reading the snapshot can reject, and then nothing is sent.
     */
    method SyncAll(open: OpenOutcome, listOk: bool, o: DrainOracle)
      returns (r: Result<SyncCounts, StoreError>, calls: seq<SyncCall>)
      requires Valid()
      modifies this
      ensures Valid()
      ensures nextId == old(nextId)
      ensures db == DbAfterInit(old(db), open)
      ensures r.Success? <==> DbAfterInit(old(db), open).Some? && listOk
      ensures r.Failure? ==> records == old(records) && calls == []
      ensures r.Success? ==>
        && r.value == DrainCounts(old(records), o)
        && records == Kept(old(records), |old(records)|, o)
        && calls == Calls(old(records), |old(records)|)
    {
      var list := GetPendingUpdates(open, listOk);
      if list.Failure? {
        return Failure(list.error), [];
      }
      var updates := list.value;
      if |updates| == 0 {
        return Success(SyncCounts(0, 0)), [];
      }
      var counts;
      counts, calls := Drain(updates, o);
      r := Success(counts);
    }

    /** The loop of syncAll over a snapshot that is the whole queue. */
    method Drain(updates: seq<PendingUpdate>, o: DrainOracle) returns (counts: SyncCounts, calls: seq<SyncCall>)
      requires Valid() && db.Some? && records == updates
      modifies this
      ensures Valid() && db == old(db) && nextId == old(nextId)
      ensures counts == DrainCounts(updates, o)
      ensures records == Kept(updates, |updates|, o)
      ensures calls == Calls(updates, |updates|)
    {
      var synced: nat, failed: nat := 0, 0;
      calls := [];
      var i: nat := 0;
      DrainStarts(updates, o);
      while i < |updates|
        invariant i <= |updates|
        invariant DrainedTo(updates, i, o, synced, failed, calls)
        invariant db == old(db) && nextId == old(nextId)
      {
        synced, failed, calls := SyncOne(updates, i, o, synced, failed, calls);
        i := i + 1;
      }
      DrainEnds(updates, o, synced, failed, calls);
      counts := SyncCounts(synced, failed);
    }

    /** Before the loop nothing has been sent and the store is the snapshot. */
    lemma DrainStarts(updates: seq<PendingUpdate>, o: DrainOracle)
      requires Valid() && db.Some? && records == updates
      ensures DrainedTo(updates, 0, o, 0, 0, [])
    {
      assert updates[0..] == updates;
    }

    /** After the whole snapshot, the store and the counts are those of the drain. */
    lemma DrainEnds(updates: seq<PendingUpdate>, o: DrainOracle, synced: nat, failed: nat, calls: seq<SyncCall>)
      requires DrainedTo(updates, |updates|, o, synced, failed, calls)
      ensures Valid() && records == Kept(updates, |updates|, o) && calls == Calls(updates, |updates|)
      ensures SyncCounts(synced, failed) == DrainCounts(updates, o)
    {
      assert updates[|updates|..] == [];
      DrainAccounts(updates, |updates|, o);
    }
  }
}
