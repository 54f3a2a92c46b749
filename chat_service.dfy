/** The session and history store (src/services/chatService.ts): five
    operations over one Redis server. Each operation is a method on the
    service, which owns the shared client and the configured TTL, and is
    specified by a function on the store's state; the properties of the
    operations are lemmas about those functions. */
module ChatService {
  import opened Base
  import opened Messages
  import opened Redis

  const DEFAULT_TTL_SECONDS := 3600

  /** `Number(process.env.SESSION_TTL) || 3600`: `configured` is None when
      the variable is unset or not a number; zero also falls back. */
  function SessionTtl(configured: Option<int>): (ttl: int)
    ensures ttl != 0
    ensures configured.Some? && configured.value != 0 ==> ttl == configured.value
    ensures !(configured.Some? && configured.value != 0) ==> ttl == DEFAULT_TTL_SECONDS
  {
    if configured.Some? && configured.value != 0 then configured.value else DEFAULT_TTL_SECONDS
  }

  /** Which Redis call of one operation throws, counting from 0 in the order
      the operation issues them. The calls before it have taken effect, the
      throwing call has not, and the operation's catch clause handles the
      rest. A call applied by the server whose reply is lost is not modelled. */
  datatype Fault = NoFault | ThrowsAt(call: nat)

  /** createSession: ZADD the id with score `now`, then EXPIRE its list key.
      Returns the new state and the id, or "" when a call threw. */
  function CreateSessionSpec(db: Db, freshId: string, now: int, ttl: int, fault: Fault): (Db, string)
  {
    if fault == ThrowsAt(0) then (db, "")
    else
      var db1 := AfterZAdd(db, freshId, now);
      if fault == ThrowsAt(1) then (db1, "")
      else (AfterExpire(db1, freshId, ttl, now), freshId)
  }

  /** handleMessage: RPUSH the message, ZADD the id with score `now`, EXPIRE the list. */
  function HandleMessageSpec(db: Db, sid: string, msg: Message, now: int, ttl: int, fault: Fault): Db
  {
    if fault == ThrowsAt(0) then db
    else
      var db1 := AfterRPush(db, sid, msg, now);
      if fault == ThrowsAt(1) then db1
      else
        var db2 := AfterZAdd(db1, sid, now);
        if fault == ThrowsAt(2) then db2
        else AfterExpire(db2, sid, ttl, now)
  }

  /** getHistory: LRANGE the whole list, or [] when the call threw. */
  function HistorySpec(db: Db, sid: string, now: int, fault: Fault): seq<Message>
  {
    if fault == ThrowsAt(0) then [] else ListAt(db, sid, now)
  }

  /** clearSession: DEL the list, then ZREM the id. */
  function ClearSpec(db: Db, sid: string, fault: Fault): Db
  {
    if fault == ThrowsAt(0) then db
    else
      var db1 := AfterDel(db, sid);
      if fault == ThrowsAt(1) then db1 else AfterZRem(db1, sid)
  }

  /** The last-activity scores at or below the cutoff are stale. */
  function Cutoff(now: int, ttl: int): (cutoff: int)
    ensures now - cutoff == ttl * 1000
    ensures ttl > 0 ==> cutoff < now
  {
    now - ttl * 1000
  }

  /** Delete the lists of the given sessions. */
  function WithoutLists(db: Db, ids: set<string>): Db
  {
    db.(lists := db.lists - ids, expiresAt := db.expiresAt - ids)
  }

  /** The members getSessions reaps: scores in the inclusive range [0, cutoff]. */
  function Stale(db: Db, cutoff: int): set<string>
  {
    ScoreRange(db.index, 0, cutoff).Keys
  }

  /** The cleanup of getSessions when no call throws: stale ids leave the
      index and their lists are deleted. */
  function SweepSpec(db: Db, cutoff: int): Db
  {
    WithoutLists(AfterZRemRangeByScore(db, 0, cutoff), Stale(db, cutoff))
  }

  /** The index of getSessions' last call (ZRANGE REV) when `n` ids are stale. */
  function LastCall(n: nat): nat
  {
    if n == 0 then 1 else n + 2
  }

  /** The ids of a ranking are exactly the members ranked. */
  lemma RankedMembers(ids: seq<string>, m: map<string, int>, desc: bool)
    requires Ranked(ids, m, desc)
    ensures (set j | 0 <= j < |ids| :: ids[j]) == m.Keys
  {
  }

  /** With nothing stale the sweep changes nothing. */
  lemma NothingStale(db: Db, cutoff: int)
    requires |ScoreRange(db.index, 0, cutoff)| == 0
    ensures SweepSpec(db, cutoff) == db
  {
    assert Stale(db, cutoff) == {};
    assert AfterZRemRangeByScore(db, 0, cutoff).index == db.index;
  }

  /** createSession yields "" exactly when one of its two calls throws;
      otherwise the fresh id, scored `now` in the index. No list is created,
      so a new id has an empty history. When the EXPIRE throws, the id is
      already in the index although "" is returned. */
  lemma CreateSessionOutcome(db: Db, freshId: string, now: int, ttl: int, fault: Fault)
    requires freshId != ""
    ensures var (db', sid) := CreateSessionSpec(db, freshId, now, ttl, fault);
      (sid == "" <==> fault == ThrowsAt(0) || fault == ThrowsAt(1)) &&
      (sid != "" ==> sid == freshId && freshId in db'.index && db'.index[freshId] == now) &&
      (fault == ThrowsAt(1) ==> db'.index == db.index[freshId := now]) &&
      db'.lists.Keys <= db.lists.Keys &&
      (freshId !in db.lists ==> forall t :: ListAt(db', freshId, t) == [])
  {
  }

  /** handleMessage with no failure appends exactly `msg` to the live
      history, scores the session `now`, and sets the list to expire TTL
      seconds from now. */
  lemma HandleMessageAppends(db: Db, sid: string, msg: Message, now: int, ttl: int)
    requires ttl > 0
    ensures var db' := HandleMessageSpec(db, sid, msg, now, ttl, NoFault);
      db'.index == db.index[sid := now] &&
      sid in db'.expiresAt && db'.expiresAt[sid] == now + ttl * 1000 &&
      (forall t :: t <= now + ttl * 1000 ==> ListAt(db', sid, t) == ListAt(db, sid, now) + [msg])
  {
  }

  /** Every session other than `sid` has the same list, expiry and score in both states. */
  ghost predicate AgreeElsewhere(db: Db, db': Db, sid: string)
  {
    (forall k :: k != sid ==> (k in db'.lists <==> k in db.lists) && (k in db'.lists ==> db'.lists[k] == db.lists[k])) &&
    (forall k :: k != sid ==> (k in db'.expiresAt <==> k in db.expiresAt) && (k in db'.expiresAt ==> db'.expiresAt[k] == db.expiresAt[k])) &&
    (forall k :: k != sid ==> (k in db'.index <==> k in db.index) && (k in db'.index ==> db'.index[k] == db.index[k]))
  }

  lemma AgreeElsewhereTrans(a: Db, b: Db, c: Db, sid: string)
    requires AgreeElsewhere(a, b, sid) && AgreeElsewhere(b, c, sid)
    ensures AgreeElsewhere(a, c, sid)
  {
  }

  lemma RPushIsolated(db: Db, sid: string, msg: Message, now: int)
    ensures AgreeElsewhere(db, AfterRPush(db, sid, msg, now), sid)
  {
  }

  lemma ZAddIsolated(db: Db, sid: string, score: int)
    ensures AgreeElsewhere(db, AfterZAdd(db, sid, score), sid)
  {
  }

  lemma ExpireIsolated(db: Db, sid: string, ttl: int, now: int)
    ensures AgreeElsewhere(db, AfterExpire(db, sid, ttl, now), sid)
  {
  }

  /** handleMessage, whichever call fails, leaves every other session's list,
      expiry and score unchanged. */
  lemma HandleMessageIsolated(db: Db, sid: string, msg: Message, now: int, ttl: int, fault: Fault)
    ensures AgreeElsewhere(db, HandleMessageSpec(db, sid, msg, now, ttl, fault), sid)
  {
    var db1 := AfterRPush(db, sid, msg, now);
    var db2 := AfterZAdd(db1, sid, now);
    RPushIsolated(db, sid, msg, now);
    ZAddIsolated(db1, sid, now);
    ExpireIsolated(db2, sid, ttl, now);
    AgreeElsewhereTrans(db, db1, db2, sid);
    AgreeElsewhereTrans(db, db2, AfterExpire(db2, sid, ttl, now), sid);
  }

  /** handleMessage applied to each message in turn, at the given times. */
  function HandleAll(db: Db, sid: string, msgs: seq<Message>, times: seq<int>, ttl: int): Db
    requires |msgs| == |times|
    decreases |msgs|
  {
    if |msgs| == 0 then db
    else HandleAll(HandleMessageSpec(db, sid, msgs[0], times[0], ttl, NoFault), sid, msgs[1..], times[1..], ttl)
  }

  /** N appends, each within the TTL window of the previous one, read back
      within the window of the last: the history is the earlier one followed
      by exactly those N messages in call order. */
  lemma {:induction false} AppendsInOrder(db: Db, sid: string, msgs: seq<Message>, times: seq<int>, ttl: int, t: int)
    requires ttl > 0 && |msgs| == |times| > 0
    requires forall i :: 0 <= i < |times| - 1 ==> times[i + 1] <= times[i] + ttl * 1000
    requires t <= times[|times| - 1] + ttl * 1000
    ensures ListAt(HandleAll(db, sid, msgs, times, ttl), sid, t) == ListAt(db, sid, times[0]) + msgs
    decreases |msgs|
  {
    var db1 := HandleMessageSpec(db, sid, msgs[0], times[0], ttl, NoFault);
    HandleMessageAppends(db, sid, msgs[0], times[0], ttl);
    if |msgs| > 1 {
      AppendsInOrder(db1, sid, msgs[1..], times[1..], ttl, t);
      assert times[1] <= times[0] + ttl * 1000;
      assert [msgs[0]] + msgs[1..] == msgs;
    }
  }

  /** clearSession removes the list and the index entry; a second call, even
      one that fails, leaves the same state as the first. */
  lemma ClearIdempotent(db: Db, sid: string, fault: Fault)
    ensures var once := ClearSpec(db, sid, NoFault);
      sid !in once.index && sid !in once.lists && (forall t :: ListAt(once, sid, t) == []) &&
      ClearSpec(once, sid, fault) == once
  {
    var once := ClearSpec(db, sid, NoFault);
    assert AfterDel(once, sid) == once;
    assert AfterZRem(once, sid) == once;
  }

  /** getSessions' cleanup: an id scored in [0, cutoff] leaves the index and
      its history reads empty; every other id keeps its score, list and expiry. */
  lemma SweepReapsExactlyStale(db: Db, cutoff: int)
    ensures var db' := SweepSpec(db, cutoff);
      (forall k :: k in db.index && 0 <= db.index[k] <= cutoff ==>
        k !in db'.index && k !in db'.lists && forall t :: ListAt(db', k, t) == []) &&
      (forall k :: k in db.index && !(0 <= db.index[k] <= cutoff) ==> k in db'.index && db'.index[k] == db.index[k]) &&
      (forall k :: k in db'.index ==> k in db.index) &&
      (forall k :: k !in Stale(db, cutoff) ==>
        (k in db'.lists <==> k in db.lists) && (k in db.lists ==> db'.lists[k] == db.lists[k]) &&
        (k in db'.expiresAt <==> k in db.expiresAt) && (k in db.expiresAt ==> db'.expiresAt[k] == db.expiresAt[k]))
  {
  }

  /** A session created at `created` is listed by any later getSessions whose
      cutoff has not reached it, and its history is empty. */
  lemma CreatedSessionListed(db: Db, freshId: string, created: int, ttl: int, now: int, active: seq<string>)
    requires freshId != "" && freshId !in db.lists
    requires Cutoff(now, ttl) < created
    requires Ranked(active, SweepSpec(CreateSessionSpec(db, freshId, created, ttl, NoFault).0, Cutoff(now, ttl)).index, true)
    ensures freshId in active
    ensures ListAt(SweepSpec(CreateSessionSpec(db, freshId, created, ttl, NoFault).0, Cutoff(now, ttl)), freshId, now) == []
  {
    var db1 := CreateSessionSpec(db, freshId, created, ttl, NoFault).0;
    SweepReapsExactlyStale(db1, Cutoff(now, ttl));
    assert freshId in SweepSpec(db1, Cutoff(now, ttl)).index;
  }

  /** Every id that has a list is in the session index. */
  predicate Consistent(db: Db)
  {
    db.lists.Keys <= db.index.Keys
  }

  /** Creation, clearing (even when it fails half-way), a failure-free append
      and a failure-free cleanup of getSessions keep every list's id in the
      index. */
  lemma ConsistencyPreserved(db: Db, sid: string, msg: Message, now: int, ttl: int, fault: Fault, cutoff: int)
    requires Consistent(db)
    ensures Consistent(CreateSessionSpec(db, sid, now, ttl, fault).0)
    ensures Consistent(HandleMessageSpec(db, sid, msg, now, ttl, NoFault))
    ensures Consistent(ClearSpec(db, sid, fault))
    ensures Consistent(SweepSpec(db, cutoff))
  {
  }

  /** When the ZADD of handleMessage throws after its RPUSH, a list is left
      whose id is not in the index: getSessions neither lists nor reaps it. */
  lemma HandleMessageFailureLeavesOrphan(sid: string, msg: Message, now: int, ttl: int)
    ensures var db' := HandleMessageSpec(Empty, sid, msg, now, ttl, ThrowsAt(1));
      Consistent(Empty) && !Consistent(db') && ListAt(db', sid, now) == [msg]
  {
    var db' := HandleMessageSpec(Empty, sid, msg, now, ttl, ThrowsAt(1));
    assert sid in db'.lists && sid !in db'.index;
  }

  /** When the first DEL of getSessions' cleanup throws, ZREMRANGEBYSCORE has
      already dropped the stale id from the index, but its list survives:
      later cleanups no longer find it. */
  lemma SweepFailureLeavesOrphan(sid: string, score: int, cutoff: int)
    requires 0 <= score <= cutoff
    ensures var db := Db(map[sid := score], map[sid := []], map[]);
      var db' := WithoutLists(AfterZRemRangeByScore(db, 0, cutoff), {});
      Consistent(db) && !Consistent(db') && sid in db'.lists && sid !in db'.index
  {
    var db := Db(map[sid := score], map[sid := []], map[]);
    var db' := WithoutLists(AfterZRemRangeByScore(db, 0, cutoff), {});
    assert sid in db'.lists;
  }

  /** The service module: the shared Redis client and the configured TTL. */
  class Service {
    const store: Store
    const ttlSeconds: int

    constructor (store: Store, configuredTtl: Option<int>)
      ensures this.store == store && ttlSeconds == SessionTtl(configuredTtl)
    {
      this.store := store;
      ttlSeconds := SessionTtl(configuredTtl);
    }

    /** `freshId` stands for `crypto.randomUUID()`. */
    method CreateSession(freshId: string, now: int, fault: Fault) returns (sid: string)
      modifies store
      ensures (store.State(), sid) == CreateSessionSpec(old(store.State()), freshId, now, ttlSeconds, fault)
    {
      if fault == ThrowsAt(0) { return ""; }
      store.ZAdd(freshId, now);
      if fault == ThrowsAt(1) { return ""; }
      store.Expire(freshId, ttlSeconds, now);
      return freshId;
    }

    method HandleMessage(sid: string, msg: Message, now: int, fault: Fault)
      modifies store
      ensures store.State() == HandleMessageSpec(old(store.State()), sid, msg, now, ttlSeconds, fault)
    {
      if fault == ThrowsAt(0) { return; }
      store.RPush(sid, msg, now);
      if fault == ThrowsAt(1) { return; }
      store.ZAdd(sid, now);
      if fault == ThrowsAt(2) { return; }
      store.Expire(sid, ttlSeconds, now);
    }

    method GetHistory(sid: string, now: int, fault: Fault) returns (history: seq<Message>)
      ensures history == HistorySpec(store.State(), sid, now, fault)
    {
      if fault == ThrowsAt(0) { return []; }
      history := store.LRange(sid, now);
    }

    method ClearSession(sid: string, fault: Fault)
      modifies store
      ensures store.State() == ClearSpec(old(store.State()), sid, fault)
    {
      if fault == ThrowsAt(0) { return; }
      store.Del(sid);
      if fault == ThrowsAt(1) { return; }
      store.ZRem(sid);
    }

    /** The DEL loop of getSessions: delete the listed sessions' lists in
        order, the j-th DEL being call 2 + j, until one throws. Returns how
        many were deleted. */
    method DeleteLists(ids: seq<string>, fault: Fault) returns (deleted: nat)
      modifies store
      ensures deleted <= |ids|
      ensures deleted < |ids| <==> fault.ThrowsAt? && 2 <= fault.call < |ids| + 2
      ensures deleted < |ids| ==> deleted == fault.call - 2
      ensures store.State() == WithoutLists(old(store.State()), set j | 0 <= j < deleted :: ids[j])
    {
      ghost var db1 := store.State();
      deleted := 0;
      while deleted < |ids|
        invariant deleted <= |ids|
        invariant !(fault.ThrowsAt? && 2 <= fault.call < deleted + 2)
        invariant store.State() == WithoutLists(db1, set j | 0 <= j < deleted :: ids[j])
      {
        if fault == ThrowsAt(deleted + 2) { return; }
        store.Del(ids[deleted]);
        assert (set j | 0 <= j < deleted + 1 :: ids[j]) == (set j | 0 <= j < deleted :: ids[j]) + {ids[deleted]};
        deleted := deleted + 1;
      }
    }

    /** getSessions: reap the stale sessions, then list the remaining ones
        most recent first. `expired` is the ZRANGEBYSCORE reply, lowest score
        first; the lists are deleted in that order. Calls: 0 ZRANGEBYSCORE,
        then, when something is stale, 1 ZREMRANGEBYSCORE and 2 .. n+1 the
        n DELs; the last call is ZRANGE REV. */
    method GetSessions(now: int, fault: Fault) returns (active: seq<string>, ghost expired: seq<string>)
      modifies store
      ensures fault != ThrowsAt(0) ==> Ranked(expired, ScoreRange(old(store.index), 0, Cutoff(now, ttlSeconds)), false)
      ensures fault.ThrowsAt? && fault.call <= LastCall(|expired|) ==> active == []
      ensures fault == ThrowsAt(0) || (|expired| > 0 && fault == ThrowsAt(1)) ==> store.State() == old(store.State())
      ensures |expired| > 0 && fault.ThrowsAt? && 2 <= fault.call < LastCall(|expired|) ==>
        store.State() == WithoutLists(AfterZRemRangeByScore(old(store.State()), 0, Cutoff(now, ttlSeconds)),
                                      set i | 0 <= i < fault.call - 2 :: expired[i])
      ensures !(fault.ThrowsAt? && fault.call < LastCall(|expired|)) ==>
        store.State() == SweepSpec(old(store.State()), Cutoff(now, ttlSeconds))
      ensures !(fault.ThrowsAt? && fault.call <= LastCall(|expired|)) ==> Ranked(active, store.index, true)
    {
      var cutoff := Cutoff(now, ttlSeconds);
      ghost var db0 := store.State();
      active, expired := [], [];
      if fault == ThrowsAt(0) { return; }
      var stale := store.ZRangeByScore(0, cutoff);
      expired := stale;
      if |stale| > 0 {
        if fault == ThrowsAt(1) { return; }
        store.ZRemRangeByScore(0, cutoff);
        var deleted := DeleteLists(stale, fault);
        if deleted < |stale| { return; }
        RankedMembers(stale, ScoreRange(db0.index, 0, cutoff), false);
      } else {
        NothingStale(db0, cutoff);
      }
      if fault == ThrowsAt(LastCall(|stale|)) { return; }
      active := store.ZRangeRev();
    }
  }
}
