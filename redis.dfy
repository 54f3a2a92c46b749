/** The part of Redis the chat service uses: one sorted set (the session
    index, member -> score), lists of messages keyed by session id, and an
    expiry time on each list. Time is in milliseconds; `now` is passed to every
    command that depends on the clock. */
module Redis {
  import opened Messages
  import Order

  /** The observable state of the store. */
  datatype Db = Db(index: map<string, int>, lists: map<string, seq<Message>>, expiresAt: map<string, int>)

  const Empty := Db(map[], map[], map[])

  /** A list exists and its expiry, if any, has not passed: Redis treats a key
      as expired only once the clock is strictly past its expiry time. */
  function Live(db: Db, key: string, now: int): (live: bool)
    ensures live ==> key in db.lists
    ensures key in db.lists && key !in db.expiresAt ==> live
    ensures key in db.expiresAt && now <= db.expiresAt[key] ==> (live <==> key in db.lists)
    ensures key in db.expiresAt && db.expiresAt[key] < now ==> !live
  {
    key in db.lists && (key !in db.expiresAt || now <= db.expiresAt[key])
  }

  /** LRANGE key 0 -1: the whole list, or nothing for an absent or expired key. */
  function ListAt(db: Db, key: string, now: int): (r: seq<Message>)
    ensures !Live(db, key, now) ==> r == []
  {
    if Live(db, key, now) then db.lists[key] else []
  }

  /** RPUSH key v: append to a live list (keeping its expiry), or start a new
      one-element list without expiry in place of an absent or expired key. */
  function AfterRPush(db: Db, key: string, v: Message, now: int): Db
  {
    if Live(db, key, now) then db.(lists := db.lists[key := db.lists[key] + [v]])
    else db.(lists := db.lists[key := [v]], expiresAt := db.expiresAt - {key})
  }

  /** DEL key. */
  function AfterDel(db: Db, key: string): Db
  {
    db.(lists := db.lists - {key}, expiresAt := db.expiresAt - {key})
  }

  /** EXPIRE key seconds: a no-op on an absent or expired key; a non-positive
      timeout deletes the key; otherwise the expiry is set `seconds` from now. */
  function AfterExpire(db: Db, key: string, seconds: int, now: int): Db
  {
    if !Live(db, key, now) then db
    else if seconds <= 0 then AfterDel(db, key)
    else db.(expiresAt := db.expiresAt[key := now + seconds * 1000])
  }

  /** ZADD: insert the member or update its score. */
  function AfterZAdd(db: Db, member: string, score: int): Db
  {
    db.(index := db.index[member := score])
  }

  /** ZREM. */
  function AfterZRem(db: Db, member: string): Db
  {
    db.(index := db.index - {member})
  }

  /** The members whose score lies in the closed range [lo, hi]. */
  function ScoreRange(index: map<string, int>, lo: int, hi: int): (r: map<string, int>)
    ensures forall k :: k in r <==> k in index && lo <= index[k] <= hi
    ensures forall k :: k in r ==> r[k] == index[k]
  {
    map k | k in index && lo <= index[k] <= hi :: index[k]
  }

  /** ZREMRANGEBYSCORE lo hi: both bounds inclusive. */
  function AfterZRemRangeByScore(db: Db, lo: int, hi: int): Db
  {
    db.(index := map k | k in db.index && !(lo <= db.index[k] <= hi) :: db.index[k])
  }

  /** `a` sorts above `b` in the sorted set: a higher score, or the same score
      and a lexicographically greater member. */
  predicate Above(m: map<string, int>, a: string, b: string)
  {
    a in m && b in m && (m[a] > m[b] || (m[a] == m[b] && Order.LexLess(b, a)))
  }

  /** `a` comes before `b` in a descending (REV) or ascending range. */
  predicate Precedes(m: map<string, int>, a: string, b: string, desc: bool)
  {
    if desc then Above(m, a, b) else Above(m, b, a)
  }

  /** `ids` lists every member of `m` exactly once, in sorted-set order. */
  predicate Ranked(ids: seq<string>, m: map<string, int>, desc: bool)
  {
    (forall i :: 0 <= i < |ids| ==> ids[i] in m) &&
    (forall k :: k in m ==> k in ids) &&
    (forall i, j :: 0 <= i < j < |ids| ==> Precedes(m, ids[i], ids[j], desc))
  }

  lemma PrecedesIrreflexive(m: map<string, int>, a: string, desc: bool)
    ensures !Precedes(m, a, a, desc)
  {
    Order.LexIrreflexive(a);
  }

  lemma PrecedesTotal(m: map<string, int>, a: string, b: string, desc: bool)
    requires a in m && b in m && a != b
    ensures Precedes(m, a, b, desc) || Precedes(m, b, a, desc)
  {
    Order.LexTotal(a, b);
  }

  lemma PrecedesTransitive(m: map<string, int>, a: string, b: string, c: string, desc: bool)
    requires Precedes(m, a, b, desc) && Precedes(m, b, c, desc)
    ensures Precedes(m, a, c, desc)
  {
    if desc {
      if m[a] == m[b] == m[c] { Order.LexTransitive(c, b, a); }
    } else {
      if m[a] == m[b] == m[c] { Order.LexTransitive(a, b, c); }
    }
  }

  /** Every non-empty set of members has a first one in range order. */
  lemma {:induction false} FirstExists(m: map<string, int>, s: set<string>, desc: bool)
    requires s != {} && s <= m.Keys
    ensures exists x :: x in s && forall k :: k in s && k != x ==> Precedes(m, x, k, desc)
    decreases s
  {
    var y :| y in s;
    if s != {y} {
      var t := s - {y};
      FirstExists(m, t, desc);
      var x :| x in t && forall k :: k in t && k != x ==> Precedes(m, x, k, desc);
      PrecedesTotal(m, x, y, desc);
      if Precedes(m, x, y, desc) {
        assert forall k :: k in s && k != x ==> Precedes(m, x, k, desc);
      } else {
        forall k | k in s && k != y
          ensures Precedes(m, y, k, desc)
        {
          if k != x { PrecedesTransitive(m, y, x, k, desc); }
        }
      }
    }
  }

  /** How Redis enumerates a sorted set: repeatedly take the first remaining
      member, so that the result lists every member once, in range order. */
  method Rank(m: map<string, int>, desc: bool) returns (ids: seq<string>)
    ensures Ranked(ids, m, desc)
  {
    var rest := m.Keys;
    ids := [];
    while rest != {}
      invariant rest <= m.Keys
      invariant forall i :: 0 <= i < |ids| ==> ids[i] in m && ids[i] !in rest
      invariant forall k :: k in m ==> k in rest || k in ids
      invariant forall i, j :: 0 <= i < j < |ids| ==> Precedes(m, ids[i], ids[j], desc)
      invariant forall i, k :: 0 <= i < |ids| && k in rest ==> Precedes(m, ids[i], k, desc)
      decreases rest
    {
      FirstExists(m, rest, desc);
      var x :| x in rest && forall k :: k in rest && k != x ==> Precedes(m, x, k, desc);
      ids := ids + [x];
      rest := rest - {x};
    }
  }

  /** A ranking holds no member twice. */
  lemma RankedDistinct(ids: seq<string>, m: map<string, int>, desc: bool, i: int, j: int)
    requires Ranked(ids, m, desc) && 0 <= i < j < |ids|
    ensures ids[i] != ids[j]
  {
    PrecedesIrreflexive(m, ids[i], desc);
  }

  /** The REV range of two sessions last active at 0 and 10 lists the later one first. */
  lemma TwoSessionsMostRecentFirst(ids: seq<string>, s1: string, s2: string)
    requires s1 != s2
    requires Ranked(ids, map[s1 := 0, s2 := 10], true)
    ensures ids == [s2, s1]
  {
    var m := map[s1 := 0, s2 := 10];
    assert s1 in m && s2 in m;
    if |ids| > 2 {
      RankedDistinct(ids, m, true, 0, 1);
      RankedDistinct(ids, m, true, 0, 2);
      RankedDistinct(ids, m, true, 1, 2);
      assert false;
    }
    assert |ids| == 2 by {
      var i :| 0 <= i < |ids| && ids[i] == s1;
      var j :| 0 <= j < |ids| && ids[j] == s2;
      assert i != j;
    }
    assert Above(m, ids[0], ids[1]);
    assert ids[0] in m && ids[1] in m;
  }

  /** The Redis server: the three kinds of keys the chat service touches. */
  class Store {
    var index: map<string, int>
    var lists: map<string, seq<Message>>
    var expiresAt: map<string, int>

    function State(): Db
      reads this
    {
      Db(index, lists, expiresAt)
    }

    constructor ()
      ensures State() == Empty
    {
      index, lists, expiresAt := map[], map[], map[];
    }

    method ZAdd(member: string, score: int)
      modifies this
      ensures State() == AfterZAdd(old(State()), member, score)
    {
      index := index[member := score];
    }

    method ZRem(member: string)
      modifies this
      ensures State() == AfterZRem(old(State()), member)
    {
      index := index - {member};
    }

    method ZRemRangeByScore(lo: int, hi: int)
      modifies this
      ensures State() == AfterZRemRangeByScore(old(State()), lo, hi)
    {
      index := map k | k in index && !(lo <= index[k] <= hi) :: index[k];
    }

    /** ZRANGEBYSCORE lo hi: the members scored in [lo, hi], lowest first. */
    method ZRangeByScore(lo: int, hi: int) returns (ids: seq<string>)
      ensures Ranked(ids, ScoreRange(index, lo, hi), false)
    {
      ids := Rank(ScoreRange(index, lo, hi), false);
    }

    /** ZRANGE 0 -1 REV: every member, highest score first. */
    method ZRangeRev() returns (ids: seq<string>)
      ensures Ranked(ids, index, true)
    {
      ids := Rank(index, true);
    }

    method RPush(key: string, v: Message, now: int)
      modifies this
      ensures State() == AfterRPush(old(State()), key, v, now)
    {
      if key in lists && (key !in expiresAt || now <= expiresAt[key]) {
        lists := lists[key := lists[key] + [v]];
      } else {
        lists := lists[key := [v]];
        expiresAt := expiresAt - {key};
      }
    }

    method Del(key: string)
      modifies this
      ensures State() == AfterDel(old(State()), key)
    {
      lists := lists - {key};
      expiresAt := expiresAt - {key};
    }

    method Expire(key: string, seconds: int, now: int)
      modifies this
      ensures State() == AfterExpire(old(State()), key, seconds, now)
    {
      if key in lists && (key !in expiresAt || now <= expiresAt[key]) {
        if seconds <= 0 {
          Del(key);
        } else {
          expiresAt := expiresAt[key := now + seconds * 1000];
        }
      }
    }

    method LRange(key: string, now: int) returns (items: seq<Message>)
      ensures items == ListAt(State(), key, now)
    {
      if key in lists && (key !in expiresAt || now <= expiresAt[key]) {
        items := lists[key];
      } else {
        items := [];
      }
    }
  }
}
