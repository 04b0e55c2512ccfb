/** The message transcript: records written to Redis and read back by session and time. */
module Transcript {
  import opened Values
  import opened Text
  import opened Sorting
  import opened SessionStores

  datatype Record = Record(uuid: string, createdAt: string, source: string, body: string, sessionId: string)

  function StripColons(s: string): string {
    if s != "" && s[|s| - 1] == ':' then StripColons(s[..|s| - 1]) else s
  }

  /** `(key_prefix or "message").strip().rstrip(":")`. */
  function MessagePrefix(keyPrefix: string): string {
    StripColons(Strip(if keyPrefix == "" then "message" else keyPrefix))
  }

  /** The given prefix, or "message", without outer white space and without colons at its end. */
  lemma {:induction false} MessagePrefixIs(keyPrefix: string)
    ensures var given := Strip(if keyPrefix == "" then "message" else keyPrefix);
            var prefix := MessagePrefix(keyPrefix);
            && prefix <= given && (forall i :: |prefix| <= i < |given| ==> given[i] == ':')
            && (prefix != "" ==> prefix[|prefix| - 1] != ':')
  {
    ColonsGo(Strip(if keyPrefix == "" then "message" else keyPrefix));
  }

  lemma {:induction false} ColonsGo(s: string)
    ensures var t := StripColons(s);
            && t <= s && (forall i :: |t| <= i < |s| ==> s[i] == ':') && (t != "" ==> t[|t| - 1] != ':')
  {
    if s != "" && s[|s| - 1] == ':' {
      ColonsGo(s[..|s| - 1]);
    }
  }

  function RecordKey(prefix: string, uuid: string): string {
    prefix + ":" + uuid
  }

  function RecordHash(r: Record): Hash {
    map["uuid" := r.uuid, "created_at" := r.createdAt, "source" := r.source, "body" := r.body,
        "session_id" := r.sessionId]
  }

  class RedisClient {
    var db: Database

    constructor (db: Database)
      ensures this.db == db
    {
      this.db := db;
    }
  }

  class MessageStreamWriter {
    const client: RedisClient
    const prefix: string

    constructor (client: RedisClient, keyPrefix: string)
      ensures this.client == client && prefix == MessagePrefix(keyPrefix)
    {
      this.client, prefix := client, MessagePrefix(keyPrefix);
    }

    /** `fails`: the Redis call raises, and the exception goes to the caller. */
    method Write(r: Record, fails: bool) returns (ok: bool)
      modifies client
      ensures ok == !fails
      ensures client.db == if ok then HSet(old(client.db), RecordKey(prefix, r.uuid), RecordHash(r)) else old(client.db)
    {
      if fails {
        return false;
      }
      client.db := HSet(client.db, RecordKey(prefix, r.uuid), RecordHash(r));
      ok := true;
    }
  }

  /** `key` matches the pattern `prefix:*`. */
  predicate Matches(prefix: string, key: string) {
    prefix + ":" <= key
  }

  predicate OfSession(h: Hash, sid: string) {
    "session_id" in h && h["session_id"] == sid
  }

  function CreatedAt(h: Hash): string {
    if "created_at" in h then h["created_at"] else ""
  }

  predicate NotLater(a: Hash, b: Hash) {
    AtMost(CreatedAt(a), CreatedAt(b))
  }

  /** The hashes of the session, in scan order. */
  function Gathered(db: Database, scan: seq<string>, sid: string): seq<Hash> {
    if scan == [] then [] else
    var h := HGetAll(db, scan[|scan| - 1]);
    Gathered(db, scan[..|scan| - 1], sid) + (if h != map[] && OfSession(h, sid) then [h] else [])
  }

  function Messages(db: Database, scan: seq<string>, sid: string): seq<Hash> {
    SortBy(NotLater, Gathered(db, scan, sid))
  }

  class RedisMessageStore {
    const client: RedisClient
    const prefix: string

    constructor (client: RedisClient, keyPrefix: string)
      ensures this.client == client && prefix == MessagePrefix(keyPrefix)
    {
      this.client, prefix := client, MessagePrefix(keyPrefix);
    }

    /** `scan` is the order in which `scan_iter` yields the matching keys. */
    method GetMessages(sid: string, scan: seq<string>) returns (out: seq<Hash>)
      ensures out == Messages(client.db, scan, sid)
    {
      out := [];
      for i := 0 to |scan|
        invariant out == Gathered(client.db, scan[..i], sid)
      {
        assert scan[..i + 1][..i] == scan[..i];
        var data := HGetAll(client.db, scan[i]);
        if data == map[] {
          continue;
        }
        if OfSession(data, sid) {
          out := out + [data];
        }
      }
      assert scan[..|scan|] == scan;
      out := SortBy(NotLater, out);
    }
  }

  // ----- what a read returns -----

  /** Keys of the session's records. */
  function SessionKeys(db: Database, prefix: string, sid: string): set<string> {
    set key | key in db && Matches(prefix, key) && OfSession(db[key], sid)
  }

  /** A scan yields each matching key once. */
  ghost predicate IsScan(db: Database, prefix: string, scan: seq<string>) {
    && Distinct(scan)
    && (forall key :: key in scan <==> key in db && Matches(prefix, key))
  }

  function HashesAt(db: Database, keys: seq<string>): seq<Hash> {
    seq(|keys|, i requires 0 <= i < |keys| => HGetAll(db, keys[i]))
  }

  lemma {:induction false} GatheredKeys(db: Database, scan: seq<string>, sid: string) returns (keys: seq<string>)
    requires Distinct(scan)
    ensures Distinct(keys) && HashesAt(db, keys) == Gathered(db, scan, sid)
    ensures forall key :: key in keys <==> key in scan && OfSession(HGetAll(db, key), sid)
  {
    if scan == [] {
      keys := [];
    } else {
      var front, last := scan[..|scan| - 1], scan[|scan| - 1];
      assert scan == front + [last];
      keys := GatheredKeys(db, front, sid);
      if OfSession(HGetAll(db, last), sid) {
        assert HashesAt(db, keys + [last]) == HashesAt(db, keys) + [HGetAll(db, last)];
        forall i | 0 <= i < |keys| ensures keys[i] != last {
          assert keys[i] in keys;
        }
        keys := keys + [last];
      }
    }
  }

  lemma {:induction false} AtMostIsPreorder()
    ensures TotalPreorder(NotLater)
  {
    forall a, b ensures NotLater(a, b) || NotLater(b, a) {
      AtMostTotal(CreatedAt(a), CreatedAt(b));
    }
    forall a, b, c | NotLater(a, b) && NotLater(b, c) ensures NotLater(a, c) {
      AtMostTransitive(CreatedAt(a), CreatedAt(b), CreatedAt(c));
    }
  }

  lemma DistinctKeysCount(keys: seq<string>, all: set<string>)
    requires Distinct(keys) && forall key :: key in keys <==> key in all
    ensures |keys| == |all|
  {
    if keys == [] {
      assert all == {};
    } else {
      var rest := keys[1..];
      assert keys == [keys[0]] + rest;
      assert forall key :: key in rest ==> exists i :: 1 <= i < |keys| && keys[i] == key;
      DistinctKeysCount(rest, all - {keys[0]});
    }
  }

  /**
    Reading a session returns its records and no others, each once, ordered by creation time,
    with records of equal time in scan order.
  */
  lemma ReadIsSortedPermutation(db: Database, prefix: string, scan: seq<string>, sid: string)
    returns (keys: seq<string>)
    requires IsScan(db, prefix, scan)
    ensures Distinct(keys) && forall key :: key in keys <==> key in SessionKeys(db, prefix, sid)
    ensures StableSortOf(NotLater, HashesAt(db, keys), Messages(db, scan, sid))
    ensures multiset(Messages(db, scan, sid)) == multiset(HashesAt(db, keys))
    ensures |Messages(db, scan, sid)| == |SessionKeys(db, prefix, sid)|
  {
    keys := GatheredKeys(db, scan, sid);
    AtMostIsPreorder();
    SortByIsStableSort(NotLater, Gathered(db, scan, sid));
    DistinctKeysCount(keys, SessionKeys(db, prefix, sid));
  }

  /** The first time goes on with a smaller character where they part, or ends there. */
  predicate Before(time: string, other: string, p: string, a: string, b: string) {
    time == p + a && other == p + b && Diverge(a, b) && b != "" && (a == "" || a[0] < b[0])
  }

  lemma NotLaterIff(time: string, other: string, p: string, a: string, b: string)
    requires Before(time, other, p, a, b)
    ensures AtMost(time, other) && !AtMost(other, time)
  {
    AtMostByFirstDifference(p, a, b);
    AtMostByFirstDifference(p, b, a);
  }

  ghost predicate EarlierTime(time: string, other: string) {
    exists p, a, b :: Before(time, other, p, a, b)
  }

  /** Of two different times one is earlier. */
  lemma EarlierTimeIff(time: string, other: string)
    ensures EarlierTime(time, other) <==> AtMost(time, other) && time != other
    ensures time != other ==> EarlierTime(time, other) || EarlierTime(other, time)
  {
    var p, a, b := FirstDifference(time, other);
    AtMostByFirstDifference(p, a, b);
    AtMostByFirstDifference(p, b, a);
    assert Before(time, other, p, a, b) || Before(other, time, p, b, a) || time == other;
    if EarlierTime(time, other) {
      var p', a', b' :| Before(time, other, p', a', b');
      NotLaterIff(time, other, p', a', b');
    }
  }

  /** Of two records of a session with different times the one with the earlier time is read first. */
  lemma {:induction false} EarlierIsReadFirst(db: Database, prefix: string, scan: seq<string>, sid: string,
                                              key: string, other: string)
    requires IsScan(db, prefix, scan) && key in SessionKeys(db, prefix, sid) && other in SessionKeys(db, prefix, sid)
    requires CreatedAt(db[key]) != CreatedAt(db[other])
    ensures var read := Messages(db, scan, sid);
            && db[key] in read && db[other] in read
            && forall i, j :: 0 <= i < |read| && 0 <= j < |read| && read[i] == db[key] && read[j] == db[other] ==>
                 (i < j <==> EarlierTime(CreatedAt(db[key]), CreatedAt(db[other])))
  {
    var read := Messages(db, scan, sid);
    var keys := ReadIsSortedPermutation(db, prefix, scan, sid);
    HashIsRead(db, keys, read, key);
    HashIsRead(db, keys, read, other);
    forall i, j | 0 <= i < |read| && 0 <= j < |read| && read[i] == db[key] && read[j] == db[other]
      ensures i < j <==> EarlierTime(CreatedAt(db[key]), CreatedAt(db[other]))
    {
      ReadOrder(read, i, j);
    }
  }

  lemma ReadOrder(read: seq<Hash>, i: nat, j: nat)
    requires Sorted(NotLater, read) && i < |read| && j < |read| && CreatedAt(read[i]) != CreatedAt(read[j])
    ensures i < j <==> EarlierTime(CreatedAt(read[i]), CreatedAt(read[j]))
  {
    var time, other := CreatedAt(read[i]), CreatedAt(read[j]);
    EarlierTimeIff(time, other);
    EarlierTimeIff(other, time);
    AtMostTotal(time, other);
    if AtMost(time, other) && AtMost(other, time) {
      AtMostAntisymmetric(time, other);
    }
  }

  lemma HashIsRead(db: Database, keys: seq<string>, read: seq<Hash>, key: string)
    requires multiset(read) == multiset(HashesAt(db, keys)) && key in keys && key in db
    ensures db[key] in read
  {
    var k :| 0 <= k < |keys| && keys[k] == key;
    assert HashesAt(db, keys)[k] in multiset(read);
  }

  // ----- what a write changes -----

  /** A record under a fresh uuid joins its own session; every other record stays as it was. */
  lemma FreshRecordJoins(db: Database, prefix: string, r: Record, sid: string)
    requires RecordKey(prefix, r.uuid) !in db
    ensures var key := RecordKey(prefix, r.uuid);
            var db' := HSet(db, key, RecordHash(r));
            && SessionKeys(db', prefix, sid)
               == SessionKeys(db, prefix, sid) + (if sid == r.sessionId then {key} else {})
            && |SessionKeys(db', prefix, sid)| == |SessionKeys(db, prefix, sid)| + (if sid == r.sessionId then 1 else 0)
            && db' == db[key := RecordHash(r)]
  {
    var key := RecordKey(prefix, r.uuid);
    assert map[] + RecordHash(r) == RecordHash(r);
    assert Matches(prefix, key);
    FreshKeyJoins(db, prefix, key, RecordHash(r), sid);
  }

  lemma FreshKeyJoins(db: Database, prefix: string, key: string, h: Hash, sid: string)
    requires key !in db && Matches(prefix, key)
    ensures SessionKeys(db[key := h], prefix, sid)
            == SessionKeys(db, prefix, sid) + (if OfSession(h, sid) then {key} else {})
    ensures |SessionKeys(db[key := h], prefix, sid)|
            == |SessionKeys(db, prefix, sid)| + (if OfSession(h, sid) then 1 else 0)
  {
    assert key !in SessionKeys(db, prefix, sid);
  }
}
