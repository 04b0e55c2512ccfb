/** What turns write to the transcript and what its readers see afterwards. */
module TranscriptLaws {
  import opened Values
  import opened Text
  import Sorting
  import opened Sessions
  import opened SessionStores
  import Chat = ChatFlow
  import Ctx = Context
  import opened ContextParts
  import opened ChatRuns
  import opened Conservation
  import opened Transcript
  import opened SessionTurn

  // ----- the transcript over turns -----

  predicate FreshUuids(db: Database, keyPrefix: string, t: Turn) {
    var prefix := MessagePrefix(keyPrefix);
    && RecordKey(prefix, t.userUuid) !in db
    && RecordKey(prefix, t.modelUuid) !in db
    && t.userUuid != t.modelUuid
  }

  lemma RecordKeysDiffer(prefix: string, a: string, b: string)
    ensures RecordKey(prefix, a) == RecordKey(prefix, b) <==> a == b
  {
    assert RecordKey(prefix, a)[|prefix| + 1..] == a;
    assert RecordKey(prefix, b)[|prefix| + 1..] == b;
  }

  /** The records behind an answer: both when it replied, the user's alone after one write. */
  function RecordsOf(t: Turn, r: TurnResult): seq<Record> {
    if r.Replied? then [UserRecord(t), ModelRecord(t, r.message)]
    else if r.PersistError? && t.writes == 1 then [UserRecord(t)]
    else []
  }

  /** The database with the records added, each under its own key. */
  function Holding(db: Database, prefix: string, records: seq<Record>): Database {
    if records == [] then db else
    var last := records[|records| - 1];
    Holding(db, prefix, records[..|records| - 1])[RecordKey(prefix, last.uuid) := RecordHash(last)]
  }

  ghost predicate FreshRecords(db: Database, prefix: string, records: seq<Record>) {
    && (forall i :: 0 <= i < |records| ==> RecordKey(prefix, records[i].uuid) !in db)
    && (forall i, j :: 0 <= i < j < |records| ==> records[i].uuid != records[j].uuid)
  }

  /** The hashes of the records that belong to the session. */
  function HashesFor(records: seq<Record>, sid: string): seq<Hash> {
    if records == [] then [] else
    var last := records[|records| - 1];
    HashesFor(records[..|records| - 1], sid) + (if last.sessionId == sid then [RecordHash(last)] else [])
  }

  ghost predicate KeyOfOne(prefix: string, records: seq<Record>, key: string) {
    exists i :: 0 <= i < |records| && key == RecordKey(prefix, records[i].uuid)
  }

  lemma {:induction false} HoldingKeys(db: Database, prefix: string, records: seq<Record>, key: string)
    ensures key in Holding(db, prefix, records) <==> key in db || KeyOfOne(prefix, records, key)
    ensures key in db && !KeyOfOne(prefix, records, key) ==> Holding(db, prefix, records)[key] == db[key]
  {
    if records != [] {
      HoldingKeys(db, prefix, records[..|records| - 1], key);
    }
  }

  lemma LastIsFresh(db: Database, prefix: string, records: seq<Record>)
    requires FreshRecords(db, prefix, records) && records != []
    ensures RecordKey(prefix, records[|records| - 1].uuid) !in Holding(db, prefix, records[..|records| - 1])
  {
    var front, last := records[..|records| - 1], records[|records| - 1];
    HoldingKeys(db, prefix, front, RecordKey(prefix, last.uuid));
    forall i | 0 <= i < |front| ensures RecordKey(prefix, front[i].uuid) != RecordKey(prefix, last.uuid) {
      RecordKeysDiffer(prefix, front[i].uuid, last.uuid);
    }
  }

  lemma {:induction false} FreshRecordsJoin(db: Database, prefix: string, records: seq<Record>, sid: string)
    requires FreshRecords(db, prefix, records)
    ensures |SessionKeys(Holding(db, prefix, records), prefix, sid)|
            == |SessionKeys(db, prefix, sid)| + |HashesFor(records, sid)|
  {
    if records != [] {
      var front, last := records[..|records| - 1], records[|records| - 1];
      FreshRecordsJoin(db, prefix, front, sid);
      LastIsFresh(db, prefix, records);
      FreshRecordJoins(Holding(db, prefix, front), prefix, last, sid);
    }
  }

  lemma OldKeysKept(db: Database, prefix: string, records: seq<Record>)
    requires FreshRecords(db, prefix, records)
    ensures forall key :: key in db ==>
              key in Holding(db, prefix, records) && Holding(db, prefix, records)[key] == db[key]
  {
    forall key | key in db ensures key in Holding(db, prefix, records) && Holding(db, prefix, records)[key] == db[key] {
      HoldingKeys(db, prefix, records, key);
    }
  }

  /**
    The answer tells what a turn stored: both records when it replied, the user's alone after one
    write, and otherwise none. Nothing else changes.
  */
  lemma {:induction false} TurnAddsItsRecords(db: Database, session: Option<Session>, cfg: Config, t: Turn, sid: string)
    requires FreshUuids(db, cfg.prefix, t)
    ensures var prefix := MessagePrefix(cfg.prefix);
            var (db', r) := TurnStep(db, session, cfg, t);
            && FreshRecords(db, prefix, RecordsOf(t, r))
            && db' == Holding(db, prefix, RecordsOf(t, r))
            && (forall key :: key in db ==> key in db' && db'[key] == db[key])
            && |SessionKeys(db', prefix, sid)|
               == |SessionKeys(db, prefix, sid)| + (if t.sessionId == sid then |RecordsOf(t, r)| else 0)
  {
    var prefix := MessagePrefix(cfg.prefix);
    var r := TurnStep(db, session, cfg, t).1;
    AnswerTellsRecords(db, session, cfg, t);
    OldKeysKept(db, prefix, RecordsOf(t, r));
    FreshRecordsJoin(db, prefix, RecordsOf(t, r), sid);
    OneOrTwo(RecordsOf(t, r), sid);
  }

  lemma AnswerTellsRecords(db: Database, session: Option<Session>, cfg: Config, t: Turn)
    requires FreshUuids(db, cfg.prefix, t)
    ensures var prefix := MessagePrefix(cfg.prefix);
            var (db', r) := TurnStep(db, session, cfg, t);
            FreshRecords(db, prefix, RecordsOf(t, r)) && db' == Holding(db, prefix, RecordsOf(t, r))
  {
    if session.Some? {
      var chat := ChatOf(db, cfg, session.value, t).result;
      if Persistable(chat) {
        PersistedIsHeld(db, cfg.prefix, t, chat);
      }
    }
  }

  lemma PersistedIsHeld(db: Database, keyPrefix: string, t: Turn, chat: Chat.FlowResult)
    requires FreshUuids(db, keyPrefix, t) && Persistable(chat)
    ensures var prefix := MessagePrefix(keyPrefix);
            var records := RecordsOf(t, TurnAnswer(chat, t));
            FreshRecords(db, prefix, records)
            && Persisted(db, keyPrefix, t, chat.message) == Holding(db, prefix, records)
  {
    RecordKeysDiffer(MessagePrefix(keyPrefix), t.userUuid, t.modelUuid);
    WritesAreHeld(db, MessagePrefix(keyPrefix), UserRecord(t), ModelRecord(t, chat.message));
  }

  lemma OneOrTwo(records: seq<Record>, sid: string)
    requires |records| <= 2 && forall r :: r in records ==> r.sessionId == records[0].sessionId
    ensures |HashesFor(records, sid)| == if records != [] && records[0].sessionId == sid then |records| else 0
  {
    if |records| == 2 {
      assert records[..1][..0] == [];
      assert HashesFor(records[..1], sid) == if records[0].sessionId == sid then [RecordHash(records[0])] else [];
    }
  }

  lemma WritesAreHeld(db: Database, prefix: string, user: Record, model: Record)
    requires RecordKey(prefix, user.uuid) !in db && RecordKey(prefix, model.uuid) !in db
    requires RecordKey(prefix, user.uuid) != RecordKey(prefix, model.uuid)
    ensures var one := HSet(db, RecordKey(prefix, user.uuid), RecordHash(user));
            && one == Holding(db, prefix, [user])
            && HSet(one, RecordKey(prefix, model.uuid), RecordHash(model)) == Holding(db, prefix, [user, model])
            && Holding(db, prefix, [user, model])
               == db[RecordKey(prefix, user.uuid) := RecordHash(user)]
                    [RecordKey(prefix, model.uuid) := RecordHash(model)]
  {
    assert [user][..0] == [] && [user, model][..1] == [user];
    assert map[] + RecordHash(user) == RecordHash(user);
    assert map[] + RecordHash(model) == RecordHash(model);
  }

  /**
    A provider failure is reported exactly when its text is not empty, and then nothing is stored;
    an empty one passes for an empty reply and is stored as far as the writes succeed.
  */
  lemma {:induction false} ProviderFailureIsReportedIff(db: Database, cfg: Config, s: Session, t: Turn)
    requires FreshUuids(db, cfg.prefix, t)
    ensures var (db', r) := TurnStep(db, Some(s), cfg, t);
            var chat := ChatOf(db, cfg, s, t).result;
            chat.Returned? && chat.error.Some? ==>
              && (chat.error.value != "" <==> r == ChatError(chat.error.value))
              && (chat.error.value != "" || t.writes == 0 <==> db' == db)
              && (chat.error.value == "" ==> if t.writes < 2 then r == PersistError else r == Replied("", chat.history))
  {
    TurnAddsItsRecords(db, Some(s), cfg, t, t.sessionId);
    HistoryGrammar(WorldOf(cfg, s, t), HistoryOf(db, cfg, s, t), t.maxRounds);
  }

  /** A reply without an error is answered once both records are stored, and stored as it is. */
  lemma {:induction false} ReplyIsAnswered(db: Database, cfg: Config, s: Session, t: Turn)
    requires FreshUuids(db, cfg.prefix, t)
    ensures var (db', r) := TurnStep(db, Some(s), cfg, t);
            var chat := ChatOf(db, cfg, s, t).result;
            chat.Returned? && chat.error.None? ==>
              && r == (if t.writes < 2 then PersistError else Replied(chat.message, chat.history))
              && (t.writes >= 1 ==> Shown(db', cfg.prefix, t.userUuid, t, "user", t.content))
              && (t.writes >= 2 ==> Shown(db', cfg.prefix, t.modelUuid, t, "model", chat.message))
  {
    var chat := ChatOf(db, cfg, s, t).result;
    if chat.Returned? && chat.error.None? {
      PersistedIsShown(db, cfg.prefix, t, chat.message);
    }
  }

  lemma PersistedIsShown(db: Database, keyPrefix: string, t: Turn, reply: string)
    requires FreshUuids(db, keyPrefix, t)
    ensures t.writes >= 1 ==> Shown(Persisted(db, keyPrefix, t, reply), keyPrefix, t.userUuid, t, "user", t.content)
    ensures t.writes >= 2 ==> Shown(Persisted(db, keyPrefix, t, reply), keyPrefix, t.modelUuid, t, "model", reply)
  {
    var prefix := MessagePrefix(keyPrefix);
    RecordKeysDiffer(prefix, t.userUuid, t.modelUuid);
    WritesAreHeld(db, prefix, UserRecord(t), ModelRecord(t, reply));
  }

  /** The record under this uuid is of the turn's session and time and shows as the block. */
  ghost predicate Shown(db: Database, keyPrefix: string, uuid: string, t: Turn, role: string, content: string) {
    var key := RecordKey(MessagePrefix(keyPrefix), uuid);
    && key in db && OfSession(db[key], t.sessionId) && CreatedAt(db[key]) == t.now
    && Shows(Ctx.Block(role, content), db[key])
  }

  /** A turn together with the session that the store returned for it. */
  datatype Request = Request(session: Option<Session>, cfg: Config, turn: Turn)

  function RunTurns(db: Database, requests: seq<Request>): Database {
    if requests == [] then db else
    var last := requests[|requests| - 1];
    TurnStep(RunTurns(db, requests[..|requests| - 1]), last.session, last.cfg, last.turn).0
  }

  /** All turns use one key prefix, and each brings fresh uuids. */
  ghost predicate FreshRun(db: Database, keyPrefix: string, requests: seq<Request>) {
    forall k :: 0 <= k < |requests| ==>
      requests[k].cfg.prefix == keyPrefix && FreshUuids(RunTurns(db, requests[..k]), keyPrefix, requests[k].turn)
  }

  /** The hashes of what the last turn stored for session `sid`. */
  function LatestHashes(db: Database, requests: seq<Request>, sid: string): seq<Hash>
    requires requests != []
  {
    var last := requests[|requests| - 1];
    var answer := TurnStep(RunTurns(db, requests[..|requests| - 1]), last.session, last.cfg, last.turn).1;
    HashesFor(RecordsOf(last.turn, answer), sid)
  }

  /** What each turn of a run stored for session `sid`. */
  function StoredByTurn(db: Database, requests: seq<Request>, sid: string): (parts: seq<seq<Hash>>)
    ensures |parts| == |requests|
  {
    if requests == [] then []
    else StoredByTurn(db, requests[..|requests| - 1], sid) + [LatestHashes(db, requests, sid)]
  }

  function Flat(parts: seq<seq<Hash>>): seq<Hash> {
    if parts == [] then [] else Flat(parts[..|parts| - 1]) + parts[|parts| - 1]
  }

  /** The hashes of what the turns of session `sid` stored, in order. */
  function AddedHashes(db: Database, requests: seq<Request>, sid: string): seq<Hash> {
    Flat(StoredByTurn(db, requests, sid))
  }

  lemma AddedByLast(db: Database, requests: seq<Request>, sid: string)
    requires requests != []
    ensures AddedHashes(db, requests, sid)
            == AddedHashes(db, requests[..|requests| - 1], sid) + LatestHashes(db, requests, sid)
  {
    FlatAppend(StoredByTurn(db, requests[..|requests| - 1], sid), LatestHashes(db, requests, sid));
  }

  lemma FlatAppend(parts: seq<seq<Hash>>, last: seq<Hash>)
    ensures Flat(parts + [last]) == Flat(parts) + last
  {
    assert (parts + [last])[..|parts|] == parts;
  }

  lemma {:induction false} GatheredFrame(db: Database, scan: seq<string>, sid: string, key: string, h: Hash)
    requires key !in scan
    ensures Gathered(db[key := h], scan, sid) == Gathered(db, scan, sid)
  {
    if scan != [] {
      var front, last := scan[..|scan| - 1], scan[|scan| - 1];
      assert last in scan;
      GatheredFrame(db, front, sid, key, h);
    }
  }

  /** Appending a fresh record's key to a scan gives a scan of the larger database. */
  lemma RecordScanned(db: Database, prefix: string, scan: seq<string>, r: Record, sid: string)
    requires IsScan(db, prefix, scan) && RecordKey(prefix, r.uuid) !in db
    ensures var key := RecordKey(prefix, r.uuid);
            var db' := db[key := RecordHash(r)];
            && IsScan(db', prefix, scan + [key])
            && Gathered(db', scan + [key], sid)
               == Gathered(db, scan, sid) + (if r.sessionId == sid then [RecordHash(r)] else [])
  {
    var key := RecordKey(prefix, r.uuid);
    GatheredFrame(db, scan, sid, key, RecordHash(r));
    assert (scan + [key])[..|scan|] == scan;
    assert Matches(prefix, key);
    assert RecordHash(r)["uuid"] == r.uuid;
  }

  lemma {:induction false} RecordsScanned(db: Database, prefix: string, scan: seq<string>, records: seq<Record>,
                                          sid: string)
    returns (grown: seq<string>)
    requires IsScan(db, prefix, scan) && FreshRecords(db, prefix, records)
    ensures IsScan(Holding(db, prefix, records), prefix, grown)
    ensures Gathered(Holding(db, prefix, records), grown, sid) == Gathered(db, scan, sid) + HashesFor(records, sid)
  {
    grown := scan;
    if records != [] {
      var front, last := records[..|records| - 1], records[|records| - 1];
      grown := RecordsScanned(db, prefix, scan, front, sid);
      FreshRecordsJoin(db, prefix, front, sid);
      LastIsFresh(db, prefix, records);
      RecordScanned(Holding(db, prefix, front), prefix, grown, last, sid);
      grown := grown + [RecordKey(prefix, last.uuid)];
    }
  }

  lemma {:induction false} RunScanned(db: Database, keyPrefix: string, requests: seq<Request>, sid: string,
                                      scan: seq<string>)
    returns (grown: seq<string>)
    requires FreshRun(db, keyPrefix, requests) && IsScan(db, MessagePrefix(keyPrefix), scan)
    ensures IsScan(RunTurns(db, requests), MessagePrefix(keyPrefix), grown)
    ensures Gathered(RunTurns(db, requests), grown, sid) == Gathered(db, scan, sid) + AddedHashes(db, requests, sid)
    ensures forall key :: key in db ==> key in RunTurns(db, requests) && RunTurns(db, requests)[key] == db[key]
  {
    grown := scan;
    if requests != [] {
      var front, last := requests[..|requests| - 1], requests[|requests| - 1];
      FreshBefore(db, keyPrefix, requests);
      grown := RunScanned(db, keyPrefix, front, sid, scan);
      AddedByLast(db, requests, sid);
      grown := TurnScanned(RunTurns(db, front), last, sid, grown);
    }
  }

  lemma FreshBefore(db: Database, keyPrefix: string, requests: seq<Request>)
    requires FreshRun(db, keyPrefix, requests) && requests != []
    ensures var front, last := requests[..|requests| - 1], requests[|requests| - 1];
            && FreshRun(db, keyPrefix, front)
            && last.cfg.prefix == keyPrefix && FreshUuids(RunTurns(db, front), keyPrefix, last.turn)
  {
    var front := requests[..|requests| - 1];
    forall k | 0 <= k < |front|
      ensures front[k].cfg.prefix == keyPrefix && FreshUuids(RunTurns(db, front[..k]), keyPrefix, front[k].turn)
    {
      assert front[..k] == requests[..k];
    }
  }

  lemma TurnScanned(db: Database, q: Request, sid: string, scan: seq<string>) returns (grown: seq<string>)
    requires FreshUuids(db, q.cfg.prefix, q.turn) && IsScan(db, MessagePrefix(q.cfg.prefix), scan)
    ensures var (db', r) := TurnStep(db, q.session, q.cfg, q.turn);
            && IsScan(db', MessagePrefix(q.cfg.prefix), grown)
            && Gathered(db', grown, sid) == Gathered(db, scan, sid) + HashesFor(RecordsOf(q.turn, r), sid)
            && (forall key :: key in db ==> key in db' && db'[key] == db[key])
  {
    TurnAddsItsRecords(db, q.session, q.cfg, q.turn, sid);
    grown := RecordsScanned(db, MessagePrefix(q.cfg.prefix), scan,
                            RecordsOf(q.turn, TurnStep(db, q.session, q.cfg, q.turn).1), sid);
  }

  /**
    Over any run a session's reader sees its old records and the records that its own turns
    stored, each once and nothing else, whatever the scans; every stored key keeps its hash.
  */
  lemma {:induction false} TranscriptOverTurns(db: Database, keyPrefix: string, requests: seq<Request>, sid: string,
                                               start: seq<string>, scan: seq<string>)
    requires FreshRun(db, keyPrefix, requests)
    requires IsScan(db, MessagePrefix(keyPrefix), start)
    requires IsScan(RunTurns(db, requests), MessagePrefix(keyPrefix), scan)
    ensures multiset(Messages(RunTurns(db, requests), scan, sid))
            == multiset(Messages(db, start, sid)) + multiset(AddedHashes(db, requests, sid))
    ensures forall key :: key in db ==> key in RunTurns(db, requests) && RunTurns(db, requests)[key] == db[key]
  {
    var grown := RunScanned(db, keyPrefix, requests, sid, start);
    ReadsAgree(RunTurns(db, requests), MessagePrefix(keyPrefix), sid, grown, scan);
    AtMostIsPreorder();
    Sorting.SortByIsStableSort(NotLater, Gathered(RunTurns(db, requests), grown, sid));
    Sorting.SortByIsStableSort(NotLater, Gathered(db, start, sid));
  }

  // ----- the order of the transcript -----

  /** The earlier hashes are a prefix of a sorted list. */
  lemma EarlierComeFirst(read: seq<Hash>, earlier: seq<Hash>, latest: seq<Hash>, time: string) returns (p: nat)
    requires Sorting.Sorted(NotLater, read) && multiset(read) == multiset(earlier) + multiset(latest)
    requires forall h :: h in earlier ==> Earlier(h, time)
    requires forall h :: h in latest ==> !Earlier(h, time)
    ensures p <= |read| && multiset(read[..p]) == multiset(earlier)
  {
    p := EarlierPrefix(read, time);
    forall x ensures multiset(read[..p])[x] == multiset(earlier)[x] {
      CountEarlier(read, time, p, x);
      assert x in earlier <==> x in multiset(earlier);
      assert x in latest <==> x in multiset(latest);
    }
  }

  lemma SplitAt(read: seq<Hash>, p: nat, earlier: multiset<Hash>, latest: multiset<Hash>)
    requires p <= |read| && multiset(read) == earlier + latest && multiset(read[..p]) == earlier
    ensures multiset(read[p..]) == latest && p == |earlier| && |read| == |earlier| + |latest|
  {
    assert read == read[..p] + read[p..];
    assert multiset(read) == multiset(read[..p]) + multiset(read[p..]);
    assert earlier + latest - earlier == latest;
    assert |multiset(read[..p])| == p && |multiset(read[p..])| == |read| - p;
  }

  /** In a sorted list what carries the latest time comes last. */
  lemma LatestComeLast(read: seq<Hash>, earlier: seq<Hash>, latest: seq<Hash>, time: string)
    requires Sorting.Sorted(NotLater, read) && multiset(read) == multiset(earlier) + multiset(latest)
    requires forall h :: h in latest ==> CreatedAt(h) == time
    requires latest != [] ==> forall h :: h in earlier ==> Earlier(h, time)
    ensures |read| == |earlier| + |latest|
    ensures multiset(read[..|earlier|]) == multiset(earlier) && multiset(read[|earlier|..]) == multiset(latest)
  {
    AtMostTotal(time, time);
    var p := |read|;
    if latest == [] {
      assert read[..p] == read;
    } else {
      p := EarlierComeFirst(read, earlier, latest, time);
    }
    SplitAt(read, p, multiset(earlier), multiset(latest));
    assert |multiset(earlier)| == |earlier| && |multiset(latest)| == |latest|;
  }

  /** `read` is the messages `past` followed by the parts one by one, each of them in any order. */
  ghost predicate InOrder(read: seq<Hash>, past: seq<Hash>, parts: seq<seq<Hash>>)
    decreases |parts|
  {
    if parts == [] then multiset(read) == multiset(past)
    else
      var n := |parts[|parts| - 1]|;
      && n <= |read|
      && multiset(read[|read| - n..]) == multiset(parts[|parts| - 1])
      && InOrder(read[..|read| - n], past, parts[..|parts| - 1])
  }

  /** Each part has one time, later than all before it. */
  ghost predicate Advancing(past: seq<Hash>, parts: seq<seq<Hash>>, times: seq<string>)
    requires |times| == |parts|
  {
    forall k :: 0 <= k < |parts| && parts[k] != [] ==>
      && (forall h :: h in parts[k] ==> CreatedAt(h) == times[k])
      && (forall h :: h in past + Flat(parts[..k]) ==> Earlier(h, times[k]))
  }

  lemma AdvancingBefore(past: seq<Hash>, parts: seq<seq<Hash>>, times: seq<string>)
    requires |times| == |parts| > 0 && Advancing(past, parts, times)
    ensures Advancing(past, parts[..|parts| - 1], times[..|parts| - 1])
  {
    var front := parts[..|parts| - 1];
    forall k | 0 <= k < |front| ensures front[..k] == parts[..k] {}
  }

  lemma {:induction false} SortedInOrder(read: seq<Hash>, past: seq<Hash>, parts: seq<seq<Hash>>, times: seq<string>)
    requires |times| == |parts| && Advancing(past, parts, times)
    requires Sorting.Sorted(NotLater, read) && multiset(read) == multiset(past) + multiset(Flat(parts))
    ensures InOrder(read, past, parts)
    decreases |parts|
  {
    if parts != [] {
      LatestPartLast(read, past, parts, times[|parts| - 1]);
      AdvancingBefore(past, parts, times);
      SortedInOrder(read[..|read| - |parts[|parts| - 1]|], past, parts[..|parts| - 1], times[..|parts| - 1]);
    }
  }

  lemma LatestPartLast(read: seq<Hash>, past: seq<Hash>, parts: seq<seq<Hash>>, time: string)
    requires parts != []
    requires Sorting.Sorted(NotLater, read) && multiset(read) == multiset(past) + multiset(Flat(parts))
    requires var front, latest := parts[..|parts| - 1], parts[|parts| - 1];
             latest != [] ==>
               && (forall h :: h in latest ==> CreatedAt(h) == time)
               && (forall h :: h in past + Flat(front) ==> Earlier(h, time))
    ensures var front, latest := parts[..|parts| - 1], parts[|parts| - 1];
            && |latest| <= |read| && multiset(read[|read| - |latest|..]) == multiset(latest)
            && multiset(read[..|read| - |latest|]) == multiset(past) + multiset(Flat(front))
  {
    var front, latest := parts[..|parts| - 1], parts[|parts| - 1];
    var earlier := past + Flat(front);
    assert multiset(earlier) == multiset(past) + multiset(Flat(front));
    assert multiset(Flat(parts)) == multiset(Flat(front)) + multiset(latest);
    LatestComeLast(read, earlier, latest, time);
    assert |read| - |latest| == |earlier|;
  }

  function Times(requests: seq<Request>): seq<string> {
    seq(|requests|, i requires 0 <= i < |requests| => requests[i].turn.now)
  }

  /** The session's turns carry later and later times, all of them later than the old messages. */
  ghost predicate ClockAdvances(past: seq<Hash>, requests: seq<Request>, sid: string) {
    && (forall k, h :: 0 <= k < |requests| && requests[k].turn.sessionId == sid && h in past ==>
          Earlier(h, requests[k].turn.now))
    && (forall j, k :: 0 <= j < k < |requests| && requests[j].turn.sessionId == requests[k].turn.sessionId == sid ==>
          !AtMost(requests[k].turn.now, requests[j].turn.now))
  }

  lemma {:induction false} TimesOfHashes(records: seq<Record>, sid: string)
    ensures forall h :: h in HashesFor(records, sid) ==>
              exists i :: 0 <= i < |records| && records[i].sessionId == sid && CreatedAt(h) == records[i].createdAt
  {
    if records != [] {
      TimesOfHashes(records[..|records| - 1], sid);
    }
  }

  lemma LatestTimes(db: Database, requests: seq<Request>, sid: string)
    requires requests != []
    ensures forall h :: h in LatestHashes(db, requests, sid) ==>
              var t := requests[|requests| - 1].turn; t.sessionId == sid && CreatedAt(h) == t.now
  {
    var last := requests[|requests| - 1];
    var answer := TurnStep(RunTurns(db, requests[..|requests| - 1]), last.session, last.cfg, last.turn).1;
    TimesOfHashes(RecordsOf(last.turn, answer), sid);
  }

  lemma {:induction false} AddedTimes(db: Database, requests: seq<Request>, sid: string, h: Hash)
    requires h in AddedHashes(db, requests, sid)
    ensures exists k :: 0 <= k < |requests| && requests[k].turn.sessionId == sid && CreatedAt(h) == requests[k].turn.now
  {
    var front := requests[..|requests| - 1];
    AddedByLast(db, requests, sid);
    if h in AddedHashes(db, front, sid) {
      AddedTimes(db, front, sid, h);
      var k :| 0 <= k < |front| && front[k].turn.sessionId == sid && CreatedAt(h) == front[k].turn.now;
      assert requests[k] == front[k];
    } else {
      LatestTimes(db, requests, sid);
    }
  }

  lemma EarlierThanLatest(db: Database, past: seq<Hash>, requests: seq<Request>, sid: string)
    requires requests != [] && ClockAdvances(past, requests, sid) && LatestHashes(db, requests, sid) != []
    ensures var time := requests[|requests| - 1].turn.now;
            && (forall h :: h in LatestHashes(db, requests, sid) ==> CreatedAt(h) == time)
            && (forall h :: h in past + AddedHashes(db, requests[..|requests| - 1], sid) ==> Earlier(h, time))
  {
    var front, time := requests[..|requests| - 1], requests[|requests| - 1].turn.now;
    LatestTimes(db, requests, sid);
    assert LatestHashes(db, requests, sid)[0] in LatestHashes(db, requests, sid);
    forall h | h in AddedHashes(db, front, sid) ensures Earlier(h, time) {
      AddedTimes(db, front, sid, h);
      var k :| 0 <= k < |front| && front[k].turn.sessionId == sid && CreatedAt(h) == front[k].turn.now;
      assert requests[k] == front[k];
    }
  }

  lemma ClockBefore(past: seq<Hash>, requests: seq<Request>, sid: string)
    requires requests != [] && ClockAdvances(past, requests, sid)
    ensures ClockAdvances(past, requests[..|requests| - 1], sid)
  {
    var front := requests[..|requests| - 1];
    assert forall k :: 0 <= k < |front| ==> front[k] == requests[k];
  }

  lemma {:induction false} TurnsAdvance(db: Database, past: seq<Hash>, requests: seq<Request>, sid: string)
    requires ClockAdvances(past, requests, sid)
    ensures Advancing(past, StoredByTurn(db, requests, sid), Times(requests))
  {
    if requests != [] {
      ClockBefore(past, requests, sid);
      TurnsAdvance(db, past, requests[..|requests| - 1], sid);
      LatestAdvances(db, past, requests, sid);
    }
  }

  lemma LatestAdvances(db: Database, past: seq<Hash>, requests: seq<Request>, sid: string)
    requires requests != [] && ClockAdvances(past, requests, sid)
    requires Advancing(past, StoredByTurn(db, requests[..|requests| - 1], sid), Times(requests[..|requests| - 1]))
    ensures Advancing(past, StoredByTurn(db, requests, sid), Times(requests))
  {
    var front, time := requests[..|requests| - 1], requests[|requests| - 1].turn.now;
    if LatestHashes(db, requests, sid) != [] {
      EarlierThanLatest(db, past, requests, sid);
    }
    assert Times(requests) == Times(front) + [time];
    OneMoreAdvances(past, StoredByTurn(db, front, sid), Times(front), LatestHashes(db, requests, sid), time);
  }

  lemma OneMoreAdvances(past: seq<Hash>, parts: seq<seq<Hash>>, times: seq<string>, latest: seq<Hash>, time: string)
    requires |times| == |parts| && Advancing(past, parts, times)
    requires latest != [] ==>
               && (forall h :: h in latest ==> CreatedAt(h) == time)
               && (forall h :: h in past + Flat(parts) ==> Earlier(h, time))
    ensures Advancing(past, parts + [latest], times + [time])
  {
    var longer := parts + [latest];
    assert longer[..|parts|] == parts;
    forall k | 0 <= k < |parts| ensures longer[..k] == parts[..k] {}
  }

  /**
    While the clock advances, a session's reader gets the whole conversation in order: the past
    messages, then what each of its turns stored, turn by turn, whatever the scans. The two
    records of one turn share their time and may come in either order.
  */
  lemma {:induction false} TranscriptInTurnOrder(db: Database, keyPrefix: string, requests: seq<Request>, sid: string,
                                                 start: seq<string>, scan: seq<string>)
    requires FreshRun(db, keyPrefix, requests)
    requires IsScan(db, MessagePrefix(keyPrefix), start)
    requires IsScan(RunTurns(db, requests), MessagePrefix(keyPrefix), scan)
    requires ClockAdvances(Messages(db, start, sid), requests, sid)
    ensures InOrder(Messages(RunTurns(db, requests), scan, sid), Messages(db, start, sid),
                    StoredByTurn(db, requests, sid))
  {
    TranscriptOverTurns(db, keyPrefix, requests, sid, start, scan);
    var keys := ReadIsSortedPermutation(RunTurns(db, requests), MessagePrefix(keyPrefix), scan, sid);
    TurnsAdvance(db, Messages(db, start, sid), requests, sid);
    SortedInOrder(Messages(RunTurns(db, requests), scan, sid), Messages(db, start, sid),
                  StoredByTurn(db, requests, sid), Times(requests));
  }

  // ----- the latest exchange -----

  lemma ReadIsHeld(db: Database, prefix: string, scan: seq<string>, sid: string)
    requires IsScan(db, prefix, scan)
    ensures forall h :: h in Messages(db, scan, sid) ==>
              exists key :: key in SessionKeys(db, prefix, sid) && db[key] == h
  {
    var keys := ReadIsSortedPermutation(db, prefix, scan, sid);
    var hs := HashesAt(db, keys);
    forall h | h in Messages(db, scan, sid) ensures exists key :: key in SessionKeys(db, prefix, sid) && db[key] == h {
      assert h in multiset(hs);
      var k :| 0 <= k < |hs| && hs[k] == h;
      assert keys[k] in keys;
    }
  }

  /** What a scan of a larger database yields of a smaller one is a scan of that. */
  lemma ScanBefore(db: Database, db': Database, prefix: string, scan: seq<string>) returns (start: seq<string>)
    requires IsScan(db', prefix, scan) && forall key :: key in db ==> key in db'
    ensures IsScan(db, prefix, start)
  {
    start := Filter(key => key in db, scan);
    Sorting.FilterDistinct(key => key in db, scan);
  }

  /**
    After a successful turn whose timestamp is later than the session's earlier ones, the reader
    gets the user's message and the reply as the last two messages, in scan order.
  */
  lemma {:induction false} LatestExchangeIsLast(db: Database, s: Session, cfg: Config, t: Turn, scan: seq<string>)
    requires FreshUuids(db, cfg.prefix, t)
    requires forall key :: key in SessionKeys(db, MessagePrefix(cfg.prefix), t.sessionId) ==>
               !AtMost(t.now, CreatedAt(db[key]))
    ensures var (db', r) := TurnStep(db, Some(s), cfg, t);
            var read := Messages(db', scan, t.sessionId);
            r.Replied? && IsScan(db', MessagePrefix(cfg.prefix), scan) ==>
              && |read| >= 2
              && multiset(read[|read| - 2..])
                 == multiset{RecordHash(UserRecord(t)), RecordHash(ModelRecord(t, r.message))}
              && ReadsAsExchange(read, Ctx.Block("user", t.content), Ctx.Block("model", r.message))
  {
    var (db', r) := TurnStep(db, Some(s), cfg, t);
    if r.Replied? && IsScan(db', MessagePrefix(cfg.prefix), scan) {
      TurnAddsItsRecords(db, Some(s), cfg, t, t.sessionId);
      ExchangeReadLast(db, MessagePrefix(cfg.prefix), t, r, scan);
    }
  }

  lemma ExchangeReadLast(db: Database, prefix: string, t: Turn, r: TurnResult, scan: seq<string>)
    requires r.Replied? && FreshRecords(db, prefix, RecordsOf(t, r))
    requires IsScan(Holding(db, prefix, RecordsOf(t, r)), prefix, scan)
    requires forall key :: key in SessionKeys(db, prefix, t.sessionId) ==> Earlier(db[key], t.now)
    ensures var read := Messages(Holding(db, prefix, RecordsOf(t, r)), scan, t.sessionId);
            && |read| >= 2
            && multiset(read[|read| - 2..])
               == multiset{RecordHash(UserRecord(t)), RecordHash(ModelRecord(t, r.message))}
            && ReadsAsExchange(read, Ctx.Block("user", t.content), Ctx.Block("model", r.message))
  {
    var read := Messages(Holding(db, prefix, RecordsOf(t, r)), scan, t.sessionId);
    RecordsReadLast(db, prefix, RecordsOf(t, r), t.sessionId, t.now, scan);
    ExchangeHashes(t, r.message);
    PairShows(read[|read| - 2..], t, r.message);
  }

  /** The last two messages show as these blocks, in either order. */
  ghost predicate ReadsAsExchange(read: seq<Hash>, user: Ctx.Block, model: Ctx.Block) {
    var n := |read|;
    n >= 2 && ((Shows(user, read[n - 2]) && Shows(model, read[n - 1]))
               || (Shows(model, read[n - 2]) && Shows(user, read[n - 1])))
  }

  lemma PairShows(pair: seq<Hash>, t: Turn, reply: string)
    requires multiset(pair) == multiset{RecordHash(UserRecord(t)), RecordHash(ModelRecord(t, reply))}
    ensures ReadsAsExchange(pair, Ctx.Block("user", t.content), Ctx.Block("model", reply))
  {
    var u, m := RecordHash(UserRecord(t)), RecordHash(ModelRecord(t, reply));
    assert |multiset(pair)| == |pair|;
    assert pair == [pair[0], pair[1]];
    assert u["source"] != m["source"];
    assert pair[0] in multiset(pair) && pair[1] in multiset(pair);
  }

  /** Fresh records of a later time are read last. */
  lemma RecordsReadLast(db: Database, prefix: string, records: seq<Record>, sid: string, time: string,
                        scan: seq<string>)
    requires FreshRecords(db, prefix, records) && IsScan(Holding(db, prefix, records), prefix, scan)
    requires forall r :: r in records ==> r.createdAt == time
    requires forall key :: key in SessionKeys(db, prefix, sid) ==> Earlier(db[key], time)
    ensures var read, stored := Messages(Holding(db, prefix, records), scan, sid), HashesFor(records, sid);
            |stored| <= |read| && multiset(read[|read| - |stored|..]) == multiset(stored)
  {
    var db' := Holding(db, prefix, records);
    OldKeysKept(db, prefix, records);
    var start := ScanBefore(db, db', prefix, scan);
    ReadIsHeld(db, prefix, start, sid);
    TimesOfHashes(records, sid);
    ReadAfterRecords(db, prefix, records, sid, start, scan);
    LatestComeLast(Messages(db', scan, sid), Messages(db, start, sid), HashesFor(records, sid), time);
  }

  lemma ReadAfterRecords(db: Database, prefix: string, records: seq<Record>, sid: string, start: seq<string>,
                         scan: seq<string>)
    requires FreshRecords(db, prefix, records)
    requires IsScan(db, prefix, start) && IsScan(Holding(db, prefix, records), prefix, scan)
    ensures var read := Messages(Holding(db, prefix, records), scan, sid);
            && Sorting.Sorted(NotLater, read)
            && multiset(read) == multiset(Messages(db, start, sid)) + multiset(HashesFor(records, sid))
  {
    var db' := Holding(db, prefix, records);
    var grown := RecordsScanned(db, prefix, start, records, sid);
    ReadsAgree(db', prefix, sid, grown, scan);
    AtMostIsPreorder();
    Sorting.SortByIsStableSort(NotLater, Gathered(db', grown, sid));
    Sorting.SortByIsStableSort(NotLater, Gathered(db, start, sid));
  }

  lemma ExchangeHashes(t: Turn, reply: string)
    ensures HashesFor([UserRecord(t), ModelRecord(t, reply)], t.sessionId)
            == [RecordHash(UserRecord(t)), RecordHash(ModelRecord(t, reply))]
  {
    var user, model := UserRecord(t), ModelRecord(t, reply);
    assert [user, model][..1] == [user] && [user][..0] == [];
    assert HashesFor([user], t.sessionId) == [] + [RecordHash(user)];
  }
}
