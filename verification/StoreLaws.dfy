/** The stores against each other: refinement over runs, and exactly where they part ways. */
module StoreLaws {
  import opened Values
  import opened Text
  import opened Sessions
  import opened SessionStores

  // ----- the hash codec -----

  lemma TrueFalse()
    ensures Lower(Strip("true")) == "true" && Lower(Strip("false")) == "false"
  {
    StripFixed("true");
    StripFixed("false");
    assert Lower("true") == "true";
    assert Lower("false") == "false";
  }

  lemma ListSurvives(c: Codec, h: Hash, key: string, xs: seq<string>)
    requires Lossless(c) && key in h && h[key] == c.dumps(xs)
    ensures DecodeList(c, h, key) == xs
  {
    assert c.loads(c.dumps(xs)) == Some(xs) && Strip(c.dumps(xs)) != "";
    if c.dumps(xs) == "" {
      StripFixed("");
    }
  }

  /** `h` has the fields of session `s`, whatever else it holds. */
  ghost predicate Stores(c: Codec, h: Hash, s: Session) {
    && "model" in h && h["model"] == TextOr(s.model)
    && "allowed_commands" in h && h["allowed_commands"] == c.dumps(s.allowed)
    && "forbidden_commands" in h && h["forbidden_commands"] == c.dumps(s.forbidden)
    && "standards" in h && h["standards"] == c.dumps(s.standards)
    && "session_rules" in h && h["session_rules"] == c.dumps(s.rules)
    && "created_at" in h && h["created_at"] == TextOr(s.createdAt)
    && "minimize_context" in h && h["minimize_context"] == if s.minimize then "true" else "false"
  }

  lemma WrittenIsStored(c: Codec, s: Session, before: Hash)
    ensures Stores(c, before + HashOf(c, s), s)
  {
  }

  lemma StoredDecodes(c: Codec, s: Session, h: Hash)
    requires Lossless(c) && Stores(c, h, s)
    ensures Decode(c, s.id, h) == Presented(s)
  {
    ListSurvives(c, h, "allowed_commands", s.allowed);
    ListSurvives(c, h, "forbidden_commands", s.forbidden);
    ListSurvives(c, h, "standards", s.standards);
    ListSurvives(c, h, "session_rules", s.rules);
    TrueFalse();
  }

  /** Writing a session over any hash and reading it back gives it back, empty texts as None. */
  lemma {:induction false} HashRoundTrip(c: Codec, s: Session, before: Hash)
    requires Lossless(c)
    ensures Decode(c, s.id, before + HashOf(c, s)) == Presented(s)
  {
    WrittenIsStored(c, s, before);
    StoredDecodes(c, s, before + HashOf(c, s));
  }

  /** Two sessions are stored alike exactly when they agree up to empty texts and the id. */
  lemma SameHash(c: Codec, s: Session, t: Session, before: Hash)
    requires Lossless(c) && s.id == t.id
    ensures before + HashOf(c, s) == before + HashOf(c, t) <==> Presented(s) == Presented(t)
  {
    HashRoundTrip(c, s, before);
    HashRoundTrip(c, t, before);
    if Presented(s) == Presented(t) {
      assert TextOr(s.model) == TextOr(t.model) && TextOr(s.createdAt) == TextOr(t.createdAt);
      assert HashOf(c, s) == HashOf(c, t);
    }
  }

  lemma KeysDiffer(prefix: string, id: string, id': string)
    ensures Key(prefix, id) == Key(prefix, id') <==> Strip(id) == Strip(id')
  {
    assert Key(prefix, id)[|prefix| + 1..] == Strip(id);
    assert Key(prefix, id')[|prefix| + 1..] == Strip(id');
  }

  // ----- refinement -----

  ghost predicate MirrorsAt(c: Codec, prefix: string, m: Memory, db: Database, id: string) {
    Strip(id) == id ==>
      RedisGet(c, prefix, db, id) == Found(if id in m then Some(Presented(m[id])) else None)
  }

  ghost predicate Keyed(m: Memory, id: string) {
    id in m ==> id != "" && Strip(id) == id && m[id].id == id
  }

  /** The Redis database holds exactly the sessions in memory, up to empty texts. */
  ghost predicate Mirrors(c: Codec, prefix: string, m: Memory, db: Database) {
    (forall id :: Keyed(m, id)) && (forall id :: MirrorsAt(c, prefix, m, db, id))
  }

  datatype Op = GetOp(id: string) | CreateOp(attrs: Attrs, uuid: string) | UpdateOp(id: string, attrs: Attrs)

  function MemoryStep(m: Memory, op: Op): (Memory, Answer) {
    match op
    case GetOp(id) => (m, Found(MemoryGet(m, id)))
    case CreateOp(attrs, uuid) => MemoryCreate(m, attrs, uuid)
    case UpdateOp(id, attrs) => MemoryUpdate(m, id, attrs)
  }

  function RedisStep(c: Codec, prefix: string, db: Database, op: Op): (Database, Answer) {
    match op
    case GetOp(id) => (db, RedisGet(c, prefix, db, id))
    case CreateOp(attrs, uuid) => RedisCreate(c, prefix, db, attrs, uuid)
    case UpdateOp(id, attrs) => RedisUpdate(c, prefix, db, id, attrs)
  }

  /** Answers compared with "" and None identified in model and creation time. */
  function Normal(a: Answer): Answer {
    if a.Found? && a.session.Some? then Found(Some(Presented(a.session.value))) else a
  }

  /** Ids are created stripped, and no explicit null meets a set `minimize_context`. */
  predicate Regular(m: Memory, op: Op) {
    match op
    case GetOp(_) => true
    case CreateOp(attrs, uuid) =>
      var s := CreateSession(attrs, uuid);
      s.Some? ==> Strip(s.value.id) == s.value.id
    case UpdateOp(id, attrs) =>
      attrs.minimize.Null? && MemoryGet(m, id).Some? ==> !MemoryGet(m, id).value.minimize
  }

  lemma {:induction false} GetAfterWrite(c: Codec, prefix: string, db: Database, s: Session, id: string)
    requires Lossless(c) && s.id != "" && Strip(s.id) == s.id
    ensures var db' := HSet(db, Key(prefix, s.id), HashOf(c, s));
            RedisGet(c, prefix, db', id)
            == if Strip(id) == s.id then Found(Some(Presented(s))) else RedisGet(c, prefix, db, id)
  {
    KeysDiffer(prefix, id, s.id);
    var before := HGetAll(db, Key(prefix, s.id));
    HashRoundTrip(c, s, before);
    assert before + HashOf(c, s) != map[] by {
      WrittenIsStored(c, s, before);
    }
  }

  lemma WriteMirrors(c: Codec, prefix: string, m: Memory, db: Database, s: Session, t: Session)
    requires Lossless(c) && Mirrors(c, prefix, m, db)
    requires s.id == t.id != "" && Strip(s.id) == s.id && Presented(s) == Presented(t)
    ensures Mirrors(c, prefix, m[s.id := s], HSet(db, Key(prefix, s.id), HashOf(c, t)))
  {
    var m', db' := m[s.id := s], HSet(db, Key(prefix, s.id), HashOf(c, t));
    forall id ensures MirrorsAt(c, prefix, m', db', id) {
      assert MirrorsAt(c, prefix, m, db, id);
      GetAfterWrite(c, prefix, db, t, id);
    }
    forall id ensures Keyed(m', id) {
      assert Keyed(m, id);
    }
  }

  lemma GetsAgree(c: Codec, prefix: string, m: Memory, db: Database, id: string)
    requires Mirrors(c, prefix, m, db)
    ensures Normal(Found(MemoryGet(m, id))) == RedisGet(c, prefix, db, id)
    ensures Normal(RedisGet(c, prefix, db, id)) == RedisGet(c, prefix, db, id)
  {
    StripFixed(id);
    StripFixed(Strip(id));
    assert RedisGet(c, prefix, db, id) == RedisGet(c, prefix, db, Strip(id));
    assert MirrorsAt(c, prefix, m, db, Strip(id));
  }

  lemma StepRefines(c: Codec, prefix: string, m: Memory, db: Database, op: Op)
    requires Lossless(c) && Mirrors(c, prefix, m, db) && Regular(m, op)
    ensures var (m', a) := MemoryStep(m, op);
            var (db', b) := RedisStep(c, prefix, db, op);
            Mirrors(c, prefix, m', db') && Normal(a) == Normal(b)
  {
    match op
    case GetOp(id) => GetsAgree(c, prefix, m, db, id);
    case CreateOp(attrs, uuid) =>
      var s := CreateSession(attrs, uuid);
      if s.Some? {
        WriteMirrors(c, prefix, m, db, s.value, s.value);
      }
    case UpdateOp(id, attrs) =>
      UpdateRefines(c, prefix, m, db, id, attrs);
  }

  lemma UpdateRefines(c: Codec, prefix: string, m: Memory, db: Database, id: string, attrs: Attrs)
    requires Lossless(c) && Mirrors(c, prefix, m, db) && Regular(m, UpdateOp(id, attrs))
    ensures var (m', a) := MemoryStep(m, UpdateOp(id, attrs));
            var (db', b) := RedisUpdate(c, prefix, db, id, attrs);
            Mirrors(c, prefix, m', db') && Normal(a) == Normal(b)
  {
    GetsAgree(c, prefix, m, db, id);
    var sid := Strip(id);
    assert Keyed(m, sid);
    if sid in m {
      StoreUpdateWrites(c, prefix, db, id, attrs, Presented(m[sid]));
      WriteMirrors(c, prefix, m, db, MemoryPatch(m[sid], attrs), RedisPatch(Presented(m[sid]), attrs));
    }
  }

  lemma StoreUpdateWrites(c: Codec, prefix: string, db: Database, id: string, attrs: Attrs, s: Session)
    requires RedisGet(c, prefix, db, id) == Found(Some(s))
    ensures var t := RedisPatch(s, attrs);
            RedisUpdate(c, prefix, db, id, attrs) == (HSet(db, Key(prefix, Strip(id)), HashOf(c, t)), Found(Some(t)))
  {
    StripFixed(id);
    StripFixed(Strip(id));
  }

  function MemoryRun(m: Memory, ops: seq<Op>): (Memory, seq<Answer>) {
    if ops == [] then (m, []) else
    var (m', answers) := MemoryRun(m, ops[..|ops| - 1]);
    var (m'', a) := MemoryStep(m', ops[|ops| - 1]);
    (m'', answers + [a])
  }

  function RedisRun(c: Codec, prefix: string, db: Database, ops: seq<Op>): (Database, seq<Answer>) {
    if ops == [] then (db, []) else
    var (db', answers) := RedisRun(c, prefix, db, ops[..|ops| - 1]);
    var (db'', a) := RedisStep(c, prefix, db', ops[|ops| - 1]);
    (db'', answers + [a])
  }

  ghost predicate RegularRun(m: Memory, ops: seq<Op>) {
    forall k :: 0 <= k < |ops| ==> Regular(MemoryRun(m, ops[..k]).0, ops[k])
  }

  /** Over any run of regular operations the two stores give the same answers. */
  lemma {:induction false} RedisRefinesMemory(c: Codec, prefix: string, m: Memory, db: Database, ops: seq<Op>)
    requires Lossless(c) && Mirrors(c, prefix, m, db) && RegularRun(m, ops)
    ensures var (m', a) := MemoryRun(m, ops);
            var (db', b) := RedisRun(c, prefix, db, ops);
            && Mirrors(c, prefix, m', db')
            && |a| == |b| == |ops|
            && forall k :: 0 <= k < |ops| ==> Normal(a[k]) == Normal(b[k])
  {
    if ops != [] {
      var front := ops[..|ops| - 1];
      forall k | 0 <= k < |front| ensures Regular(MemoryRun(m, front[..k]).0, front[k]) {
        assert front[..k] == ops[..k];
      }
      RedisRefinesMemory(c, prefix, m, db, front);
      StepRefines(c, prefix, MemoryRun(m, front).0, RedisRun(c, prefix, db, front).0, ops[|ops| - 1]);
    }
  }

  lemma EmptyStoresMirror(c: Codec, prefix: string)
    ensures Mirrors(c, prefix, map[], map[])
  {
  }

  /** From two empty stores: any regular run is answered alike and leaves mirrored stores. */
  lemma {:induction false} EmptyStoresStayAlike(c: Codec, prefix: string, ops: seq<Op>, k: nat)
    requires Lossless(c) && RegularRun(map[], ops) && k < |ops|
    ensures var (m, a) := MemoryRun(map[], ops);
            var (db, b) := RedisRun(c, prefix, map[], ops);
            |a| == |b| == |ops| && Mirrors(c, prefix, m, db) && Normal(a[k]) == Normal(b[k])
  {
    EmptyStoresMirror(c, prefix);
    RedisRefinesMemory(c, prefix, map[], map[], ops);
  }

  // ----- where they part ways -----

  /** An update is answered alike exactly when it is regular. */
  lemma UpdateAgreesIffRegular(c: Codec, prefix: string, m: Memory, db: Database, id: string, attrs: Attrs)
    requires Lossless(c) && Mirrors(c, prefix, m, db)
    ensures Normal(MemoryStep(m, UpdateOp(id, attrs)).1) == Normal(RedisStep(c, prefix, db, UpdateOp(id, attrs)).1)
            <==> Regular(m, UpdateOp(id, attrs))
  {
    if Regular(m, UpdateOp(id, attrs)) {
      StepRefines(c, prefix, m, db, UpdateOp(id, attrs));
    } else {
      GetsAgree(c, prefix, m, db, id);
    }
  }

  /** The stripped id is taken by a session that reads like the new one. */
  predicate AlreadyAlike(m: Memory, s: Session) {
    Strip(s.id) in m && Presented(m[Strip(s.id)]) == Presented(s).(id := Strip(s.id))
  }

  /**
    A created session is found alike in both stores exactly when its id is stripped, or the
    memory store already has a session of the same content under the stripped id: it keeps that
    one, where the Redis store overwrites it.
  */
  lemma CreatedIsFoundIffRegular(c: Codec, prefix: string, m: Memory, db: Database, attrs: Attrs, uuid: string)
    requires Lossless(c) && Mirrors(c, prefix, m, db)
    requires CreateSession(attrs, uuid).Some?
    ensures var op := CreateOp(attrs, uuid);
            var s := CreateSession(attrs, uuid).value;
            Normal(Found(MemoryGet(MemoryStep(m, op).0, s.id)))
            == Normal(RedisGet(c, prefix, RedisStep(c, prefix, db, op).0, s.id))
            <==> Regular(m, op) || AlreadyAlike(m, s)
  {
    var op := CreateOp(attrs, uuid);
    var s := CreateSession(attrs, uuid).value;
    if Regular(m, op) {
      StepRefines(c, prefix, m, db, op);
      GetsAgree(c, prefix, MemoryStep(m, op).0, RedisStep(c, prefix, db, op).0, s.id);
    } else {
      StripFixed(s.id);
      StripFixed(Strip(s.id));
      OverwrittenReads(c, prefix, db, s);
      assert Keyed(m, Strip(s.id));
    }
  }

  /** A session written under an id with outer white space reads back under the stripped one. */
  lemma OverwrittenReads(c: Codec, prefix: string, db: Database, s: Session)
    requires Lossless(c) && Strip(s.id) != ""
    ensures RedisGet(c, prefix, HSet(db, Key(prefix, s.id), HashOf(c, s)), s.id)
            == Found(Some(Presented(s).(id := Strip(s.id))))
  {
    var t := s.(id := Strip(s.id));
    StripFixed(s.id);
    StripFixed(Strip(s.id));
    KeysDiffer(prefix, s.id, t.id);
    GetAfterWrite(c, prefix, db, t, s.id);
    assert HashOf(c, t) == HashOf(c, s);
  }

  // ----- the database server -----

  /** The session store reads back what `session_create` returned exactly when its id is not blank. */
  lemma {:induction false} StoreReadsWhatServerCreates(c: Codec, prefix: string, db: Database, attrs: Attrs,
                                                       uuid: string)
    requires Lossless(c)
    ensures var s := DbCreated(attrs, uuid);
            RedisGet(c, prefix, HSet(db, Key(prefix, s.id), HashOf(c, s)), s.id) == Found(Some(Presented(s)))
            <==> s.id != ""
  {
    var s := DbCreated(attrs, uuid);
    var id := if attrs.id.Given? && attrs.id.value != "" then attrs.id.value else uuid;
    StripFixed(id);
    StripFixed(s.id);
    HashRoundTrip(c, s, HGetAll(db, Key(prefix, s.id)));
    assert "model" in HSet(db, Key(prefix, s.id), HashOf(c, s))[Key(prefix, s.id)];
  }

  predicate NullOver(a: Attr<seq<string>>, current: seq<string>) {
    a.Null? && current != []
  }

  /** The server's update and the store's update mean the same for this session. */
  predicate SameMeaning(s: Session, attrs: Attrs) {
    && (attrs.model.Given? ==> Stripped(attrs.model.value))
    && !NullOver(attrs.allowed, s.allowed) && !NullOver(attrs.forbidden, s.forbidden)
    && !NullOver(attrs.standards, s.standards) && !NullOver(attrs.rules, s.rules)
    && !(attrs.minimize.Null? && s.minimize)
  }

  /**
    `session_update` and the session store's `update` leave the same database exactly when the
    model is stripped and no explicit null would clear a list or flag that is set.
  */
  lemma UpdatesAgreeIff(c: Codec, prefix: string, db: Database, id: string, attrs: Attrs)
    requires Lossless(c)
    requires Strip(id) != "" && HGetAll(db, Key(prefix, id)) != map[]
    ensures DbUpdate(c, prefix, db, id, attrs).0 == RedisUpdate(c, prefix, db, id, attrs).0
            <==> SameMeaning(Decode(c, Strip(id), HGetAll(db, Key(prefix, id))), attrs)
  {
    var s := Decode(c, Strip(id), HGetAll(db, Key(prefix, id)));
    ServerUpdateWrites(c, prefix, db, id, attrs);
    StoreUpdateWrites(c, prefix, db, id, attrs, s);
    PatchesAgreeIff(s, attrs);
    WritesAgreeIff(c, db, Key(prefix, Strip(id)), DbPatch(s, attrs), RedisPatch(s, attrs));
  }

  lemma {:induction false} ServerUpdateWrites(c: Codec, prefix: string, db: Database, id: string, attrs: Attrs)
    requires Strip(id) != "" && HGetAll(db, Key(prefix, id)) != map[]
    ensures var t := DbPatch(Decode(c, Strip(id), HGetAll(db, Key(prefix, id))), attrs);
            DbUpdate(c, prefix, db, id, attrs)
            == (HSet(db, Key(prefix, Strip(id)), HashOf(c, t)), Success(Some(Presented(t))))
  {
    StripFixed(id);
    StripFixed(Strip(id));
  }

  lemma WritesAgreeIff(c: Codec, db: Database, key: string, s: Session, t: Session)
    requires Lossless(c) && s.id == t.id
    ensures HSet(db, key, HashOf(c, s)) == HSet(db, key, HashOf(c, t)) <==> Presented(s) == Presented(t)
  {
    var before := HGetAll(db, key);
    SameHash(c, s, t, before);
    var a, b := HSet(db, key, HashOf(c, s)), HSet(db, key, HashOf(c, t));
    assert a[key] == before + HashOf(c, s) && b[key] == before + HashOf(c, t);
  }

  lemma PatchesAgreeIff(s: Session, attrs: Attrs)
    ensures Presented(DbPatch(s, attrs)) == Presented(RedisPatch(s, attrs)) <==> SameMeaning(s, attrs)
  {
    StripFixed("");
    if attrs.model.Given? {
      StripFixed(attrs.model.value);
    }
    var d, r := DbPatch(s, attrs), RedisPatch(s, attrs);
    assert d.allowed == r.allowed <==> !NullOver(attrs.allowed, s.allowed);
    assert d.forbidden == r.forbidden <==> !NullOver(attrs.forbidden, s.forbidden);
    assert d.standards == r.standards <==> !NullOver(attrs.standards, s.standards);
    assert d.rules == r.rules <==> !NullOver(attrs.rules, s.rules);
    assert d.minimize == r.minimize <==> !(attrs.minimize.Null? && s.minimize);
    assert Presented(d).model == Presented(r).model <==> (attrs.model.Given? ==> Stripped(attrs.model.value));
  }
}
