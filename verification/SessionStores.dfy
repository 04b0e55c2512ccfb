/**
  The session stores: in memory, over a Redis hash, and the database server's own commands over
  the same hash layout.
*/
module SessionStores {
  import opened Values
  import opened Text
  import opened Sessions

  type Database = map<string, Hash>

  /** `json.dumps` and `json.loads` on lists of strings; `loads` is None for anything else. */
  datatype Codec = Codec(dumps: seq<string> -> string, loads: string -> Option<seq<string>>)

  ghost predicate Lossless(c: Codec) {
    forall xs :: c.loads(c.dumps(xs)) == Some(xs) && Strip(c.dumps(xs)) != ""
  }

  // ----- in memory -----

  type Memory = map<string, Session>

  function MemoryGet(m: Memory, id: string): Option<Session> {
    if Strip(id) in m then Some(m[Strip(id)]) else None
  }

  function ModelAfter(s: Session, attrs: Attrs): Option<string> {
    if attrs.model.Absent? then s.model else attrs.model.Get()
  }

  function MemoryPatch(s: Session, attrs: Attrs): Session {
    s.(model := ModelAfter(s, attrs),
       allowed := ListOr(attrs.allowed.Get(), s.allowed), forbidden := ListOr(attrs.forbidden.Get(), s.forbidden),
       standards := ListOr(attrs.standards.Get(), s.standards), rules := ListOr(attrs.rules.Get(), s.rules),
       minimize := if attrs.minimize.Absent? then s.minimize else attrs.minimize == Given(true))
  }

  function MemoryCreate(m: Memory, attrs: Attrs, uuid: string): (Memory, Answer) {
    var s := CreateSession(attrs, uuid);
    if s.None? then (m, ValueError) else (m[s.value.id := s.value], Found(s))
  }

  function MemoryUpdate(m: Memory, id: string, attrs: Attrs): (Memory, Answer) {
    if MemoryGet(m, id).None? then (m, KeyError) else
    var s := MemoryPatch(m[Strip(id)], attrs);
    (m[Strip(id) := s], Found(Some(s)))
  }

  class InMemorySessionStore {
    var sessions: Memory

    constructor ()
      ensures sessions == map[]
    {
      sessions := map[];
    }

    function Get(id: string): Option<Session>
      reads this
    {
      MemoryGet(sessions, id)
    }

    method Create(attrs: Attrs, uuid: string) returns (s: Option<Session>)
      modifies this
      ensures s == CreateSession(attrs, uuid)
      ensures sessions == if s.Some? then old(sessions)[s.value.id := s.value] else old(sessions)
    {
      s := CreateSession(attrs, uuid);
      if s.Some? {
        sessions := sessions[s.value.id := s.value];
      }
    }

    /** None is the KeyError for an unknown session. */
    method Update(id: string, attrs: Attrs) returns (s: Option<Session>)
      modifies this
      ensures MemoryGet(old(sessions), id).None? ==> s.None? && sessions == old(sessions)
      ensures MemoryGet(old(sessions), id).Some? ==>
                && s == Some(MemoryPatch(MemoryGet(old(sessions), id).value, attrs))
                && sessions == old(sessions)[Strip(id) := s.value]
    {
      var sid := Strip(id);
      if sid !in sessions {
        return None;
      }
      s := Some(MemoryPatch(sessions[sid], attrs));
      sessions := sessions[sid := s.value];
    }
  }

  // ----- the hash layout -----

  function TextOr(t: Option<string>): string {
    if t.Some? then t.value else ""
  }

  function HashOf(c: Codec, s: Session): Hash {
    map["model" := TextOr(s.model),
        "allowed_commands" := c.dumps(s.allowed), "forbidden_commands" := c.dumps(s.forbidden),
        "standards" := c.dumps(s.standards), "session_rules" := c.dumps(s.rules),
        "created_at" := TextOr(s.createdAt),
        "minimize_context" := if s.minimize then "true" else "false"]
  }

  /** `_decode_val` on a field: an empty value reads as missing. */
  function DecodeText(h: Hash, key: string): Option<string> {
    if key in h && h[key] != "" then Some(h[key]) else None
  }

  function DecodeList(c: Codec, h: Hash, key: string): seq<string> {
    var text := TextOr(DecodeText(h, key));
    if Strip(text) == "" then [] else ListOr(c.loads(text), [])
  }

  function Lower(s: string): string {
    seq(|s|, i requires 0 <= i < |s| => if 'A' <= s[i] <= 'Z' then (s[i] as int + 32) as char else s[i])
  }

  function DecodeBool(h: Hash, key: string): bool {
    Lower(Strip(TextOr(DecodeText(h, key)))) in ["1", "true", "yes"]
  }

  function Decode(c: Codec, id: string, h: Hash): Session {
    Session(id, DecodeText(h, "model"),
            DecodeList(c, h, "allowed_commands"), DecodeList(c, h, "forbidden_commands"),
            DecodeList(c, h, "standards"), DecodeList(c, h, "session_rules"),
            DecodeText(h, "created_at"), DecodeBool(h, "minimize_context"))
  }

  /** `hset` with a mapping: fields not in the mapping stay. */
  function HSet(db: Database, key: string, fields: Hash): Database {
    db[key := (if key in db then db[key] else map[]) + fields]
  }

  function HGetAll(db: Database, key: string): Hash {
    if key in db then db[key] else map[]
  }

  // ----- RedisSessionStore -----

  function Key(prefix: string, id: string): string {
    prefix + ":" + Strip(id)
  }

  datatype Answer = Found(session: Option<Session>) | KeyError | ValueError

  /** ValueError: a hash stored under a blank id makes the Session constructor refuse. */
  function RedisGet(c: Codec, prefix: string, db: Database, id: string): Answer {
    var raw := HGetAll(db, Key(prefix, id));
    if raw == map[] then Found(None)
    else if Strip(id) == "" then ValueError
    else Found(Some(Decode(c, Strip(id), raw)))
  }

  function RedisPatch(s: Session, attrs: Attrs): Session {
    s.(model := ModelAfter(s, attrs),
       allowed := ListOr(attrs.allowed.Get(), s.allowed), forbidden := ListOr(attrs.forbidden.Get(), s.forbidden),
       standards := ListOr(attrs.standards.Get(), s.standards), rules := ListOr(attrs.rules.Get(), s.rules),
       minimize := if attrs.minimize.Given? then attrs.minimize.value else s.minimize)
  }

  function RedisCreate(c: Codec, prefix: string, db: Database, attrs: Attrs, uuid: string): (Database, Answer) {
    var s := CreateSession(attrs, uuid);
    if s.None? then (db, ValueError)
    else (HSet(db, Key(prefix, s.value.id), HashOf(c, s.value)), Found(s))
  }

  function RedisUpdate(c: Codec, prefix: string, db: Database, id: string, attrs: Attrs): (Database, Answer) {
    var existing := RedisGet(c, prefix, db, id);
    if existing == Found(None) then (db, KeyError)
    else if existing.ValueError? || existing.KeyError? then (db, ValueError)
    else
      var s := RedisPatch(existing.session.value, attrs);
      (HSet(db, Key(prefix, id), HashOf(c, s)), Found(Some(s)))
  }

  /** `(key_prefix or "session").strip() or "session"`. */
  function SessionPrefix(keyPrefix: string): string {
    if Strip(keyPrefix) == "" then "session" else Strip(keyPrefix)
  }

  class RedisSessionStore {
    var db: Database
    const prefix: string
    const codec: Codec

    constructor (db: Database, keyPrefix: string, codec: Codec)
      ensures this.db == db && this.codec == codec
      ensures prefix != "" && Stripped(prefix)
      ensures Strip(keyPrefix) != "" ==> prefix == Strip(keyPrefix)
      ensures keyPrefix != "" && Stripped(keyPrefix) ==> prefix == keyPrefix
      ensures Strip(keyPrefix) == "" ==> prefix == "session"
    {
      this.db, this.codec, this.prefix := db, codec, SessionPrefix(keyPrefix);
      StripFixed(keyPrefix);
    }

    function Get(id: string): Answer
      reads this
    {
      RedisGet(codec, prefix, db, id)
    }

    method Create(attrs: Attrs, uuid: string) returns (a: Answer)
      modifies this
      ensures (db, a) == RedisCreate(codec, prefix, old(db), attrs, uuid)
    {
      var s := CreateSession(attrs, uuid);
      if s.None? {
        return ValueError;
      }
      db := HSet(db, Key(prefix, s.value.id), HashOf(codec, s.value));
      a := Found(s);
    }

    method Update(id: string, attrs: Attrs) returns (a: Answer)
      modifies this
      ensures (db, a) == RedisUpdate(codec, prefix, old(db), id, attrs)
    {
      var existing := Get(id);
      match existing
      case Found(None) => a := KeyError;
      case KeyError => a := ValueError;
      case ValueError => a := ValueError;
      case Found(Some(s)) =>
        var updated := RedisPatch(s, attrs);
        db := HSet(db, Key(prefix, id), HashOf(codec, updated));
        a := Found(Some(updated));
    }
  }

  // ----- either store -----

  datatype StoreState = MemoryState(sessions: Memory)
                      | RedisState(codec: Codec, prefix: string, db: Database) {
    function Get(id: string): Answer {
      match this
      case MemoryState(m) => Found(MemoryGet(m, id))
      case RedisState(c, prefix, db) => RedisGet(c, prefix, db, id)
    }

    /** The store with session `s` kept under the stripped id `sid`. */
    function With(sid: string, s: Session): StoreState {
      match this
      case MemoryState(m) => MemoryState(m[sid := s])
      case RedisState(c, prefix, db) => RedisState(c, prefix, HSet(db, Key(prefix, sid), HashOf(c, s)))
    }

    function Create(attrs: Attrs, uuid: string): (StoreState, Answer) {
      match this
      case MemoryState(m) => var (m', a) := MemoryCreate(m, attrs, uuid); (MemoryState(m'), a)
      case RedisState(c, prefix, db) =>
        var (db', a) := RedisCreate(c, prefix, db, attrs, uuid); (RedisState(c, prefix, db'), a)
    }

    function Update(id: string, attrs: Attrs): (StoreState, Answer) {
      match this
      case MemoryState(m) => var (m', a) := MemoryUpdate(m, id, attrs); (MemoryState(m'), a)
      case RedisState(c, prefix, db) =>
        var (db', a) := RedisUpdate(c, prefix, db, id, attrs); (RedisState(c, prefix, db'), a)
    }
  }

  datatype SessionStore = InMemory(memory: InMemorySessionStore) | InRedis(redis: RedisSessionStore) {
    function Objects(): set<object> {
      if InMemory? then {memory} else {redis}
    }

    function State(): StoreState
      reads Objects()
    {
      match this
      case InMemory(store) => MemoryState(store.sessions)
      case InRedis(store) => RedisState(store.codec, store.prefix, store.db)
    }

    function Get(id: string): (a: Answer)
      reads Objects()
      ensures a == State().Get(id)
    {
      match this
      case InMemory(store) => Found(store.Get(id))
      case InRedis(store) => store.Get(id)
    }

    method Create(attrs: Attrs, uuid: string) returns (a: Answer)
      modifies Objects()
      ensures (State(), a) == old(State()).Create(attrs, uuid)
    {
      match this
      case InMemory(store) =>
        var s := store.Create(attrs, uuid);
        a := if s.None? then ValueError else Found(s);
      case InRedis(store) =>
        a := store.Create(attrs, uuid);
    }

    method Update(id: string, attrs: Attrs) returns (a: Answer)
      modifies Objects()
      ensures (State(), a) == old(State()).Update(id, attrs)
    {
      match this
      case InMemory(store) =>
        var s := store.Update(id, attrs);
        a := if s.None? then KeyError else Found(s);
      case InRedis(store) =>
        a := store.Update(id, attrs);
    }
  }

  // ----- the database server's commands -----

  function DbPatch(s: Session, attrs: Attrs): Session {
    s.(model := if attrs.model.Absent? then s.model else Some(Strip(TextOr(attrs.model.Get()))),
       allowed := if attrs.allowed.Absent? then s.allowed else ListOr(attrs.allowed.Get(), []),
       forbidden := if attrs.forbidden.Absent? then s.forbidden else ListOr(attrs.forbidden.Get(), []),
       standards := if attrs.standards.Absent? then s.standards else ListOr(attrs.standards.Get(), []),
       rules := if attrs.rules.Absent? then s.rules else ListOr(attrs.rules.Get(), []),
       minimize := if attrs.minimize.Absent? then s.minimize else attrs.minimize == Given(true))
  }

  /** `value or None`. */
  function Presented(s: Session): Session {
    s.(model := if s.model == Some("") then None else s.model,
       createdAt := if s.createdAt == Some("") then None else s.createdAt)
  }

  datatype DbAnswer = Success(session: Option<Session>) | Error(message: string)

  function DbCreated(attrs: Attrs, uuid: string): Session {
    var id := if attrs.id.Given? && attrs.id.value != "" then attrs.id.value else uuid;
    Session(Strip(id), Some(Strip(TextOr(attrs.model.Get()))),
            ListOr(attrs.allowed.Get(), []), ListOr(attrs.forbidden.Get(), []),
            ListOr(attrs.standards.Get(), []), ListOr(attrs.rules.Get(), []),
            Some(Strip(TextOr(attrs.createdAt.Get()))), attrs.minimize == Given(true))
  }

  function DbUpdate(c: Codec, prefix: string, db: Database, id: string, attrs: Attrs): (Database, DbAnswer) {
    var sid := Strip(id);
    if sid == "" then (db, Error("session_id is required")) else
    var raw := HGetAll(db, Key(prefix, sid));
    if raw == map[] then (db, Error("Session not found: " + sid)) else
    var s := DbPatch(Decode(c, sid, raw), attrs);
    (HSet(db, Key(prefix, sid), HashOf(c, s)), Success(Some(Presented(s))))
  }

  class DatabaseServer {
    var db: Database
    const prefix: string
    const codec: Codec

    constructor (db: Database, prefix: string, codec: Codec)
      ensures this.db == db && this.prefix == prefix && this.codec == codec
    {
      this.db, this.prefix, this.codec := db, prefix, codec;
    }

    method SessionCreate(attrs: Attrs, uuid: string) returns (s: Session)
      modifies this
      ensures s == Presented(DbCreated(attrs, uuid))
      ensures db == HSet(old(db), Key(prefix, s.id), HashOf(codec, DbCreated(attrs, uuid)))
    {
      var created := DbCreated(attrs, uuid);
      db := HSet(db, Key(prefix, created.id), HashOf(codec, created));
      s := Presented(created);
    }

    method SessionGet(id: string) returns (a: DbAnswer)
      ensures a == if Strip(id) == "" then Error("session_id is required")
                   else Success(RedisGet(codec, prefix, db, id).session)
    {
      var sid := Strip(id);
      StripFixed(id);
      if sid == "" {
        return Error("session_id is required");
      }
      var raw := HGetAll(db, Key(prefix, sid));
      a := Success(if raw == map[] then None else Some(Decode(codec, sid, raw)));
    }

    method SessionUpdate(id: string, attrs: Attrs) returns (a: DbAnswer)
      modifies this
      ensures (db, a) == DbUpdate(codec, prefix, old(db), id, attrs)
    {
      var sid := Strip(id);
      if sid == "" {
        return Error("session_id is required");
      }
      var raw := HGetAll(db, Key(prefix, sid));
      if raw == map[] {
        return Error("Session not found: " + sid);
      }
      var s := MergeInto(Decode(codec, sid, raw), attrs);
      db := HSet(db, Key(prefix, sid), HashOf(codec, s));
      a := Success(Some(Presented(s)));
    }

    /** Each provided field overwrites its variable; an explicit null counts as provided. */
    method MergeInto(existing: Session, attrs: Attrs) returns (s: Session)
      ensures s == DbPatch(existing, attrs)
    {
      var model, allowed, forbidden := existing.model, existing.allowed, existing.forbidden;
      var standards, rules, minimize := existing.standards, existing.rules, existing.minimize;
      if !attrs.model.Absent? {
        model := Some(Strip(TextOr(attrs.model.Get())));
      }
      if !attrs.allowed.Absent? {
        allowed := ListOr(attrs.allowed.Get(), []);
      }
      if !attrs.forbidden.Absent? {
        forbidden := ListOr(attrs.forbidden.Get(), []);
      }
      if !attrs.standards.Absent? {
        standards := ListOr(attrs.standards.Get(), []);
      }
      if !attrs.rules.Absent? {
        rules := ListOr(attrs.rules.Get(), []);
      }
      if !attrs.minimize.Absent? {
        minimize := attrs.minimize == Given(true);
      }
      s := existing.(model := model, allowed := allowed, forbidden := forbidden,
                     standards := standards, rules := rules, minimize := minimize);
    }
  }
}
