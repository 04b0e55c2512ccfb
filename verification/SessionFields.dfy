/** What creating and updating a session means field by field, as a later read shows it. */
module SessionFields {
  import opened Values
  import opened Text
  import opened Sessions
  import opened SessionStores
  import opened StoreLaws
  import opened CommandRuns

  // ----- created -----

  /** The given text; without one, or with an empty one, no text or an empty one. */
  predicate TextIsGiven(a: Attr<string>, field: Option<string>) {
    if a.Given? && a.value != "" then field == Some(a.value) else field == None || field == Some("")
  }

  predicate ListIsGiven(a: Attr<seq<string>>, field: seq<string>) {
    if a.Given? then field == a.value else field == []
  }

  /** Each given attribute is in its own field, and what is not given is empty. */
  predicate CreatedFrom(attrs: Attrs, s: Session) {
    && TextIsGiven(attrs.model, s.model) && TextIsGiven(attrs.createdAt, s.createdAt)
    && ListIsGiven(attrs.allowed, s.allowed) && ListIsGiven(attrs.forbidden, s.forbidden)
    && ListIsGiven(attrs.standards, s.standards) && ListIsGiven(attrs.rules, s.rules)
    && (s.minimize <==> attrs.minimize == Given(true))
  }

  /** The given id, or the generated one. */
  predicate IdFor(attrs: Attrs, uuid: string, id: string) {
    if attrs.id.Given? && attrs.id.value != "" then id == attrs.id.value else id == uuid
  }

  /** The store has under this id a session that satisfies `p`. */
  ghost predicate Reads(st: StoreState, id: string, p: Session -> bool) {
    Known(st, id) && p(st.Get(id).session.value)
  }

  lemma OthersUntouched(st: StoreState, id: string, s: Session, other: string)
    requires Strip(other) != Strip(id)
    ensures st.RedisState? ==> st.With(id, s).Get(other) == st.Get(other)
    ensures st.MemoryState? ==> st.(sessions := st.sessions[Strip(id) := s]).Get(other) == st.Get(other)
  {
    if st.RedisState? {
      KeysDiffer(st.prefix, id, other);
    }
  }

  /**
    A created session reads back under its id with every given attribute in its own field, in the
    Redis store for any non-blank id, in memory for a stripped one; a blank id is refused.
  */
  lemma {:induction false} CreatedIsReadBack(st: StoreState, attrs: Attrs, uuid: string, id: string)
    requires Reliable(st) && IdFor(attrs, uuid, id)
    ensures var (st', a) := st.Create(attrs, uuid);
            && (a == ValueError <==> Strip(id) == "")
            && (a == ValueError ==> st' == st)
            && (a != ValueError ==>
                  && a.Found? && a.session.Some? && a.session.value.id == id && CreatedFrom(attrs, a.session.value)
                  && (st.RedisState? || Stripped(id) ==>
                        Reads(st', id, (s: Session) => s.id == Strip(id) && CreatedFrom(attrs, s))))
  {
    var s := CreateSession(attrs, uuid);
    FieldsOfCreated(attrs, uuid, id);
    if s.Some? {
      if st.RedisState? {
        WrittenIsReadBack(st.codec, st.prefix, st.db, attrs, s.value);
      } else {
        StripFixed(id);
      }
    }
  }

  lemma FieldsOfCreated(attrs: Attrs, uuid: string, id: string)
    requires IdFor(attrs, uuid, id)
    ensures var s := CreateSession(attrs, uuid);
            && (s.None? <==> Strip(id) == "")
            && (s.Some? ==> s.value.id == id && CreatedFrom(attrs, s.value))
  {
  }

  lemma WrittenIsReadBack(c: Codec, prefix: string, db: Database, attrs: Attrs, s: Session)
    requires Lossless(c) && CreatedFrom(attrs, s) && Strip(s.id) != ""
    ensures Reads(RedisState(c, prefix, HSet(db, Key(prefix, s.id), HashOf(c, s))), s.id,
                  (t: Session) => t.id == Strip(s.id) && CreatedFrom(attrs, t))
  {
    var st := RedisState(c, prefix, HSet(db, Key(prefix, s.id), HashOf(c, s)));
    OverwrittenReads(c, prefix, db, s);
    PresentedIsCreated(attrs, s);
    FoundIsRead(st, s.id, Presented(s).(id := Strip(s.id)),
                (t: Session) => t.id == Strip(s.id) && CreatedFrom(attrs, t));
  }

  lemma FoundIsRead(st: StoreState, id: string, s: Session, p: Session -> bool)
    requires st.Get(id) == Found(Some(s)) && p(s)
    ensures Reads(st, id, p)
  {
  }

  lemma PresentedIsCreated(attrs: Attrs, s: Session)
    requires CreatedFrom(attrs, s)
    ensures CreatedFrom(attrs, Presented(s).(id := Strip(s.id)))
  {
  }

  /** And no other session is touched. */
  lemma {:induction false} CreationTouchesNoOther(st: StoreState, attrs: Attrs, uuid: string, id: string, other: string)
    requires IdFor(attrs, uuid, id) && Strip(other) != Strip(id)
    requires st.MemoryState? ==> Stripped(id)
    ensures st.Create(attrs, uuid).0.Get(other) == st.Get(other)
  {
    var s := CreateSession(attrs, uuid);
    StripFixed(id);
    if s.Some? {
      OthersUntouched(st, id, s.value, other);
    }
  }

  // ----- updated -----

  /** Equal, or both without text. */
  predicate SameText(a: Option<string>, b: Option<string>) {
    a == b || ((a == None || a == Some("")) && (b == None || b == Some("")))
  }

  /** An absent attribute leaves the text; a given one, or an explicit null, replaces it. */
  predicate TextIsUpdated(a: Attr<string>, before: Option<string>, after: Option<string>) {
    if a.Absent? then SameText(before, after) else TextIsGiven(a, after)
  }

  /** A given list replaces the field; an absent one, or an explicit null, leaves it. */
  predicate ListIsUpdated(a: Attr<seq<string>>, before: seq<string>, after: seq<string>) {
    after == if a.Given? then a.value else before
  }

  /** `nullClears`: an explicit null clears the flag, where the other store leaves it. */
  predicate FlagIsUpdated(a: Attr<bool>, before: bool, after: bool, nullClears: bool) {
    match a
    case Given(b) => after == b
    case Absent => after == before
    case Null => after == (before && !nullClears)
  }

  predicate UpdatedFrom(attrs: Attrs, before: Session, after: Session, nullClears: bool) {
    && after.id == before.id && SameText(before.createdAt, after.createdAt)
    && TextIsUpdated(attrs.model, before.model, after.model)
    && ListIsUpdated(attrs.allowed, before.allowed, after.allowed)
    && ListIsUpdated(attrs.forbidden, before.forbidden, after.forbidden)
    && ListIsUpdated(attrs.standards, before.standards, after.standards)
    && ListIsUpdated(attrs.rules, before.rules, after.rules)
    && FlagIsUpdated(attrs.minimize, before.minimize, after.minimize, nullClears)
  }

  /**
    An updated session reads back with every given attribute in its own field and all else as it
    was; the stores differ on an explicit null for the flag. An unknown session is refused.
  */
  lemma {:induction false} UpdatedIsReadBack(st: StoreState, id: string, attrs: Attrs)
    requires Reliable(st)
    ensures var (st', a) := st.Update(id, attrs);
            && (!Known(st, id) ==> !a.Found? && st' == st)
            && (st.Get(id) == Found(None) ==> a == KeyError)
            && (Known(st, id) ==>
                  && var before := st.Get(id).session.value;
                     && a.Found? && a.session.Some?
                     && UpdatedFrom(attrs, before, a.session.value, st.MemoryState?)
                     && Reads(st', id, (s: Session) => UpdatedFrom(attrs, before, s, st.MemoryState?)))
  {
    StripFixed(id);
    StripFixed(Strip(id));
    if Known(st, id) {
      FieldsOfUpdated(st.Get(id).session.value, attrs);
      if st.RedisState? {
        RedisUpdateReads(st, id, attrs);
      }
    }
  }

  lemma FieldsOfUpdated(s: Session, attrs: Attrs)
    ensures UpdatedFrom(attrs, s, MemoryPatch(s, attrs), true)
    ensures UpdatedFrom(attrs, s, RedisPatch(s, attrs), false)
    ensures UpdatedFrom(attrs, s, Presented(RedisPatch(s, attrs)), false)
  {
  }

  lemma RedisUpdateReads(st: StoreState, id: string, attrs: Attrs)
    requires Reliable(st) && st.RedisState? && Known(st, id)
    ensures var s := RedisPatch(st.Get(id).session.value, attrs);
            && st.Update(id, attrs).1 == Found(Some(s))
            && st.Update(id, attrs).0.Get(id) == Found(Some(Presented(s)))
  {
    var s := RedisPatch(st.Get(id).session.value, attrs);
    StripFixed(id);
    StripFixed(Strip(id));
    RedisSessionsKeepIds(st, id);
    StoreUpdateWrites(st.codec, st.prefix, st.db, id, attrs, st.Get(id).session.value);
    GetAfterWrite(st.codec, st.prefix, st.db, s, id);
  }

  lemma RedisSessionsKeepIds(st: StoreState, id: string)
    requires st.RedisState? && Known(st, id)
    ensures st.Get(id).session.value.id == Strip(id) != ""
  {
  }

  lemma {:induction false} UpdateTouchesNoOther(st: StoreState, id: string, attrs: Attrs, other: string)
    requires Strip(other) != Strip(id)
    ensures st.Update(id, attrs).0.Get(other) == st.Get(other)
  {
    if Known(st, id) {
      if st.RedisState? {
        OthersUntouched(st, id, RedisPatch(st.Get(id).session.value, attrs), other);
      } else {
        OthersUntouched(st, id, MemoryPatch(st.sessions[Strip(id)], attrs), other);
      }
    }
  }

  // ----- the database server -----

  /** The server strips the texts. */
  function StrippedTexts(attrs: Attrs): Attrs {
    attrs.(model := if attrs.model.Given? then Given(Strip(attrs.model.value)) else attrs.model,
           createdAt := if attrs.createdAt.Given? then Given(Strip(attrs.createdAt.value)) else attrs.createdAt)
  }

  /** What `session_create` answers and what the session store then reads has the given fields. */
  lemma {:induction false} ServerCreatedIsReadBack(c: Codec, prefix: string, db: Database, attrs: Attrs, uuid: string,
                                                   id: string)
    requires Lossless(c) && IdFor(attrs, uuid, id)
    ensures var s := DbCreated(attrs, uuid);
            var st := RedisState(c, prefix, HSet(db, Key(prefix, s.id), HashOf(c, s)));
            && s.id == Strip(id) && CreatedFrom(StrippedTexts(attrs), Presented(s))
            && Presented(s).model != Some("") && Presented(s).createdAt != Some("")
            && (s.id != "" ==> Reads(st, id, (t: Session) => t == Presented(s)))
  {
    FieldsOfServerCreated(attrs, uuid, id);
    ServerCreatedReads(c, prefix, db, attrs, uuid, id);
  }

  lemma ServerCreatedReads(c: Codec, prefix: string, db: Database, attrs: Attrs, uuid: string, id: string)
    requires Lossless(c) && DbCreated(attrs, uuid).id == Strip(id)
    ensures var s := DbCreated(attrs, uuid);
            s.id != "" ==>
              RedisGet(c, prefix, HSet(db, Key(prefix, s.id), HashOf(c, s)), id) == Found(Some(Presented(s)))
  {
    var s := DbCreated(attrs, uuid);
    StoreReadsWhatServerCreates(c, prefix, db, attrs, uuid);
    KeyOfStripped(c, prefix, HSet(db, Key(prefix, s.id), HashOf(c, s)), id);
  }

  lemma FieldsOfServerCreated(attrs: Attrs, uuid: string, id: string)
    requires IdFor(attrs, uuid, id)
    ensures var s := DbCreated(attrs, uuid);
            && s.id == Strip(id) && CreatedFrom(StrippedTexts(attrs), Presented(s))
            && Presented(s).model != Some("") && Presented(s).createdAt != Some("")
  {
    StripFixed("");
  }

  lemma KeyOfStripped(c: Codec, prefix: string, db: Database, id: string)
    ensures RedisGet(c, prefix, db, id) == RedisGet(c, prefix, db, Strip(id))
  {
    StripFixed(id);
    StripFixed(Strip(id));
  }

  /** The server takes an explicit null for an empty value everywhere. */
  predicate ServerUpdatedFrom(attrs: Attrs, before: Session, after: Session) {
    && after.id == before.id && SameText(before.createdAt, after.createdAt)
    && TextIsUpdated(StrippedTexts(attrs).model, before.model, after.model)
    && (if attrs.allowed.Absent? then after.allowed == before.allowed else ListIsGiven(attrs.allowed, after.allowed))
    && (if attrs.forbidden.Absent? then after.forbidden == before.forbidden
        else ListIsGiven(attrs.forbidden, after.forbidden))
    && (if attrs.standards.Absent? then after.standards == before.standards
        else ListIsGiven(attrs.standards, after.standards))
    && (if attrs.rules.Absent? then after.rules == before.rules else ListIsGiven(attrs.rules, after.rules))
    && FlagIsUpdated(attrs.minimize, before.minimize, after.minimize, true)
  }

  /** What `session_update` answers is what the session store then reads: the given fields, the rest as before. */
  lemma {:induction false} ServerUpdatedIsReadBack(c: Codec, prefix: string, db: Database, id: string, attrs: Attrs)
    requires Lossless(c)
    ensures var st := RedisState(c, prefix, db);
            var (db', a) := DbUpdate(c, prefix, db, id, attrs);
            && (a == Error("session_id is required") <==> Strip(id) == "")
            && (a == Error("Session not found: " + Strip(id)) <==> Strip(id) != "" && !Known(st, id))
            && (a.Error? ==> db' == db)
            && (Known(st, id) ==>
                  && a.Success? && a.session.Some?
                  && ServerUpdatedFrom(attrs, st.Get(id).session.value, a.session.value)
                  && Reads(RedisState(c, prefix, db'), id, (s: Session) => s == a.session.value))
  {
    var st := RedisState(c, prefix, db);
    ServerRefusals(c, prefix, db, id, attrs);
    if Known(st, id) {
      FieldsOfServerUpdated(st.Get(id).session.value, attrs);
      ServerUpdateReads(c, prefix, db, id, attrs);
    }
  }

  lemma ServerRefusals(c: Codec, prefix: string, db: Database, id: string, attrs: Attrs)
    ensures var (db', a) := DbUpdate(c, prefix, db, id, attrs);
            && (a == Error("session_id is required") <==> Strip(id) == "")
            && (a == Error("Session not found: " + Strip(id)) <==>
                  Strip(id) != "" && !Known(RedisState(c, prefix, db), id))
            && (a.Error? <==> !Known(RedisState(c, prefix, db), id))
            && (a.Error? ==> db' == db)
  {
    StripFixed(id);
    StripFixed(Strip(id));
    assert ("Session not found: " + Strip(id))[0] == 'S';
  }

  lemma FieldsOfServerUpdated(s: Session, attrs: Attrs)
    ensures ServerUpdatedFrom(attrs, s, Presented(DbPatch(s, attrs)))
  {
    StripFixed("");
  }

  lemma ServerUpdateReads(c: Codec, prefix: string, db: Database, id: string, attrs: Attrs)
    requires Lossless(c) && Known(RedisState(c, prefix, db), id)
    ensures var s := DbPatch(RedisState(c, prefix, db).Get(id).session.value, attrs);
            var (db', a) := DbUpdate(c, prefix, db, id, attrs);
            a == Success(Some(Presented(s))) && RedisGet(c, prefix, db', id) == Found(Some(Presented(s)))
  {
    var s := DbPatch(RedisState(c, prefix, db).Get(id).session.value, attrs);
    StripFixed(id);
    StripFixed(Strip(id));
    ServerUpdateWrites(c, prefix, db, id, attrs);
    GetAfterWrite(c, prefix, db, s, id);
  }

  // ----- flags written by others -----

  /** Equal up to the case of ASCII letters, where `word` is in lower case. */
  predicate LowerCaseIs(text: string, word: string) {
    |text| == |word| && forall i :: 0 <= i < |word| ==>
      text[i] == word[i] || ('A' <= text[i] <= 'Z' && text[i] as int + 32 == word[i] as int)
  }

  /** The flag is set exactly for 1, true and yes, in any case and with any outer white space. */
  lemma {:induction false} FlagIsSetIff(h: Hash, key: string)
    ensures DecodeBool(h, key) <==>
            key in h && (LowerCaseIs(Strip(h[key]), "1") || LowerCaseIs(Strip(h[key]), "true")
                         || LowerCaseIs(Strip(h[key]), "yes"))
  {
    StripFixed("");
    if key in h {
      var text := Strip(h[key]);
      LowerIs(text, "1");
      LowerIs(text, "true");
      LowerIs(text, "yes");
    }
  }

  lemma LowerIs(text: string, word: string)
    requires forall i :: 0 <= i < |word| ==> !('A' <= word[i] <= 'Z')
    ensures Lower(text) == word <==> LowerCaseIs(text, word)
  {
    if LowerCaseIs(text, word) {
      assert forall i :: 0 <= i < |word| ==> Lower(text)[i] == word[i];
    }
    if Lower(text) == word {
      forall i | 0 <= i < |word|
        ensures text[i] == word[i] || ('A' <= text[i] <= 'Z' && text[i] as int + 32 == word[i] as int)
      {
        assert Lower(text)[i] == word[i];
      }
    }
  }
}
