/**
  The effective tool list: policy filter, session filter, preferred server first, vectorization
  commands appended, first id per command name kept, and a registry from names to commands.
*/
module ToolList {
  import opened Values
  import opened Text
  import opened CommandIds
  import opened Sessions

  datatype Schema = Schema(name: string, description: string, parameters: string)

  /** One discovered command. */
  datatype Entry = Entry(id: string, schema: Schema, available: bool)

  datatype Policy = AllowByDefault | DenyByDefault

  datatype PolicyConfig = PolicyConfig(allowed: seq<string>, forbidden: seq<string>, policy: Policy) {
    function FilterCandidates(ids: seq<string>): seq<string> {
      var candidates := Filter(c => c !in forbidden, ids);
      if policy == DenyByDefault then Filter(c => c in allowed, candidates)
      else if allowed != [] then Filter(c => c in allowed, candidates)
      else candidates
    }

    predicate Permits(id: string) {
      id !in forbidden && (id in allowed || (policy == AllowByDefault && allowed == []))
    }
  }

  const VECTORIZATION_IDS: seq<string> := ["embed_execute.embedding-service", "embed.embedding-service"]

  /** What the session's own lists let through: an empty allow-list lets everything through. */
  predicate SessionPermits(s: Session, id: string) {
    id !in s.forbidden && (s.allowed == [] || id in s.allowed)
  }

  type Target = (string, string)

  /** Display name to (command name, server id). */
  class ToolCallRegistry {
    var mapping: map<string, Target>

    constructor ()
      ensures mapping == map[]
    {
      mapping := map[];
    }

    /** A blank name is refused (ValueError) and changes nothing. */
    method Register(display: string, name: string, server: string) returns (ok: bool)
      modifies this
      ensures ok <==> Strip(display) != ""
      ensures mapping == if ok then old(mapping)[Strip(display) := (name, server)] else old(mapping)
    {
      ok := Strip(display) != "";
      if ok {
        mapping := mapping[Strip(display) := (name, server)];
      }
    }

    /** None is the KeyError for an unknown name. */
    function Resolve(display: string): (t: Option<Target>)
      reads this
    {
      Lookup(mapping, display)
    }
  }

  function Lookup(mapping: map<string, Target>, display: string): Option<Target> {
    var key := Strip(display);
    if key in mapping then Some(mapping[key]) else None
  }

  // ----- the list algorithm, as functions on ids -----

  function Available(discovered: seq<Entry>): seq<Entry> {
    Filter((e: Entry) => e.available, discovered)
  }

  function Ids(entries: seq<Entry>): (ids: seq<string>)
    ensures |ids| == |entries|
    ensures forall i :: 0 <= i < |ids| ==> ids[i] == entries[i].id
  {
    seq(|entries|, i requires 0 <= i < |entries| => entries[i].id)
  }

  /** The dictionary id -> schema: a later entry with the same id replaces an earlier one. */
  function SchemaOf(entries: seq<Entry>): (m: map<string, Schema>)
    ensures forall id :: id in m <==> exists e :: e in entries && e.id == id
    ensures forall id :: id in m ==> exists e :: e in entries && e == Entry(id, m[id], e.available)
  {
    if entries == [] then map[] else
    var last := entries[|entries| - 1];
    var front := entries[..|entries| - 1];
    assert entries == front + [last];
    SchemaOf(front)[last.id := last.schema]
  }

  /** Ids that pass config and session, in discovery order. */
  function PermittedIds(s: Session, cfg: PolicyConfig, discovered: seq<Entry>): seq<string> {
    var effective := Filter(c => c !in s.forbidden, cfg.FilterCandidates(Ids(Available(discovered))));
    if s.allowed != [] then Filter(c => c in s.allowed, effective) else effective
  }

  function PreferredFirst(ids: seq<string>, preferred: Option<string>): seq<string> {
    if preferred.None? || preferred.value == "" then ids
    else
      var first := Filter(c => ServerOf(c) == preferred.value, ids);
      first + Filter(c => c !in first, ids)
  }

  /** Vectorization ids that are discovered, not forbidden by the session and not yet listed. */
  function AddVectorization(s: Session, schemas: map<string, Schema>, ids: seq<string>, vids: seq<string>): seq<string>
    decreases |vids|
  {
    if vids == [] then ids
    else if vids[0] !in s.forbidden && vids[0] in schemas && vids[0] !in ids then
      AddVectorization(s, schemas, ids + [vids[0]], vids[1..])
    else AddVectorization(s, schemas, ids, vids[1..])
  }

  function EffectiveIds(s: Session, cfg: PolicyConfig, discovered: seq<Entry>, preferred: Option<string>): seq<string>
  {
    AddVectorization(s, SchemaOf(Available(discovered)),
                     PreferredFirst(PermittedIds(s, cfg, discovered), preferred), VECTORIZATION_IDS)
  }

  function Names(ids: seq<string>): (names: seq<string>)
    ensures |names| == |ids|
    ensures forall i :: 0 <= i < |ids| ==> names[i] == NameOf(ids[i])
  {
    seq(|ids|, i requires 0 <= i < |ids| => NameOf(ids[i]))
  }

  /** The first id of each command name. */
  function FirstPerName(ids: seq<string>): (kept: seq<string>)
    ensures forall c :: c in kept ==> c in ids
  {
    if ids == [] then [] else
    var last := ids[|ids| - 1];
    var kept := FirstPerName(ids[..|ids| - 1]);
    if NameOf(last) in Names(kept) then kept else kept + [last]
  }

  /** The registry after registering the names of `kept` in order. */
  function RegistryOf(kept: seq<string>): map<string, Target> {
    if kept == [] then map[] else
    var last := kept[|kept| - 1];
    RegistryOf(kept[..|kept| - 1])[Strip(NameOf(last)) := ParseId(last)]
  }

  predicate Registrable(kept: seq<string>) {
    forall c :: c in kept ==> Strip(NameOf(c)) != ""
  }

  datatype Tool = Tool(name: string, schema: Schema)

  function ToolsOf(kept: seq<string>, schemas: map<string, Schema>): (tools: seq<Tool>)
    requires forall c :: c in kept ==> c in schemas
    ensures |tools| == |kept|
    ensures forall i :: 0 <= i < |kept| ==> tools[i] == Tool(NameOf(kept[i]), schemas[kept[i]])
  {
    seq(|kept|, i requires 0 <= i < |kept| => Tool(NameOf(kept[i]), schemas[kept[i]]))
  }

  function ToolNames(tools: seq<Tool>): (names: seq<string>)
    ensures |names| == |tools|
    ensures forall i :: 0 <= i < |tools| ==> names[i] == tools[i].name
  {
    seq(|tools|, i requires 0 <= i < |tools| => tools[i].name)
  }

  lemma ToolNamesOf(kept: seq<string>, schemas: map<string, Schema>)
    requires forall c :: c in kept ==> c in schemas
    ensures ToolNames(ToolsOf(kept, schemas)) == Names(kept)
  {
  }

  /** The ids behind the listed tools. */
  function KeptIds(s: Session, cfg: PolicyConfig, discovered: seq<Entry>, preferred: Option<string>): seq<string> {
    FirstPerName(EffectiveIds(s, cfg, discovered, preferred))
  }

  // ----- the builder -----

  /** ValueError is raised by a blank display name. */
  datatype BuildResult = Built(tools: seq<Tool>, registry: ToolCallRegistry) | ValueError

  /** The dedupe loop: a name already seen is skipped. */
  method DedupeByName(ids: seq<string>) returns (deduped: seq<string>)
    ensures deduped == FirstPerName(ids)
  {
    var seen: set<string> := {};
    deduped := [];
    for i := 0 to |ids|
      invariant deduped == FirstPerName(ids[..i])
      invariant forall n :: n in seen <==> n in Names(deduped)
    {
      var name := NameOf(ids[i]);
      assert ids[..i + 1][..i] == ids[..i];
      if name !in seen {
        assert Names(deduped + [ids[i]]) == Names(deduped) + [name];
        seen := seen + {name};
        deduped := deduped + [ids[i]];
      }
    }
    assert ids[..|ids|] == ids;
  }

  /** The vectorization loop. */
  method AppendVectorization(s: Session, schemas: map<string, Schema>, ids: seq<string>)
    returns (effective: seq<string>)
    ensures effective == AddVectorization(s, schemas, ids, VECTORIZATION_IDS)
  {
    effective := ids;
    for i := 0 to |VECTORIZATION_IDS|
      invariant AddVectorization(s, schemas, effective, VECTORIZATION_IDS[i..]) ==
                AddVectorization(s, schemas, ids, VECTORIZATION_IDS)
    {
      var vid := VECTORIZATION_IDS[i];
      if vid !in s.forbidden && vid in schemas && vid !in effective {
        effective := effective + [vid];
      }
    }
  }

  lemma {:induction false} RegisterOneMore(ids: seq<string>, i: nat, schemas: map<string, Schema>)
    requires i < |ids| && forall c :: c in ids ==> c in schemas
    ensures var id := ids[i];
            && ToolsOf(ids[..i + 1], schemas) == ToolsOf(ids[..i], schemas) + [Tool(NameOf(id), schemas[id])]
            && RegistryOf(ids[..i + 1]) == RegistryOf(ids[..i])[Strip(NameOf(id)) := ParseId(id)]
            && (Registrable(ids[..i + 1]) <==> Registrable(ids[..i]) && Strip(NameOf(id)) != "")
  {
    assert ids[..i + 1] == ids[..i] + [ids[i]];
    assert ids[..i + 1][..i] == ids[..i];
  }

  /** The registration loop. */
  method RegisterAll(ids: seq<string>, schemas: map<string, Schema>) returns (r: BuildResult)
    requires forall c :: c in ids ==> c in schemas
    ensures r.Built? <==> Registrable(ids)
    ensures r.Built? ==> r.tools == ToolsOf(ids, schemas) && r.registry.mapping == RegistryOf(ids)
  {
    var registry := new ToolCallRegistry();
    var tools: seq<Tool> := [];
    for i := 0 to |ids|
      invariant Registrable(ids[..i])
      invariant tools == ToolsOf(ids[..i], schemas)
      invariant registry.mapping == RegistryOf(ids[..i])
    {
      var id := ids[i];
      var (name, server) := ParseId(id);
      RegisterOneMore(ids, i, schemas);
      var ok := registry.Register(name, name, server);
      if !ok {
        assert id in ids;
        return ValueError;
      }
      tools := tools + [Tool(name, schemas[id])];
    }
    assert ids[..|ids|] == ids;
    r := Built(tools, registry);
  }

  method Build(s: Session, cfg: PolicyConfig, discovered: seq<Entry>, preferred: Option<string>)
    returns (r: BuildResult)
    ensures var kept := KeptIds(s, cfg, discovered, preferred);
            var schemas := SchemaOf(Available(discovered));
            && (r.Built? <==> Registrable(kept))
            && (forall c :: c in kept ==> c in schemas)
            && (r.Built? ==> r.tools == ToolsOf(kept, schemas) && r.registry.mapping == RegistryOf(kept))
  {
    var idToSchema := SchemaOf(Available(discovered));
    var effective := PermittedIds(s, cfg, discovered);
    effective := PreferredFirst(effective, preferred);
    effective := AppendVectorization(s, idToSchema, effective);
    var deduped := DedupeByName(effective);
    EffectiveIdsAreDiscovered(s, cfg, discovered, preferred);
    r := RegisterAll(deduped, idToSchema);
  }

  // ----- what the final order contains -----

  lemma PermittedMembers(s: Session, cfg: PolicyConfig, discovered: seq<Entry>, id: string)
    ensures id in PermittedIds(s, cfg, discovered) <==>
            id in Ids(Available(discovered)) && cfg.Permits(id) && SessionPermits(s, id)
  {
  }

  lemma PreferredFirstMembers(ids: seq<string>, preferred: Option<string>, id: string)
    ensures id in PreferredFirst(ids, preferred) <==> id in ids
  {
  }

  lemma {:induction false} AddVectorizationExtends(s: Session, schemas: map<string, Schema>, ids: seq<string>,
                                                   vids: seq<string>)
    ensures ids <= AddVectorization(s, schemas, ids, vids)
    ensures forall id :: id in AddVectorization(s, schemas, ids, vids) <==>
              id in ids || (id in vids && id !in s.forbidden && id in schemas)
    ensures forall k :: |ids| <= k < |AddVectorization(s, schemas, ids, vids)| ==>
              AddVectorization(s, schemas, ids, vids)[k] in vids
    decreases |vids|
  {
    if vids != [] {
      var v := vids[0];
      var more := if v !in s.forbidden && v in schemas && v !in ids then ids + [v] else ids;
      AddVectorizationExtends(s, schemas, more, vids[1..]);
      assert forall id :: id in vids <==> id == v || id in vids[1..];
    }
  }

  predicate Discovered(discovered: seq<Entry>, id: string) {
    exists e :: e in discovered && e.available && e.id == id
  }

  /**
    The ids the model may reach: available, not forbidden by the session, and either let through
    by both filters or one of the two vectorization ids.
  */
  predicate Reachable(s: Session, cfg: PolicyConfig, discovered: seq<Entry>, id: string) {
    && Discovered(discovered, id)
    && id !in s.forbidden
    && ((cfg.Permits(id) && SessionPermits(s, id)) || id in VECTORIZATION_IDS)
  }

  lemma DiscoveredIds(discovered: seq<Entry>, id: string)
    ensures id in Ids(Available(discovered)) <==> Discovered(discovered, id)
    ensures id in SchemaOf(Available(discovered)) <==> Discovered(discovered, id)
  {
    var available := Available(discovered);
    if id in Ids(available) {
      var i :| 0 <= i < |available| && Ids(available)[i] == id;
      assert available[i] in available;
    }
    if e :| e in discovered && e.available && e.id == id {
      var i :| 0 <= i < |available| && available[i] == e;
      assert Ids(available)[i] == id;
    }
  }

  lemma {:induction false} EffectiveIdsAreDiscovered(s: Session, cfg: PolicyConfig, discovered: seq<Entry>,
                                                     preferred: Option<string>)
    ensures forall id :: id in EffectiveIds(s, cfg, discovered, preferred) ==> id in SchemaOf(Available(discovered))
  {
    forall id | id in EffectiveIds(s, cfg, discovered, preferred) ensures id in SchemaOf(Available(discovered)) {
      EffectiveIdsAreTheReachable(s, cfg, discovered, preferred, id);
      DiscoveredIds(discovered, id);
    }
  }

  lemma {:induction false} EffectiveIdsAreTheReachable(s: Session, cfg: PolicyConfig, discovered: seq<Entry>,
                                                       preferred: Option<string>, id: string)
    ensures id in EffectiveIds(s, cfg, discovered, preferred) <==> Reachable(s, cfg, discovered, id)
  {
    var permitted := PermittedIds(s, cfg, discovered);
    AddVectorizationExtends(s, SchemaOf(Available(discovered)), PreferredFirst(permitted, preferred),
                            VECTORIZATION_IDS);
    PermittedMembers(s, cfg, discovered, id);
    PreferredFirstMembers(permitted, preferred, id);
    DiscoveredIds(discovered, id);
  }

  /** A config-forbidden id is listed after all exactly when it is a discovered vectorization id. */
  lemma {:induction false} ForbiddenByConfigYetReachable(s: Session, cfg: PolicyConfig, discovered: seq<Entry>,
                                                         preferred: Option<string>, id: string)
    requires id in cfg.forbidden
    ensures id in EffectiveIds(s, cfg, discovered, preferred) <==>
            id in VECTORIZATION_IDS && Discovered(discovered, id) && id !in s.forbidden
  {
    EffectiveIdsAreTheReachable(s, cfg, discovered, preferred, id);
  }

  // ----- sessions that list alike -----

  /** The two sessions' lists agree on `ids`, and both or neither have an allow-list. */
  ghost predicate ListAlike(s: Session, s': Session, ids: seq<string>) {
    && (s.allowed == [] <==> s'.allowed == [])
    && forall c :: c in ids ==> (c in s.forbidden <==> c in s'.forbidden) && (c in s.allowed <==> c in s'.allowed)
  }

  lemma PermittedAlike(s: Session, s': Session, cfg: PolicyConfig, discovered: seq<Entry>)
    requires ListAlike(s, s', Ids(Available(discovered)))
    ensures PermittedIds(s, cfg, discovered) == PermittedIds(s', cfg, discovered)
  {
    var candidates := cfg.FilterCandidates(Ids(Available(discovered)));
    FilterAgree(c => c !in s.forbidden, c => c !in s'.forbidden, candidates);
    FilterAgree(c => c in s.allowed, c => c in s'.allowed, Filter(c => c !in s.forbidden, candidates));
  }

  lemma {:induction false} VectorizationAlike(s: Session, s': Session, schemas: map<string, Schema>, ids: seq<string>,
                                              vids: seq<string>)
    requires forall v :: v in vids ==> (v in s.forbidden <==> v in s'.forbidden)
    ensures AddVectorization(s, schemas, ids, vids) == AddVectorization(s', schemas, ids, vids)
    decreases |vids|
  {
    if vids != [] {
      assert vids[0] in vids;
      VectorizationAlike(s, s', schemas, ids, vids[1..]);
      VectorizationAlike(s, s', schemas, ids + [vids[0]], vids[1..]);
    }
  }

  lemma {:induction false} KeptAlike(s: Session, s': Session, cfg: PolicyConfig, discovered: seq<Entry>,
                                     preferred: Option<string>)
    requires ListAlike(s, s', Ids(Available(discovered)) + VECTORIZATION_IDS)
    ensures KeptIds(s, cfg, discovered, preferred) == KeptIds(s', cfg, discovered, preferred)
  {
    PermittedAlike(s, s', cfg, discovered);
    VectorizationAlike(s, s', SchemaOf(Available(discovered)),
                       PreferredFirst(PermittedIds(s, cfg, discovered), preferred), VECTORIZATION_IDS);
  }

  // ----- one tool per name -----

  /** The first id with command name `name`. */
  function FirstNamed(ids: seq<string>, name: string): (r: Option<string>)
    ensures r.Some? ==> r.value in ids && NameOf(r.value) == name
    ensures r.None? ==> forall c :: c in ids ==> NameOf(c) != name
  {
    if ids == [] then None
    else if NameOf(ids[0]) == name then Some(ids[0])
    else FirstNamed(ids[1..], name)
  }

  lemma {:induction false} FirstNamedAppend(xs: seq<string>, ys: seq<string>, name: string)
    ensures FirstNamed(xs + ys, name) ==
            if FirstNamed(xs, name).Some? then FirstNamed(xs, name) else FirstNamed(ys, name)
  {
    if xs == [] {
      assert xs + ys == ys;
    } else {
      assert (xs + ys)[1..] == xs[1..] + ys;
      FirstNamedAppend(xs[1..], ys, name);
    }
  }

  ghost predicate DistinctNames(ids: seq<string>) {
    forall i, j :: 0 <= i < j < |ids| ==> NameOf(ids[i]) != NameOf(ids[j])
  }

  /** Deduplication loses no name, repeats none, and keeps the first id of each. */
  lemma {:induction false} FirstPerNameKeepsFirsts(ids: seq<string>)
    ensures DistinctNames(FirstPerName(ids))
    ensures forall name :: FirstNamed(FirstPerName(ids), name) == FirstNamed(ids, name)
  {
    if ids != [] {
      var front, last := ids[..|ids| - 1], ids[|ids| - 1];
      var kept := FirstPerName(front);
      FirstPerNameKeepsFirsts(front);
      assert ids == front + [last];
      forall name ensures FirstNamed(FirstPerName(ids), name) == FirstNamed(ids, name) {
        FirstNamedAppend(front, [last], name);
        FirstNamedAppend(kept, [last], name);
        assert FirstNamed(kept, name) == FirstNamed(front, name);
        if NameOf(last) in Names(kept) {
          var i :| 0 <= i < |kept| && Names(kept)[i] == NameOf(last);
          assert kept[i] in kept;
        }
      }
      if NameOf(last) !in Names(kept) {
        forall i | 0 <= i < |kept| ensures NameOf(kept[i]) != NameOf(last) {
          assert Names(kept)[i] in Names(kept);
        }
      }
    }
  }

  /** Every listed name is the first occurrence of its own name. */
  lemma KeptIsFirst(ids: seq<string>, i: nat)
    requires i < |FirstPerName(ids)|
    ensures FirstNamed(ids, NameOf(FirstPerName(ids)[i])) == Some(FirstPerName(ids)[i])
  {
    var kept := FirstPerName(ids);
    FirstPerNameKeepsFirsts(ids);
    var c := FirstNamed(kept, NameOf(kept[i]));
    assert kept[i] in kept;
    var j :| 0 <= j < |kept| && kept[j] == c.value;
    assert i == j;
  }

  // ----- the registry -----

  ghost predicate DistinctKeys(kept: seq<string>) {
    forall i, j :: 0 <= i < j < |kept| ==> Strip(NameOf(kept[i])) != Strip(NameOf(kept[j]))
  }

  /** Every listed tool resolves to its own command. */
  ghost predicate Agrees(kept: seq<string>) {
    forall i :: 0 <= i < |kept| ==> Lookup(RegistryOf(kept), NameOf(kept[i])) == Some(ParseId(kept[i]))
  }

  lemma {:induction false} RegistryKeys(kept: seq<string>)
    ensures forall key :: key in RegistryOf(kept) <==> exists c :: c in kept && Strip(NameOf(c)) == key
    ensures forall key :: key in RegistryOf(kept) ==>
              exists c :: c in kept && Strip(NameOf(c)) == key && RegistryOf(kept)[key] == ParseId(c)
  {
    if kept != [] {
      var front, last := kept[..|kept| - 1], kept[|kept| - 1];
      RegistryKeys(front);
      assert kept == front + [last];
      assert last in kept;
    }
  }

  lemma {:induction false} RegistryLastWins(kept: seq<string>, i: nat)
    requires i < |kept|
    requires forall j :: i < j < |kept| ==> Strip(NameOf(kept[j])) != Strip(NameOf(kept[i]))
    ensures Lookup(RegistryOf(kept), NameOf(kept[i])) == Some(ParseId(kept[i]))
  {
    if i < |kept| - 1 {
      RegistryLastWins(kept[..|kept| - 1], i);
    }
  }

  lemma {:induction false} LastWithKey(kept: seq<string>, i: nat) returns (k: nat)
    requires i < |kept|
    ensures i <= k < |kept| && Strip(NameOf(kept[k])) == Strip(NameOf(kept[i]))
    ensures forall j :: k < j < |kept| ==> Strip(NameOf(kept[j])) != Strip(NameOf(kept[k]))
    decreases |kept| - i
  {
    k := i;
    if j :| i < j < |kept| && Strip(NameOf(kept[j])) == Strip(NameOf(kept[i])) {
      k := LastWithKey(kept, j);
    }
  }

  /** List and registry agree exactly when no two listed names differ only in outer white space. */
  lemma {:induction false} AgreementCondition(ids: seq<string>)
    ensures Agrees(FirstPerName(ids)) <==> DistinctKeys(FirstPerName(ids))
  {
    var kept := FirstPerName(ids);
    FirstPerNameKeepsFirsts(ids);
    if DistinctKeys(kept) {
      forall i | 0 <= i < |kept|
        ensures Lookup(RegistryOf(kept), NameOf(kept[i])) == Some(ParseId(kept[i]))
      {
        RegistryLastWins(kept, i);
      }
    } else {
      var i, j :| 0 <= i < j < |kept| && Strip(NameOf(kept[i])) == Strip(NameOf(kept[j]));
      var k := LastWithKey(kept, j);
      RegistryLastWins(kept, k);
      assert NameOf(kept[i]) != NameOf(kept[k]);
    }
  }

  predicate CleanName(id: string) {
    NameOf(id) != "" && Stripped(NameOf(id))
  }

  lemma NameMembers(kept: seq<string>, name: string)
    ensures name in Names(kept) <==> exists c :: c in kept && NameOf(c) == name
  {
    if name in Names(kept) {
      var i :| 0 <= i < |kept| && Names(kept)[i] == name;
      assert kept[i] in kept;
    }
    if c :| c in kept && NameOf(c) == name {
      var i :| 0 <= i < |kept| && kept[i] == c;
      assert Names(kept)[i] == name;
    }
  }

  lemma NamesSurvive(ids: seq<string>, name: string)
    ensures name in Names(FirstPerName(ids)) <==> exists c :: c in ids && NameOf(c) == name
  {
    FirstPerNameKeepsFirsts(ids);
    NameMembers(FirstPerName(ids), name);
    assert FirstNamed(FirstPerName(ids), name) == FirstNamed(ids, name);
  }

  /** With clean names, registry and list agree and each name goes to its first id. */
  lemma {:induction false} CleanNamesAgree(ids: seq<string>)
    requires forall id :: id in ids ==> CleanName(id)
    ensures var kept := FirstPerName(ids);
            && Registrable(kept) && DistinctNames(kept) && Agrees(kept)
            && (forall name :: name in RegistryOf(kept) <==> name in Names(kept))
            && (forall name :: name in Names(kept) ==>
                  FirstNamed(ids, name).Some? && RegistryOf(kept)[name] == ParseId(FirstNamed(ids, name).value))
  {
    var kept := FirstPerName(ids);
    FirstPerNameKeepsFirsts(ids);
    forall id | id in kept ensures Strip(NameOf(id)) == NameOf(id) != "" {
      StripFixed(NameOf(id));
    }
    assert DistinctKeys(kept);
    AgreementCondition(ids);
    RegistryKeys(kept);
    forall name ensures name in Names(kept) <==> exists c :: c in kept && NameOf(c) == name {
      NameMembers(kept, name);
    }
    forall name | name in Names(kept)
      ensures FirstNamed(ids, name).Some? && RegistryOf(kept)[name] == ParseId(FirstNamed(ids, name).value)
    {
      var i :| 0 <= i < |kept| && Names(kept)[i] == name;
      KeptIsFirst(ids, i);
      assert kept[i] in kept;
      assert Lookup(RegistryOf(kept), NameOf(kept[i])) == Some(ParseId(kept[i]));
    }
  }

  /**
    For stripped, non-empty command names: the listed names are distinct, they are exactly the
    names of the reachable ids, the registry knows exactly these names, and each resolves to
    the first reachable id of that name in the final order.
  */
  lemma {:induction false} ToolListAndRegistryAgree(s: Session, cfg: PolicyConfig, discovered: seq<Entry>,
                                                    preferred: Option<string>)
    requires forall id :: Reachable(s, cfg, discovered, id) ==> CleanName(id)
    ensures var ids := EffectiveIds(s, cfg, discovered, preferred);
            var kept := KeptIds(s, cfg, discovered, preferred);
            && Registrable(kept) && DistinctNames(kept) && Agrees(kept)
            && (forall name :: name in Names(kept) <==>
                  exists id :: Reachable(s, cfg, discovered, id) && NameOf(id) == name)
            && (forall name :: name in RegistryOf(kept) <==> name in Names(kept))
            && (forall name :: name in Names(kept) ==>
                  FirstNamed(ids, name).Some? && RegistryOf(kept)[name] == ParseId(FirstNamed(ids, name).value))
  {
    var ids := EffectiveIds(s, cfg, discovered, preferred);
    forall id ensures id in ids <==> Reachable(s, cfg, discovered, id) {
      EffectiveIdsAreTheReachable(s, cfg, discovered, preferred, id);
    }
    CleanNamesAgree(ids);
    forall name ensures name in Names(FirstPerName(ids)) <==>
                        exists id :: Reachable(s, cfg, discovered, id) && NameOf(id) == name {
      NamesSurvive(ids, name);
    }
  }

  // ----- who wins a name -----

  /** Leaving out ids of other names does not change who is first. */
  lemma {:induction false} FirstNamedSkips(ids: seq<string>, name: string, others: seq<string>)
    requires forall c :: c in others ==> NameOf(c) != name
    ensures FirstNamed(Filter(c => c !in others, ids), name) == FirstNamed(ids, name)
  {
    if ids != [] {
      FirstNamedSkips(ids[1..], name, others);
      var keep := Filter(c => c !in others, ids);
      var keepTail := Filter(c => c !in others, ids[1..]);
      if ids[0] !in others {
        assert keep == [ids[0]] + keepTail && keep[1..] == keepTail;
      } else {
        assert keep == keepTail;
      }
    }
  }

  predicate HasPreferred(preferred: Option<string>) {
    preferred.Some? && preferred.value != ""
  }

  lemma PreferredFirstWinner(permitted: seq<string>, preferred: Option<string>, name: string)
    ensures var winner := FirstNamed(PreferredFirst(permitted, preferred), name);
            if HasPreferred(preferred) && (exists c :: c in permitted && ParseId(c) == (name, preferred.value))
            then winner.Some? && ParseId(winner.value) == (name, preferred.value)
            else winner == FirstNamed(permitted, name)
  {
    if HasPreferred(preferred) {
      var first := Filter(c => ServerOf(c) == preferred.value, permitted);
      var rest := Filter(c => c !in first, permitted);
      FirstNamedAppend(first, rest, name);
      if c :| c in permitted && ParseId(c) == (name, preferred.value) {
        assert c in first;
      } else {
        assert FirstNamed(first, name).None?;
        FirstNamedSkips(permitted, name, first);
      }
    }
  }

  lemma VectorizationComesLast(s: Session, schemas: map<string, Schema>, ordered: seq<string>, vids: seq<string>,
                               name: string)
    ensures var winner := FirstNamed(AddVectorization(s, schemas, ordered, vids), name);
            if FirstNamed(ordered, name).Some? then winner == FirstNamed(ordered, name)
            else winner.Some? ==> winner.value in vids
  {
    var ids := AddVectorization(s, schemas, ordered, vids);
    AddVectorizationExtends(s, schemas, ordered, vids);
    var added := ids[|ordered|..];
    assert ids == ordered + added;
    FirstNamedAppend(ordered, added, name);
    var late := FirstNamed(added, name);
    if late.Some? {
      var k :| 0 <= k < |added| && added[k] == late.value;
      assert ids[|ordered| + k] in vids;
    }
  }

  /**
    Who answers to a name. A permitted id of the preferred server wins; otherwise the earliest
    permitted id in discovery order; a vectorization id that missed the filters comes last.
  */
  lemma {:induction false} NamePriority(s: Session, cfg: PolicyConfig, discovered: seq<Entry>,
                                        preferred: Option<string>, name: string)
    ensures var permitted := PermittedIds(s, cfg, discovered);
            var winner := FirstNamed(EffectiveIds(s, cfg, discovered, preferred), name);
            if HasPreferred(preferred) && (exists c :: c in permitted && ParseId(c) == (name, preferred.value))
            then winner.Some? && ParseId(winner.value) == (name, preferred.value)
            else if FirstNamed(permitted, name).Some? then winner == FirstNamed(permitted, name)
            else winner.Some? ==> winner.value in VECTORIZATION_IDS
  {
    var permitted := PermittedIds(s, cfg, discovered);
    PreferredFirstWinner(permitted, preferred, name);
    VectorizationComesLast(s, SchemaOf(Available(discovered)), PreferredFirst(permitted, preferred),
                           VECTORIZATION_IDS, name);
  }
}
