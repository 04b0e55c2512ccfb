/** The session entity. */
module Sessions {
  import opened Values
  import opened Text

  datatype Session = Session(
    id: string,
    model: Option<string>,
    allowed: seq<string>,
    forbidden: seq<string>,
    standards: seq<string>,
    rules: seq<string>,
    createdAt: Option<string>,
    minimize: bool)

  /** A key of a Python dictionary: missing, explicitly null, or set. */
  datatype Attr<+T> = Absent | Null | Given(value: T) {
    /** `attrs.get(key)`. */
    function Get(): Option<T> {
      if Given? then Some(value) else None
    }
  }

  datatype Attrs = Attrs(
    id: Attr<string>,
    model: Attr<string>,
    allowed: Attr<seq<string>>,
    forbidden: Attr<seq<string>>,
    standards: Attr<seq<string>>,
    rules: Attr<seq<string>>,
    createdAt: Attr<string>,
    minimize: Attr<bool>)

  function ListOr(a: Option<seq<string>>, default: seq<string>): seq<string> {
    if a.Some? then a.value else default
  }

  /** `Session.create`; None is the ValueError raised for a blank id. `uuid` is the generated id. */
  function CreateSession(attrs: Attrs, uuid: string): (s: Option<Session>)
    ensures s.Some? ==> Strip(s.value.id) != ""
  {
    var id := if attrs.id.Given? && attrs.id.value != "" then attrs.id.value else uuid;
    if Strip(id) == "" then None else
    Some(Session(id, attrs.model.Get(),
                 ListOr(attrs.allowed.Get(), []), ListOr(attrs.forbidden.Get(), []),
                 ListOr(attrs.standards.Get(), []), ListOr(attrs.rules.Get(), []),
                 attrs.createdAt.Get(), attrs.minimize == Given(true)))
  }
}
