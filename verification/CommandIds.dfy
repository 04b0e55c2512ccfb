/** Command ids: `command_name.server_id`, split at the last dot. */
module CommandIds {
  import opened Text

  const SEPARATOR := "."

  function MakeId(name: string, server: string): string {
    name + SEPARATOR + server
  }

  /** `str.rfind(".")`. */
  function LastDot(id: string): (i: int)
    ensures -1 <= i < |id|
    ensures i < 0 <==> '.' !in id
    ensures 0 <= i ==> id[i] == '.' && '.' !in id[i + 1..]
  {
    if id == "" then -1
    else if id[|id| - 1] == '.' then |id| - 1
    else
      var i := LastDot(id[..|id| - 1]);
      assert id == id[..|id| - 1] + [id[|id| - 1]];
      i
  }

  /** (command name, server id) of a command id. */
  function ParseId(id: string): (string, string) {
    var i := LastDot(id);
    if i < 0 then (id, "") else (id[..i], id[i + 1..])
  }

  function NameOf(id: string): string { ParseId(id).0 }

  function ServerOf(id: string): string { ParseId(id).1 }

  /** Rebuilding a split id gives it back exactly when it has a dot; the server part never has one. */
  lemma {:induction false} MakeAfterParse(id: string)
    ensures MakeId(NameOf(id), ServerOf(id)) == id <==> '.' in id
    ensures '.' !in ServerOf(id)
  {
    var i := LastDot(id);
    if i >= 0 {
      assert id == id[..i] + [id[i]] + id[i + 1..];
    } else {
      assert MakeId(id, "")[|id|] == '.';
    }
  }

  /** Splitting a built id gives back its parts exactly when the server id has no dot. */
  lemma ParseAfterMake(name: string, server: string)
    ensures ParseId(MakeId(name, server)) == (name, server) <==> '.' !in server
  {
    var id := MakeId(name, server);
    var i := LastDot(id);
    assert id[|name|] == '.' && id[..|name|] == name && id[|name| + 1..] == server;
    if '.' in server {
      MakeAfterParse(id);
    }
  }

  /** Ids of dot-free servers never collide. */
  lemma MakeIsInjective(name: string, server: string, name': string, server': string)
    requires '.' !in server && '.' !in server'
    ensures MakeId(name, server) == MakeId(name', server') <==> name == name' && server == server'
  {
    ParseAfterMake(name, server);
    ParseAfterMake(name', server');
  }

  /** The suffix test of `refresh`. */
  predicate OnServer(id: string, server: string) {
    EndsWith(id, SEPARATOR + server)
  }

  lemma MadeIdIsOnServer(name: string, server: string)
    ensures OnServer(MakeId(name, server), server)
  {
    var id := MakeId(name, server);
    assert id == name + (SEPARATOR + server);
    assert id[|id| - |SEPARATOR + server|..] == SEPARATOR + server;
  }

  /** For a dot-free server the suffix test asks whether the id parses to that server. */
  lemma SuffixTestIsServerTest(id: string, server: string)
    requires '.' !in server
    ensures OnServer(id, server) <==> '.' in id && ServerOf(id) == server
  {
    if OnServer(id, server) {
      var name := id[..|id| - |server| - 1];
      assert id == name + id[|name|..];
      assert id == MakeId(name, server);
      ParseAfterMake(name, server);
      assert id[|name|] == '.';
    }
    if '.' in id && ServerOf(id) == server {
      MakeAfterParse(id);
      MadeIdIsOnServer(NameOf(id), server);
    }
  }

  /** For a dot-free server the suffix test takes ids built for it or for an id ending in a dot and it. */
  lemma SuffixTestOnBuiltId(name: string, other: string, server: string)
    requires '.' !in server
    ensures OnServer(MakeId(name, other), server) <==> other == server || EndsWith(other, SEPARATOR + server)
  {
    var id, tail := MakeId(name, other), SEPARATOR + server;
    assert id == name + (SEPARATOR + other);
    if |server| < |other| {
      assert id[|id| - |tail|..] == other[|other| - |tail|..];
    } else if |server| == |other| {
      assert id[|id| - |tail|..] == SEPARATOR + other;
      assert (SEPARATOR + other)[1..] == other && tail[1..] == server;
    } else if OnServer(id, server) {
      LongerServerHasDot(name, other, server);
    }
  }

  lemma LongerServerHasDot(name: string, other: string, server: string)
    requires OnServer(MakeId(name, other), server) && |server| > |other|
    ensures '.' in server
  {
    var id, tail := MakeId(name, other), SEPARATOR + server;
    var k := |tail| - |other| - 1;
    assert id[|name|] == '.';
    assert id[|id| - |tail|..][k] == id[|name|];
    assert tail[k] == server[k - 1];
  }
}
