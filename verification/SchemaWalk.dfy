/** Which schema properties carry a component-repository role, and the walk that collects their paths. */
module SchemaWalk {

  const PREFIX := "x-openchoreo-component-parameter-repository-"

  datatype Json = JsonBool(b: bool) | JsonObject(fields: map<string, Json>) | JsonOther

  // ----- the schema as a tree of nodes ---------------------------------------------------------------------

  /** The nested schemas of a schema node, by property name. */
  function Properties(j: Json): map<string, Json> {
    if j.JsonObject? && "properties" in j.fields && j.fields["properties"].JsonObject? then j.fields["properties"].fields else map[]
  }

  /** The schema node reached by following property names. */
  function NodeAt(j: Json, node: seq<string>): Json
    decreases |node|
  {
    if node == [] then j
    else if node[0] in Properties(j) then NodeAt(Properties(j)[node[0]], node[1..])
    else JsonOther
  }

  function Dotted(prefix: string, name: string): string {
    if prefix == "" then name else prefix + "." + name
  }

  function PathTo(prefix: string, node: seq<string>): string
    decreases |node|
  {
    if node == [] then prefix else PathTo(Dotted(prefix, node[0]), node[1..])
  }

  /** A role enabled on the node reached by following `node`. */
  datatype Mark = Mark(role: string, node: seq<string>)

  predicate Enables(j: Json, role: string) {
    j.JsonObject? && PREFIX + role in j.fields && j.fields[PREFIX + role] == JsonBool(true)
  }

  /** The marks of a schema: roles enabled on nodes whose path is not empty. */
  ghost function Marks(j: Json, prefix: string): iset<Mark> {
    iset m: Mark | Enables(NodeAt(j, m.node), m.role) && PathTo(prefix, m.node) != ""
  }

  // ----- the role table ---------------------------------------------------------------------------------------

  /** `now` is `before` with exactly the roles of `marks` added, each with the path of its one node. */
  ghost predicate Adds(before: map<string, string>, marks: iset<Mark>, prefix: string, now: map<string, string>) {
    && (forall role :: role in now <==> role in before || exists m :: m in marks && m.role == role)
    && (forall role :: role in before ==> role in now && now[role] == before[role])
    && (forall m :: m in marks ==> m.role !in before && m.role in now && now[m.role] == PathTo(prefix, m.node))
    && (forall m, n :: m in marks && n in marks && m.role == n.role ==> m == n)
  }

  /** Some role is marked twice, or is taken already. */
  ghost predicate Clashes(before: map<string, string>, marks: iset<Mark>) {
    exists m :: m in marks && (m.role in before || exists n :: n in marks && n.role == m.role && n != m)
  }

  lemma AddsOrClashes(before: map<string, string>, marks: iset<Mark>, prefix: string, now: map<string, string>)
    requires Adds(before, marks, prefix, now)
    ensures !Clashes(before, marks)
  {
  }

  /** The marks of a nested schema, seen from its parent. */
  ghost function Below(name: string, marks: iset<Mark>): iset<Mark> {
    iset m: Mark | m.node != [] && m.node[0] == name && Mark(m.role, m.node[1..]) in marks
  }

  lemma BelowBack(name: string, marks: iset<Mark>, m: Mark)
    requires m in marks
    ensures Mark(m.role, [name] + m.node) in Below(name, marks)
  {
  }

  lemma RolesThen(done: iset<Mark>, name: string, nested: iset<Mark>, role: string)
    ensures (exists m :: m in done + Below(name, nested) && m.role == role) <==>
            (exists m :: m in done && m.role == role) || (exists m :: m in nested && m.role == role)
  {
    if m :| m in nested && m.role == role { BelowBack(name, nested, m); }
    if m :| m in done && m.role == role { assert m in done + Below(name, nested); }
    if m :| m in done + Below(name, nested) && m.role == role { assert m in done || Mark(m.role, m.node[1..]) in nested; }
  }

  lemma PathThen(before: map<string, string>, done: iset<Mark>, prefix: string, mid: map<string, string>,
                 name: string, nested: iset<Mark>, now: map<string, string>, m: Mark)
    requires Adds(before, done, prefix, mid) && Adds(mid, nested, Dotted(prefix, name), now) && m in done + Below(name, nested)
    ensures m.role !in before && m.role in now && now[m.role] == PathTo(prefix, m.node)
  {
    if m !in done { assert Mark(m.role, m.node[1..]) in nested; }
  }

  lemma UniqueThen(before: map<string, string>, done: iset<Mark>, prefix: string, mid: map<string, string>,
                   name: string, nested: iset<Mark>, now: map<string, string>, m: Mark, n: Mark)
    requires Adds(before, done, prefix, mid) && Adds(mid, nested, Dotted(prefix, name), now)
    requires m in done + Below(name, nested) && n in done + Below(name, nested) && m.role == n.role
    ensures m == n
  {
    if m !in done { assert Mark(m.role, m.node[1..]) in nested && m.node == [name] + m.node[1..]; }
    if n !in done { assert Mark(n.role, n.node[1..]) in nested && n.node == [name] + n.node[1..]; }
  }

  /** Visiting a nested schema after `done`. */
  lemma AddsThen(before: map<string, string>, done: iset<Mark>, prefix: string, mid: map<string, string>,
                 name: string, nested: iset<Mark>, now: map<string, string>)
    requires Adds(before, done, prefix, mid) && Adds(mid, nested, Dotted(prefix, name), now)
    ensures Adds(before, done + Below(name, nested), prefix, now)
  {
    var marks := done + Below(name, nested);
    forall role ensures role in now <==> role in before || exists m :: m in marks && m.role == role {
      RolesThen(done, name, nested, role);
    }
    forall m | m in marks ensures m.role !in before && m.role in now && now[m.role] == PathTo(prefix, m.node) {
      PathThen(before, done, prefix, mid, name, nested, now, m);
    }
    forall m, n | m in marks && n in marks && m.role == n.role ensures m == n {
      UniqueThen(before, done, prefix, mid, name, nested, now, m, n);
    }
  }

  /** A clash found in a nested schema is a clash of the whole. */
  lemma ClashThen(before: map<string, string>, done: iset<Mark>, prefix: string, mid: map<string, string>, name: string, nested: iset<Mark>)
    requires Adds(before, done, prefix, mid) && Clashes(mid, nested)
    requires forall m :: m in done ==> m !in Below(name, nested)
    ensures Clashes(before, done + Below(name, nested))
  {
    var m :| m in nested && (m.role in mid || exists n :: n in nested && n.role == m.role && n != m);
    var up := Mark(m.role, [name] + m.node);
    BelowBack(name, nested, m);
    if n :| n in nested && n.role == m.role && n != m {
      BelowBack(name, nested, n);
      var other := Mark(n.role, [name] + n.node);
      assert other.node[1..] == n.node && up.node[1..] == m.node;
      assert other != up;
    } else if m.role !in before {
      var n :| n in done && n.role == m.role;
      assert n != up;
    }
  }

  lemma ClashGrows(before: map<string, string>, some: iset<Mark>, marks: iset<Mark>)
    requires Clashes(before, some) && some <= marks
    ensures Clashes(before, marks)
  {
  }

  // ----- the walk --------------------------------------------------------------------------------------------

  class RoleTable {
    var paths: map<string, string>

    constructor ()
      ensures paths == map[]
    {
      paths := map[];
    }
  }

  predicate StartsWith(s: string, prefix: string) {
    |s| >= |prefix| && s[..|prefix|] == prefix
  }

  /** The marks of the node itself that come from `keys`. */
  ghost function OwnMarks(j: Json, prefix: string, keys: set<string>): iset<Mark> {
    iset m: Mark | m in Marks(j, prefix) && m.node == [] && PREFIX + m.role in keys
  }

  lemma OwnMark(j: Json, prefix: string, role: string)
    ensures Mark(role, []) in Marks(j, prefix) <==> Enables(j, role) && prefix != ""
  {
  }

  lemma SameKey(a: string, b: string)
    ensures PREFIX + a == PREFIX + b <==> a == b
  {
    assert (PREFIX + a)[|PREFIX|..] == a && (PREFIX + b)[|PREFIX|..] == b;
  }

  /** One more of the node's own keys. */
  lemma OwnAdds(before: map<string, string>, j: Json, prefix: string, keys: set<string>, mid: map<string, string>, role: string)
    requires Adds(before, OwnMarks(j, prefix, keys), prefix, mid) && Enables(j, role) && prefix != ""
    ensures role !in mid ==> Adds(before, OwnMarks(j, prefix, keys + {PREFIX + role}), prefix, mid[role := prefix])
    ensures role in mid && PREFIX + role !in keys ==> Clashes(before, Marks(j, prefix))
  {
    var m := Mark(role, []);
    OwnMark(j, prefix, role);
    if role !in mid {
      var marks := OwnMarks(j, prefix, keys + {PREFIX + role});
      assert m in marks;
      forall n | n in marks && n != m ensures n in OwnMarks(j, prefix, keys) {
        SameKey(n.role, role);
      }
      assert forall n :: n in OwnMarks(j, prefix, keys) ==> n in marks;
    } else if PREFIX + role !in keys {
      assert forall n :: n in OwnMarks(j, prefix, keys) ==> n.role != role;
    }
  }

  lemma OwnSkips(j: Json, prefix: string, keys: set<string>, key: string)
    requires j.JsonObject? && key in j.fields
    requires !StartsWith(key, PREFIX) || j.fields[key] != JsonBool(true) || prefix == ""
    ensures OwnMarks(j, prefix, keys + {key}) == OwnMarks(j, prefix, keys)
  {
  }

  /** Collects the node's own roles, in whatever order the fields come. */
  method Collect(j: Json, prefix: string, table: RoleTable) returns (ok: bool)
    requires j.JsonObject?
    modifies table
    ensures ok ==> Adds(old(table.paths), OwnMarks(j, prefix, j.fields.Keys), prefix, table.paths)
    ensures !ok ==> Clashes(old(table.paths), Marks(j, prefix))
  {
    var todo := j.fields.Keys;
    while todo != {}
      invariant todo <= j.fields.Keys
      invariant Adds(old(table.paths), OwnMarks(j, prefix, j.fields.Keys - todo), prefix, table.paths)
      decreases |todo|
    {
      ghost var done := j.fields.Keys - todo;
      var key :| key in todo;
      todo := todo - {key};
      assert j.fields.Keys - todo == done + {key};
      if !StartsWith(key, PREFIX) || j.fields[key] != JsonBool(true) || prefix == "" {
        OwnSkips(j, prefix, done, key);
      } else {
        var role := key[|PREFIX|..];
        assert key == PREFIX + role;
        OwnAdds(old(table.paths), j, prefix, done, table.paths, role);
        if role in table.paths { return false; }
        table.paths := table.paths[role := prefix];
      }
    }
    ok := true;
  }

  /** The node's own marks and those below the properties in `names`. */
  ghost function Seen(j: Json, prefix: string, names: set<string>): iset<Mark> {
    iset m: Mark | m in Marks(j, prefix) && (m.node == [] || m.node[0] in names)
  }

  lemma SeenOwn(j: Json, prefix: string)
    requires j.JsonObject?
    ensures Seen(j, prefix, {}) == OwnMarks(j, prefix, j.fields.Keys)
  {
  }

  lemma SeenNext(j: Json, prefix: string, names: set<string>, name: string)
    requires name in Properties(j) && name !in names
    ensures var nested := Below(name, Marks(Properties(j)[name], Dotted(prefix, name)));
            && Seen(j, prefix, names + {name}) == Seen(j, prefix, names) + nested
            && forall m :: m in Seen(j, prefix, names) ==> m !in nested
  {
  }

  lemma SeenAll(j: Json, prefix: string)
    ensures Seen(j, prefix, Properties(j).Keys) == Marks(j, prefix)
  {
  }

  lemma NestedNothing(j: Json, prefix: string)
    requires !j.JsonObject?
    ensures Marks(j, prefix) == iset{}
  {
  }

  /** Walks the schema, writing into the shared table and stopping at the first duplicate. */
  method Walk(j: Json, prefix: string, table: RoleTable) returns (ok: bool)
    requires j.JsonObject?
    modifies table
    ensures ok ==> Adds(old(table.paths), Marks(j, prefix), prefix, table.paths)
    ensures !ok ==> Clashes(old(table.paths), Marks(j, prefix))
    decreases j, 2
  {
    ghost var before := table.paths;
    SeenOwn(j, prefix);
    SeenAll(j, prefix);
    ok := Collect(j, prefix, table);
    if !ok { return; }
    if "properties" !in j.fields || !j.fields["properties"].JsonObject? { return; }
    ok := WalkProperties(j, prefix, table, before);
  }

  method WalkProperties(j: Json, prefix: string, table: RoleTable, ghost before: map<string, string>) returns (ok: bool)
    requires j.JsonObject? && "properties" in j.fields && j.fields["properties"].JsonObject?
    requires Adds(before, Seen(j, prefix, {}), prefix, table.paths)
    modifies table
    ensures ok ==> Adds(before, Seen(j, prefix, Properties(j).Keys), prefix, table.paths)
    ensures !ok ==> Clashes(before, Marks(j, prefix))
    decreases j, 1
  {
    var properties := j.fields["properties"].fields;
    var todo := properties.Keys;
    assert properties.Keys - todo == {};
    while todo != {}
      invariant todo <= properties.Keys
      invariant Adds(before, Seen(j, prefix, properties.Keys - todo), prefix, table.paths)
      decreases |todo|
    {
      ghost var names := properties.Keys - todo;
      var name :| name in todo;
      todo := todo - {name};
      assert properties.Keys - todo == names + {name};
      SeenNext(j, prefix, names, name);
      ok := Visit(properties[name], prefix, name, table, before, Seen(j, prefix, names));
      if !ok {
        ClashGrows(before, Seen(j, prefix, names + {name}), Marks(j, prefix));
        return;
      }
    }
    ok := true;
    assert properties.Keys - todo == Properties(j).Keys;
  }

  /** One property: skipped unless its schema is an object. */
  method Visit(child: Json, prefix: string, name: string, table: RoleTable, ghost before: map<string, string>, ghost done: iset<Mark>)
    returns (ok: bool)
    requires Adds(before, done, prefix, table.paths)
    requires forall m :: m in done ==> m !in Below(name, Marks(child, Dotted(prefix, name)))
    modifies table
    ensures ok ==> Adds(before, done + Below(name, Marks(child, Dotted(prefix, name))), prefix, table.paths)
    ensures !ok ==> Clashes(before, done + Below(name, Marks(child, Dotted(prefix, name))))
    decreases child, 3
  {
    ghost var mid, nested := table.paths, Marks(child, Dotted(prefix, name));
    if !child.JsonObject? {
      NestedNothing(child, Dotted(prefix, name));
      assert done + Below(name, nested) == done;
      return true;
    }
    ok := Walk(child, Dotted(prefix, name), table);
    if ok {
      AddsThen(before, done, prefix, mid, name, nested, table.paths);
    } else {
      ClashThen(before, done, prefix, mid, name, nested);
    }
  }

  // ----- paths -------------------------------------------------------------------------------------------------

  /** A path is empty exactly when no property name on the way is non-empty. */
  lemma {:induction false} EmptyPath(prefix: string, node: seq<string>)
    ensures PathTo(prefix, node) == "" <==> prefix == "" && forall i :: 0 <= i < |node| ==> node[i] == ""
    decreases |node|
  {
    if node != [] {
      EmptyPath(Dotted(prefix, node[0]), node[1..]);
      assert (forall i :: 0 <= i < |node| ==> node[i] == "") <==> node[0] == "" && forall i :: 0 <= i < |node[1..]| ==> node[1..][i] == "";
    }
  }

  /** The names in order with a dot between each two. */
  function JoinDots(names: seq<string>): string {
    if names == [] then ""
    else if |names| == 1 then names[0]
    else names[0] + "." + JoinDots(names[1..])
  }

  /** Without the empty names it starts with. */
  function FromFirstName(names: seq<string>): seq<string> {
    if names != [] && names[0] == "" then FromFirstName(names[1..]) else names
  }

  lemma {:induction false} PathExtends(prefix: string, node: seq<string>)
    requires prefix != ""
    ensures PathTo(prefix, node) == JoinDots([prefix] + node)
    decreases |node|
  {
    if node == [] {
      assert [prefix] + node == [prefix];
    } else {
      var next := Dotted(prefix, node[0]);
      PathExtends(next, node[1..]);
      JoinTwo(prefix, node[0], node[1..]);
      assert [prefix] + node == [prefix, node[0]] + node[1..];
    }
  }

  lemma JoinTwo(a: string, b: string, rest: seq<string>)
    ensures JoinDots([a + "." + b] + rest) == JoinDots([a, b] + rest)
  {
    assert ([a, b] + rest)[1..] == [b] + rest;
    if rest == [] {
      assert [a + "." + b] + rest == [a + "." + b] && [b] + rest == [b];
    } else {
      assert ([a + "." + b] + rest)[1..] == rest && ([b] + rest)[1..] == rest;
      assert (a + "." + b) + "." + JoinDots(rest) == a + "." + (b + "." + JoinDots(rest));
    }
  }

  /** A path is the property names from the first non-empty one on, in order, joined by dots. */
  lemma {:induction false} PathIsJoin(node: seq<string>)
    ensures PathTo("", node) == JoinDots(FromFirstName(node))
    decreases |node|
  {
    if node != [] {
      if node[0] == "" {
        PathIsJoin(node[1..]);
      } else {
        PathExtends(node[0], node[1..]);
        assert [node[0]] + node[1..] == node;
      }
    }
  }

  /** The names between the dots. */
  function SplitDots(s: string): (names: seq<string>)
    ensures names != []
  {
    if s == [] then [[]]
    else if s[0] == '.' then [[]] + SplitDots(s[1..])
    else [[s[0]] + SplitDots(s[1..])[0]] + SplitDots(s[1..])[1..]
  }

  lemma {:induction false} SplitName(name: string)
    requires '.' !in name
    ensures SplitDots(name) == [name]
    decreases |name|
  {
    if name != [] {
      assert name[0] in name && '.' !in name[1..];
      SplitName(name[1..]);
      assert name == [name[0]] + name[1..];
    }
  }

  lemma {:induction false} SplitFirst(name: string, rest: string)
    requires '.' !in name
    ensures SplitDots(name + "." + rest) == [name] + SplitDots(rest)
    decreases |name|
  {
    if name == [] {
      assert name + "." + rest == "." + rest && ("." + rest)[1..] == rest;
    } else {
      assert name[0] in name && '.' !in name[1..];
      assert (name + "." + rest)[1..] == name[1..] + "." + rest && (name + "." + rest)[0] == name[0];
      SplitFirst(name[1..], rest);
      assert name == [name[0]] + name[1..];
    }
  }

  /** Dot-free names come back from their path. */
  lemma {:induction false} SplitJoined(names: seq<string>)
    requires names != [] && forall i :: 0 <= i < |names| ==> '.' !in names[i]
    ensures SplitDots(JoinDots(names)) == names
    decreases |names|
  {
    if |names| == 1 {
      SplitName(names[0]);
    } else {
      SplitJoined(names[1..]);
      SplitFirst(names[0], JoinDots(names[1..]));
    }
  }

  /** A property name that is neither empty nor holds a dot. */
  predicate PlainName(name: string) {
    name != "" && '.' !in name
  }

  /** Among nodes with plain names, the path tells the node: splitting it at dots gives the names back. */
  lemma PathTellsNode(node: seq<string>)
    requires node != [] && forall i :: 0 <= i < |node| ==> PlainName(node[i])
    ensures PathTo("", node) == JoinDots(node) && SplitDots(PathTo("", node)) == node
  {
    PathIsJoin(node);
    SplitJoined(node);
  }

  // ----- extraction ---------------------------------------------------------------------------------------------

  /** The raw schema: missing, not decodable to an object, or decoded. */
  datatype Schema = Missing | Malformed | Decoded(fields: map<string, Json>)

  datatype Extraction = Paths(paths: map<string, string>) | DecodeError | DuplicateRole

  /** The nodes with a non-empty property name on the way on which the role is enabled. */
  ghost predicate EnabledOn(j: Json, role: string, node: seq<string>) {
    Enables(NodeAt(j, node), role) && exists i :: 0 <= i < |node| && node[i] != ""
  }

  lemma MarkedIsEnabled(j: Json, role: string, node: seq<string>)
    ensures Mark(role, node) in Marks(j, "") <==> EnabledOn(j, role, node)
  {
    EmptyPath("", node);
  }

  lemma DuplicateMeaning(j: Json)
    ensures Clashes(map[], Marks(j, "")) <==> Duplicated(j)
  {
    if Clashes(map[], Marks(j, "")) {
      var m :| m in Marks(j, "") && exists n :: n in Marks(j, "") && n.role == m.role && n != m;
      var n :| n in Marks(j, "") && n.role == m.role && n != m;
      MarkedIsEnabled(j, m.role, m.node);
      MarkedIsEnabled(j, n.role, n.node);
    }
    if role, m, n :| m != n && EnabledOn(j, role, m) && EnabledOn(j, role, n) {
      MarkedIsEnabled(j, role, m);
      MarkedIsEnabled(j, role, n);
      assert Mark(role, m).role == Mark(role, n).role;
    }
  }

  lemma TableMeaning(j: Json, paths: map<string, string>)
    requires Adds(map[], Marks(j, ""), "", paths)
    ensures MapsRoles(j, paths)
  {
    forall role, node | EnabledOn(j, role, node) ensures role in paths && paths[role] == JoinDots(FromFirstName(node)) {
      MarkedIsEnabled(j, role, node);
      PathIsJoin(node);
      assert Mark(role, node).node == node;
    }
    forall role | role in paths ensures exists node :: EnabledOn(j, role, node) {
      var m :| m in Marks(j, "") && m.role == role;
      MarkedIsEnabled(j, role, m.node);
    }
  }

  ghost predicate Duplicated(j: Json) {
    exists role, m, n :: m != n && EnabledOn(j, role, m) && EnabledOn(j, role, n)
  }

  /** `paths` maps exactly the enabled roles, each to the dotted names of the node it is enabled on. */
  ghost predicate MapsRoles(j: Json, paths: map<string, string>) {
    && (forall role, node :: EnabledOn(j, role, node) ==> role in paths && paths[role] == JoinDots(FromFirstName(node)))
    && (forall role :: role in paths ==> exists node :: EnabledOn(j, role, node))
  }

  /** What extraction has to give. */
  ghost predicate Extracts(schema: Schema, r: Extraction) {
    match schema
    case Missing => r == Paths(map[])
    case Malformed => r == DecodeError
    case Decoded(fields) =>
      if Duplicated(JsonObject(fields)) then r == DuplicateRole
      else r.Paths? && MapsRoles(JsonObject(fields), r.paths)
  }

  /** There is one such result, so the order in which maps yield their keys does not show. */
  lemma ExtractsOnce(schema: Schema, a: Extraction, b: Extraction)
    requires Extracts(schema, a) && Extracts(schema, b)
    ensures a == b
  {
  }

  method Extract(schema: Schema) returns (r: Extraction)
    ensures Extracts(schema, r)
  {
    match schema
    case Missing => r := Paths(map[]);
    case Malformed => r := DecodeError;
    case Decoded(fields) =>
      var j := JsonObject(fields);
      var table := new RoleTable();
      var ok := Walk(j, "", table);
      DuplicateMeaning(j);
      if ok {
        AddsOrClashes(map[], Marks(j, ""), "", table.paths);
        TableMeaning(j, table.paths);
        r := Paths(table.paths);
      } else {
        r := DuplicateRole;
      }
  }
}
