/** The users file: saving the password map as JSON and loading it back. */
module Users {
  import opened JsonText
  import opened JsonStrings
  import opened JsonParse
  import JsonReader

  /** `struct pwd_pair_t`. */
  datatype Passwords = Passwords(client: string, server: string)

  datatype Option<T> = None | Some(value: T)

  // ---------------------------------------------------------------- looking into a tree

  function Lower(c: char): char { if 'A' <= c <= 'Z' then c + 32 as char else c }

  /** `cJSON_strcasecmp` is zero. */
  predicate SameText(a: string, b: string) {
    |a| == |b| && forall i :: 0 <= i < |a| ==> Lower(a[i]) == Lower(b[i])
  }

  function Find(members: seq<Member>, key: string): (r: Option<Json>)
    ensures r.None? ==> forall i :: 0 <= i < |members| ==> !SameText(members[i].key, key)
  {
    if members == [] then None
    else if SameText(members[0].key, key) then Some(members[0].value)
    else
      var r := Find(members[1..], key);
      assert r.None? ==> forall i :: 0 < i < |members| ==> members[i] == members[1..][i - 1];
      r
  }

  /** `cJSON_GetObjectItem`; the children of anything but an object have no name. */
  function GetObjectItem(t: Json, key: string): Option<Json> {
    if t.Object? then Find(t.members, key) else None
  }

  function Values(members: seq<Member>): seq<Json> {
    if members == [] then [] else [members[0].value] + Values(members[1..])
  }

  /** The child list of an item. */
  function Children(t: Json): seq<Json> {
    match t
    case Array(items) => items
    case Object(members) => Values(members)
    case _ => []
  }

  /** `valuestring`, which is NULL for anything but a string. */
  function ValueString(t: Json): string { if t.String? then t.s else "" }

  // ---------------------------------------------------------------- loading

  /** What one user node adds: a name, and two passwords of which one may stand for both. */
  function Record(node: Json): Option<(string, Passwords)> {
    var name, client, server := GetObjectItem(node, "user"), GetObjectItem(node, "client_pwd"),
        GetObjectItem(node, "server_pwd");
    if name.None? || (client.None? && server.None?) then None
    else
      var c, s := if client.Some? then client.value else server.value,
          if server.Some? then server.value else client.value;
      Some((ValueString(name.value), Passwords(ValueString(c), ValueString(s))))
  }

  /** The loop of `cetus_users_parse_json`. */
  function Records(nodes: seq<Json>, records: map<string, Passwords>): Option<map<string, Passwords>> {
    if nodes == [] then Some(records)
    else
      var r := Record(nodes[0]);
      if r.None? then None else Records(nodes[1..], records[r.value.0 := r.value.1])
  }

  /** The records a text stands for. */
  function Load(text: string): Option<map<string, Passwords>> {
    var root := Parse(text);
    if root.Fail? then None
    else
      var users := GetObjectItem(root.value, "users");
      Records(if users.None? then [] else Children(users.value), map[])
  }

  // ---------------------------------------------------------------- saving

  function UserNode(name: string, pwd: Passwords): Json {
    Object([Member("user", String(name)), Member("client_pwd", String(pwd.client)),
      Member("server_pwd", String(pwd.server))])
  }

  function UserNodes(records: map<string, Passwords>, order: seq<string>): seq<Json>
    requires forall i :: 0 <= i < |order| ==> order[i] in records
  {
    if order == [] then [] else [UserNode(order[0], records[order[0]])] + UserNodes(records, order[1..])
  }

  /** The tree that `cetus_users_write_json` prints, with the users in the order of the hash table. */
  function Document(records: map<string, Passwords>, order: seq<string>): Json
    requires forall i :: 0 <= i < |order| ==> order[i] in records
  {
    Object([Member("users", Array(UserNodes(records, order)))])
  }

  /** An order in which a hash table may be iterated over. */
  ghost predicate Iteration(records: map<string, Passwords>, order: seq<string>) {
    && (forall i :: 0 <= i < |order| ==> order[i] in records)
    && forall k :: k in records ==> k in order
  }

  ghost predicate CStrings(records: map<string, Passwords>) {
    forall k :: k in records ==> CString(k) && CString(records[k].client) && CString(records[k].server)
  }

  // ---------------------------------------------------------------- loading undoes saving

  lemma {:induction false} FindHead(m: Member, rest: seq<Member>, key: string)
    ensures Find([m] + rest, key) == if SameText(m.key, key) then Some(m.value) else Find(rest, key)
  {
  }

  lemma {:induction false} FoundInThree(a: Member, b: Member, c: Member, key: string)
    ensures var r := Find([a, b, c], key);
            r == if SameText(a.key, key) then Some(a.value) else if SameText(b.key, key) then Some(b.value)
                 else if SameText(c.key, key) then Some(c.value) else None
  {
    assert [a, b, c] == [a] + ([b] + ([c] + []));
    FindHead(a, [b] + ([c] + []), key);
    FindHead(b, [c] + [], key);
    FindHead(c, [], key);
  }

  lemma {:induction false} KeysDiffer()
    ensures !SameText("user", "client_pwd") && !SameText("user", "server_pwd") && !SameText("client_pwd", "server_pwd")
    ensures SameText("user", "user") && SameText("client_pwd", "client_pwd") && SameText("server_pwd", "server_pwd")
  {
    assert Lower("client_pwd"[0]) != Lower("server_pwd"[0]);
  }

  lemma {:induction false} NodeIsRecord(name: string, pwd: Passwords)
    ensures Record(UserNode(name, pwd)) == Some((name, pwd))
  {
    var ms := UserNode(name, pwd).members;
    KeysDiffer();
    FoundInThree(ms[0], ms[1], ms[2], "user");
    FoundInThree(ms[0], ms[1], ms[2], "client_pwd");
    FoundInThree(ms[0], ms[1], ms[2], "server_pwd");
  }

  // ---------------------------------------------------------------- reference: what nodes stand for

  /** The same letter, whatever its case, or the same character. */
  ghost predicate SameLetter(c: char, d: char) {
    c == d || exists k :: 0 <= k < 26 && Either(k, c) && Either(k, d)
  }

  /** The letter number `k` of the alphabet, as a capital or not. */
  ghost predicate Either(k: nat, c: char) { c as int == 'A' as int + k || c as int == 'a' as int + k }

  lemma {:induction false} LowerMeans(c: char, d: char)
    ensures Lower(c) == Lower(d) <==> SameLetter(c, d)
  {
    if Lower(c) == Lower(d) && c != d {
      var k := Lower(c) as int - 'a' as int;
      assert Either(k, c) && Either(k, d);
    }
  }

  /** The first member with the given key, in any spelling of its letters. */
  ghost predicate FirstNamed(members: seq<Member>, key: string, i: nat) {
    i < |members| && Named(members[i], key) && forall j :: 0 <= j < i ==> !Named(members[j], key)
  }

  ghost predicate Named(m: Member, key: string) {
    |m.key| == |key| && forall i :: 0 <= i < |key| ==> SameLetter(m.key[i], key[i])
  }

  lemma {:induction false} NamedIsSame(m: Member, key: string)
    ensures Named(m, key) <==> SameText(m.key, key)
  {
    if |m.key| == |key| {
      forall i | 0 <= i < |key| ensures Lower(m.key[i]) == Lower(key[i]) <==> SameLetter(m.key[i], key[i]) {
        LowerMeans(m.key[i], key[i]);
      }
    }
  }

  lemma {:induction false} FindIsFirst(members: seq<Member>, key: string)
    ensures Find(members, key).None? <==> forall i :: 0 <= i < |members| ==> !Named(members[i], key)
    ensures forall i: nat :: FirstNamed(members, key, i) ==> Find(members, key) == Some(members[i].value)
  {
    if members != [] {
      var rest := members[1..];
      FindIsFirst(rest, key);
      NamedIsSame(members[0], key);
      assert forall i :: 0 < i < |members| ==> members[i] == rest[i - 1];
      forall i: nat | FirstNamed(members, key, i) ensures Find(members, key) == Some(members[i].value) {
        if i > 0 {
          assert FirstNamed(rest, key, i - 1) by {
            assert rest[i - 1] == members[i];
            forall j | 0 <= j < i - 1 ensures !Named(rest[j], key) { assert rest[j] == members[j + 1]; }
          }
        }
      }
    }
  }

  /** No member has the given key. */
  ghost predicate Unnamed(members: seq<Member>, key: string) {
    forall i :: 0 <= i < |members| ==> !Named(members[i], key)
  }

  /** A user with the names and passwords of the given members. */
  ghost function UserOf(members: seq<Member>, u: nat, c: nat, s: nat): Option<(string, Passwords)>
    requires u < |members| && c < |members| && s < |members|
  {
    var client, server := ValueString(members[c].value), ValueString(members[s].value);
    Some((ValueString(members[u].value), Passwords(client, server)))
  }

  /** What a user node stands for: it needs a name and at least one password, and a single password is that of both
      sides. */
  lemma {:induction false} NodeStandsFor(members: seq<Member>, u: nat, c: nat, s: nat)
    ensures Unnamed(members, "user") ==> Record(Object(members)).None?
    ensures Unnamed(members, "client_pwd") && Unnamed(members, "server_pwd") ==> Record(Object(members)).None?
    ensures FirstNamed(members, "user", u) ==>
              var r := Record(Object(members));
              && (FirstNamed(members, "client_pwd", c) && FirstNamed(members, "server_pwd", s) ==>
                    r == UserOf(members, u, c, s))
              && (FirstNamed(members, "client_pwd", c) && Unnamed(members, "server_pwd") ==>
                    r == UserOf(members, u, c, c))
              && (Unnamed(members, "client_pwd") && FirstNamed(members, "server_pwd", s) ==>
                    r == UserOf(members, u, s, s))
  {
    FindIsFirst(members, "user");
    FindIsFirst(members, "client_pwd");
    FindIsFirst(members, "server_pwd");
  }

  /** The node stands for the given user. */
  ghost predicate IsUser(node: Json, name: string) { Record(node).Some? && Record(node).value.0 == name }

  ghost predicate LastOf(nodes: seq<Json>, name: string, i: nat) {
    i < |nodes| && IsUser(nodes[i], name) && forall j :: i < j < |nodes| ==> !IsUser(nodes[j], name)
  }

  ghost predicate NoneOf(nodes: seq<Json>, name: string) { forall j :: 0 <= j < |nodes| ==> !IsUser(nodes[j], name) }

  /** The loop fails if and only if some node stands for no user. */
  lemma {:induction false} RecordsFail(nodes: seq<Json>, found: map<string, Passwords>)
    ensures Records(nodes, found).None? <==> exists i :: 0 <= i < |nodes| && Record(nodes[i]).None?
  {
    if nodes != [] && Record(nodes[0]).Some? {
      var r, rest := Record(nodes[0]).value, nodes[1..];
      RecordsFail(rest, found[r.0 := r.1]);
      assert forall i :: 0 < i < |nodes| ==> nodes[i] == rest[i - 1];
      assert forall i :: 0 <= i < |rest| ==> rest[i] == nodes[i + 1];
    }
  }

  /** Otherwise it records for each user what the last node of that name stands for, and leaves all others. */
  lemma {:induction false} RecordsAreLast(nodes: seq<Json>, found: map<string, Passwords>, name: string, i: nat)
    requires Records(nodes, found).Some?
    ensures var m := Records(nodes, found).value;
            && (LastOf(nodes, name, i) ==> name in m && m[name] == Record(nodes[i]).value.1)
            && (NoneOf(nodes, name) ==> (name in m <==> name in found) && (name in m ==> m[name] == found[name]))
  {
    if nodes != [] {
      var r, rest := Record(nodes[0]).value, nodes[1..];
      RecordsAreLast(rest, found[r.0 := r.1], name, if i > 0 then i - 1 else 0);
      if LastOf(nodes, name, i) && i > 0 {
        assert rest[i - 1] == nodes[i] && forall j :: i - 1 < j < |rest| ==> rest[j] == nodes[j + 1];
      }
      assert LastOf(nodes, name, 0) || NoneOf(nodes, name) ==> NoneOf(rest, name);
    }
  }

  lemma {:induction false} NodesAreRecords(records: map<string, Passwords>, order: seq<string>,
                                           found: map<string, Passwords>)
    requires forall i :: 0 <= i < |order| ==> order[i] in records
    ensures var r := Records(UserNodes(records, order), found);
            && r.Some? && (forall k :: k in r.value <==> k in found || k in order)
            && (forall k :: k in order ==> r.value[k] == records[k])
              && (forall k :: k in found && k !in order ==> r.value[k] == found[k])
    decreases |order|
  {
    if order != [] {
      var name := order[0];
      NodeIsRecord(name, records[name]);
      assert UserNodes(records, order)[1..] == UserNodes(records, order[1..]);
      NodesAreRecords(records, order[1..], found[name := records[name]]);
      assert forall k :: k in order <==> k == name || k in order[1..];
    }
  }

  lemma {:induction false} NodesWellFormed(records: map<string, Passwords>, order: seq<string>)
    requires CStrings(records) && forall i :: 0 <= i < |order| ==> order[i] in records
    ensures WellFormedItems(UserNodes(records, order))
  {
    if order != [] {
      NodesWellFormed(records, order[1..]);
      NodeWellFormed(order[0], records[order[0]]);
      assert UserNodes(records, order)[1..] == UserNodes(records, order[1..]);
    }
  }

  lemma {:induction false} MembersWellFormed(m: Member, rest: seq<Member>)
    requires CString(m.key) && WellFormed(m.value) && WellFormedMembers(rest)
    ensures WellFormedMembers([m] + rest)
  {
    assert ([m] + rest)[1..] == rest;
  }

  lemma {:induction false} NodeWellFormed(name: string, pwd: Passwords)
    requires CString(name) && CString(pwd.client) && CString(pwd.server)
    ensures WellFormed(UserNode(name, pwd))
  {
    var ms := UserNode(name, pwd).members;
    MembersWellFormed(ms[2], []);
    MembersWellFormed(ms[1], [ms[2]] + []);
    MembersWellFormed(ms[0], [ms[1]] + ([ms[2]] + []));
    assert ms == [ms[0]] + ([ms[1]] + ([ms[2]] + []));
  }

  lemma {:induction false} DocumentWellFormed(records: map<string, Passwords>, order: seq<string>)
    requires CStrings(records) && Iteration(records, order)
    ensures WellFormed(Document(records, order))
  {
    NodesWellFormed(records, order);
    var ms := Document(records, order).members;
    assert ms[1..] == [];
  }

  lemma {:induction false} UsersFound(users: Json)
    ensures GetObjectItem(Object([Member("users", users)]), "users") == Some(users)
  {
  }

  /** For every map of users and every iteration order, loading the saved text gives the map back. */
  lemma {:induction false} LoadUndoesSave(records: map<string, Passwords>, order: seq<string>)
    requires CStrings(records) && Iteration(records, order)
    ensures Load(Print(Document(records, order), true)) == Some(records)
  {
    var t := Document(records, order);
    DocumentWellFormed(records, order);
    ParseUndoesPrint(t, true);
    UsersFound(Array(UserNodes(records, order)));
    NodesAreRecords(records, order, map[]);
    assert Records(UserNodes(records, order), map[]).value == records;
  }

  // ---------------------------------------------------------------- the operations

  class CetusUsers {
    var records: map<string, Passwords>

    /** `cetus_users_write_json`, up to the text handed on; `order` is the order of the hash table. */
    method WriteJson(order: seq<string>) returns (text: string)
      requires CStrings(records) && Iteration(records, order)
      ensures text == Print(Document(records, order), true) && Load(text) == Some(records)
    {
      var nodes := BuildNodes(order);
      LoadUndoesSave(records, order);
      text := Print(Object([Member("users", Array(nodes))]), true);
    }

    /** The loop over the hash table. */
    method BuildNodes(order: seq<string>) returns (nodes: seq<Json>)
      requires forall i :: 0 <= i < |order| ==> order[i] in records
      ensures nodes == UserNodes(records, order)
    {
      nodes := [];
      assert order[0..] == order;
      for i := 0 to |order|
        invariant nodes + UserNodes(records, order[i..]) == UserNodes(records, order)
      {
        assert order[i..][1..] == order[i + 1..];
        nodes := nodes + [UserNode(order[i], records[order[i]])];
      }
    }

    /** `cetus_users_parse_json`: replaces the records, or leaves them if the text is not usable. */
    method ParseJson(text: string) returns (success: bool)
      modifies this
      ensures success == Load(text).Some? && records == (if success then Load(text).value else old(records))
    {
      var ok, root := JsonReader.ParseText(text);
      if !ok {
        return false;
      }
      var users := GetObjectItem(root, "users");
      var nodes := if users.None? then [] else Children(users.value);
      var found: map<string, Passwords> := map[];
      assert nodes[0..] == nodes;
      for i := 0 to |nodes|
        invariant Records(nodes[i..], found) == Load(text)
      {
        assert nodes[i..][1..] == nodes[i + 1..];
        var r := Record(nodes[i]);
        if r.None? {
          return false;
        }
        found := found[r.value.0 := r.value.1];
      }
      records := found;
      success := true;
    }
  }
}
