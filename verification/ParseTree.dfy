/** JSON values as serde_json holds them, which is how the classifier sees a parse tree: crates/ownpg-core/src/classify.rs. */
module ParseTree {
  import opened Basics

  /** The members of an object have different names. */
  datatype Value =
    | Null
    | Bool(flag: bool)
    | Number(number: int)
    | String(text: string)
    | Array(items: seq<Value>)
    | Object(members: seq<Member>)

  datatype Member = Member(name: string, value: Value)

  /** The member of this name among the first n. */
  function Find(members: seq<Member>, name: string, n: nat): (r: Option<Value>)
    requires n <= |members|
    ensures r.Some? ==> exists i :: 0 <= i < n && members[i] == Member(name, r.value)
  {
    if n == 0 then None
    else if members[n - 1].name == name then Some(members[n - 1].value)
    else Find(members, name, n - 1)
  }

  function Get(value: Value, name: string): (r: Option<Value>)
    ensures r.Some? ==> (value decreases to r.value)
  {
    if value.Object? then Find(value.members, name, |value.members|) else None
  }

  /** The member `name` of the member `node`: a parse-tree node of this kind. */
  function Node(value: Value, name: string): (r: Option<Value>)
    ensures r.Some? ==> (value decreases to r.value)
  {
    var node := Get(value, "node");
    if node.None? then None else Get(node.value, name)
  }

  lemma {:induction false} FindAt(members: seq<Member>, i: nat, n: nat)
    requires i < n <= |members|
    requires forall j :: i < j < n ==> members[j].name != members[i].name
    ensures Find(members, members[i].name, n) == Some(members[i].value)
    decreases n
  {
    if i < n - 1 { FindAt(members, i, n - 1); }
  }

  /** The text of a String node. */
  function StringNode(value: Value): Option<string> {
    var node := Node(value, "String");
    if node.None? then None else TextAt(node.value, "sval")
  }

  function TextAt(value: Value, name: string): Option<string> {
    var member := Get(value, name);
    if member.Some? && member.value.String? then Some(member.value.text) else None
  }
}
