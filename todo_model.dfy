/**
 The values of the todo service and its store operations, stated as functions
 on the ordered collection of items. The five operations are the logic of the
 GET, POST, PUT and DELETE handlers of 02-nodejs/todoServer.js; the class in
 todo_store.dfy performs the same operations in place and is proved against
 these functions.
 */
module TodoModel {

  datatype Option<+T> = None | Some(value: T)

  /** A todo item. A field that is `None` is one the item does not have
      (JavaScript's `undefined`, the value of a field missing from the
      request body that created the item). */
  datatype Todo = Todo(id: int, title: Option<string>, description: Option<string>)

  /** The two fields a create or update request takes from its JSON body. */
  datatype Fields = Fields(title: Option<string>, description: Option<string>)

  /** The outcome of an operation that looks an item up by id. */
  datatype Reply = Found(todo: Todo) | NotFound

  /** JavaScript truthiness of an optional string: present and not empty. */
  predicate Truthy(v: Option<string>)
  {
    v.Some? && v.value != ""
  }

  /** The value of `v || fallback`. */
  function Or(v: Option<string>, fallback: Option<string>): Option<string>
  {
    if Truthy(v) then v else fallback
  }

  /** The handlers' test `todo.id === parseInt(param)`. The route parameter
      is the result of `parseInt`: `None` stands for NaN, which is strictly
      equal to no id at all. */
  predicate Matches(t: Todo, param: Option<int>)
  {
    param == Some(t.id)
  }

  /** True when no item of `s` matches `param`. */
  predicate Absent(s: seq<Todo>, param: Option<int>)
  {
    forall k :: 0 <= k < |s| ==> !Matches(s[k], param)
  }

  /** `findIndex` by id: the position of the FIRST item that matches, or -1. */
  function FindIndex(s: seq<Todo>, param: Option<int>): (i: int)
    ensures -1 <= i < |s|
    ensures i == -1 <==> Absent(s, param)
    ensures 0 <= i ==> Matches(s[i], param)
    ensures 0 <= i ==> forall k :: 0 <= k < i ==> !Matches(s[k], param)
  {
    if s == [] then -1
    else if Matches(s[0], param) then 0
    else
      var j := FindIndex(s[1..], param);
      assert forall k :: 1 <= k < |s| ==> s[k] == s[1..][k - 1];
      if j == -1 then -1 else j + 1
  }

  /** GET /todos/:id: the first item whose id matches, or NotFound. */
  function Lookup(s: seq<Todo>, param: Option<int>): (r: Reply)
    ensures r.NotFound? <==> Absent(s, param)
    ensures r.Found? ==> Matches(r.todo, param)
    ensures r.Found? ==> exists k :: 0 <= k < |s| && s[k] == r.todo && Absent(s[..k], param)
  {
    var i := FindIndex(s, param);
    if i == -1 then NotFound
    else
      assert Absent(s[..i], param);
      Found(s[i])
  }

  /** POST /todos: the collection after a create. The new item takes the
      position-based id `todos.length + 1` and goes at the end. */
  function Add(s: seq<Todo>, body: Fields): (r: seq<Todo>)
    ensures |r| == |s| + 1 && r[..|s|] == s
    ensures Matches(r[|s|], Some(|s| + 1))
  {
    s + [Todo(|s| + 1, body.title, body.description)]
  }

  /** The item after an update: `todo.title = title || todo.title` and the
      same for the description. The id is never touched. */
  function Patch(t: Todo, body: Fields): (u: Todo)
    ensures u.id == t.id
    ensures !Truthy(body.title) && !Truthy(body.description) ==> u == t
  {
    t.(title := Or(body.title, t.title), description := Or(body.description, t.description))
  }

  /** PUT /todos/:id: the collection after an update, and what it returns. */
  function Change(s: seq<Todo>, param: Option<int>, body: Fields): (r: (seq<Todo>, Reply))
    ensures |r.0| == |s|
    ensures forall k :: 0 <= k < |s| ==> r.0[k].id == s[k].id
    ensures r.1.NotFound? <==> Absent(s, param)
    ensures r.1.NotFound? ==> r.0 == s
    ensures r.1.Found? ==> Matches(r.1.todo, param)
  {
    var i := FindIndex(s, param);
    if i == -1 then (s, NotFound)
    else (s[i := Patch(s[i], body)], Found(Patch(s[i], body)))
  }

  /** DELETE /todos/:id: the collection after `splice(index, 1)` at the first
      match, and the item removed. */
  function Remove(s: seq<Todo>, param: Option<int>): (r: (seq<Todo>, Reply))
    ensures r.1.NotFound? <==> Absent(s, param)
    ensures r.1.NotFound? ==> r.0 == s
    ensures r.1.Found? ==> Matches(r.1.todo, param) && |r.0| == |s| - 1
  {
    var i := FindIndex(s, param);
    if i == -1 then (s, NotFound)
    else (s[..i] + s[i + 1..], Found(s[i]))
  }

  /** A run of creates, one per body, in order: the final collection and the
      ids the creates returned. */
  function CreateAll(s: seq<Todo>, bodies: seq<Fields>): (seq<Todo>, seq<int>)
    decreases |bodies|
  {
    if bodies == [] then (s, [])
    else
      var rest := CreateAll(Add(s, bodies[0]), bodies[1..]);
      (rest.0, [|s| + 1] + rest.1)
  }

  /** No two items of the collection share an id. */
  predicate UniqueIds(s: seq<Todo>)
  {
    forall j, k :: 0 <= j < k < |s| ==> s[j].id != s[k].id
  }

  /** Unique ids, all between 1 and the length of the collection: the ids
      are exactly 1..|s| in some order. */
  predicate Numbered(s: seq<Todo>)
  {
    UniqueIds(s) && forall k :: 0 <= k < |s| ==> 1 <= s[k].id <= |s|
  }
}
