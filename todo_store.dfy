/**
 The server's module-level `todos` array and its handlers, as an object whose
 methods change the collection in place. Each method is proved against the
 function of TodoModel or TodoRoutes that states its effect.
 */
module TodoStore {
  import opened TodoModel
  import opened TodoRoutes

  class Store {
    /** The todo items, in creation order. */
    var todos: seq<Todo>

    /** Start-up: `todos` begins empty and `loadTodosFromFile` replaces it by
        what the snapshot file held. `saved` is the parsed file, `None` when
        reading or parsing failed, which leaves the collection empty. */
    constructor (saved: Option<seq<Todo>>)
      ensures todos == (if saved.Some? then saved.value else [])
    {
      todos := [];
      if saved.Some? {
        todos := saved.value;
      }
    }

    /** GET /todos: the whole collection. */
    method List() returns (all: seq<Todo>)
      ensures all == todos
    {
      all := todos;
    }

    /** The linear search `findIndex` by id that the handlers share: the
        position of the first item whose id matches, or -1. */
    method IndexOf(param: Option<int>) returns (i: int)
      ensures -1 <= i < |todos|
      ensures i == -1 <==> Absent(todos, param)
      ensures 0 <= i ==> Matches(todos[i], param)
      ensures 0 <= i ==> forall k :: 0 <= k < i ==> !Matches(todos[k], param)
      ensures i == FindIndex(todos, param)
    {
      var k := 0;
      while k < |todos|
        invariant 0 <= k <= |todos|
        invariant forall j :: 0 <= j < k ==> !Matches(todos[j], param)
      {
        if Matches(todos[k], param) {
          return k;
        }
        k := k + 1;
      }
      return -1;
    }

    /** GET /todos/:id */
    method Get(param: Option<int>) returns (r: Reply)
      ensures r.NotFound? <==> Absent(todos, param)
      ensures r.Found? ==> Matches(r.todo, param)
      ensures r == Lookup(todos, param)
    {
      var i := IndexOf(param);
      if i == -1 {
        r := NotFound;
      } else {
        r := Found(todos[i]);
      }
    }

    /** POST /todos: appends `{id: todos.length + 1, title, description}`
        and returns the id. */
    method Create(body: Fields) returns (id: int)
      modifies this
      ensures id == |old(todos)| + 1
      ensures todos == old(todos) + [Todo(id, body.title, body.description)]
      ensures todos == Add(old(todos), body)
    {
      id := |todos| + 1;
      todos := todos + [Todo(id, body.title, body.description)];
    }

    /** PUT /todos/:id: overwrites the title and the description of the
        first match with the supplied values that are truthy. */
    method Update(param: Option<int>, body: Fields) returns (r: Reply)
      modifies this
      ensures (todos, r) == Change(old(todos), param, body)
    {
      var i := IndexOf(param);
      if i == -1 {
        r := NotFound;
      } else {
        var t := todos[i];
        t := t.(title := Or(body.title, t.title));
        t := t.(description := Or(body.description, t.description));
        todos := todos[i := t];
        r := Found(t);
      }
    }

    /** DELETE /todos/:id: splices out the first match and returns it. */
    method Delete(param: Option<int>) returns (r: Reply)
      modifies this
      ensures (todos, r) == Remove(old(todos), param)
    {
      var i := IndexOf(param);
      if i == -1 {
        r := NotFound;
      } else {
        r := Found(todos[i]);
        todos := todos[..i] + todos[i + 1..];
      }
    }

    /** One request through the route handlers. */
    method Handle(req: Request) returns (resp: Response)
      modifies this
      ensures (todos, resp) == Serve(old(todos), req)
    {
      match req
      case ListAll =>
        var all := List();
        resp := Response(200, Items(all));
      case GetOne(param) =>
        var r := Get(param);
        resp := Answer(r);
      case Post(body) =>
        var id := Create(body);
        resp := Response(201, NewId(id));
      case Put(param, body) =>
        var r := Update(param, body);
        resp := Answer(r);
      case Del(param) =>
        var r := Delete(param);
        resp := Answer(r);
      case Unmatched =>
        resp := Response(404, Error(RouteNotFound));
    }
  }
}
