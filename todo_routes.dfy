/**
 The route handlers of 02-nodejs/todoServer.js: how each request the HTTP
 layer has already parsed is answered, with its status code and JSON body,
 and what it does to the collection.
 */
module TodoRoutes {
  import opened TodoModel

  /** A request after routing. The route parameter `:id` has already gone
      through `parseInt` (`None` for NaN); the body fields are the JSON
      body's `title` and `description`. `Unmatched` is every method and path
      outside the five routes, except HEAD requests, which Express answers
      with the GET handlers and so arrive as `ListAll` or `GetOne`. */
  datatype Request =
    | ListAll
    | GetOne(param: Option<int>)
    | Post(body: Fields)
    | Put(param: Option<int>, body: Fields)
    | Del(param: Option<int>)
    | Unmatched

  /** The JSON body of a response. */
  datatype Body =
    | Items(todos: seq<Todo>)
    | Item(todo: Todo)
    | NewId(id: int)
    | Error(error: string)

  datatype Response = Response(status: int, body: Body)

  const TodoNotFound: string := "Todo not found"
  const RouteNotFound: string := "Route not found"

  /** `res.json(todo)` for a found item, 404 with `{error: 'Todo not found'}`
      otherwise. */
  function Answer(r: Reply): (resp: Response)
    ensures resp.status == 200 <==> r.Found?
    ensures resp.status == 404 <==> r.NotFound?
    ensures r.Found? ==> resp == Response(200, Item(r.todo))
    ensures r.NotFound? ==> resp == Response(404, Error(TodoNotFound))
  {
    match r
    case Found(t) => Response(200, Item(t))
    case NotFound => Response(404, Error(TodoNotFound))
  }

  /** One request: the collection after it and the response sent. */
  function Serve(s: seq<Todo>, req: Request): (r: (seq<Todo>, Response))
    ensures |r.0| == |s| + (if req.Post? then 1 else if req.Del? && !Absent(s, req.param) then -1 else 0)
  {
    match req
    case ListAll => (s, Response(200, Items(s)))
    case GetOne(param) => (s, Answer(Lookup(s, param)))
    case Post(body) => (Add(s, body), Response(201, NewId(|s| + 1)))
    case Put(param, body) =>
      var r := Change(s, param, body);
      (r.0, Answer(r.1))
    case Del(param) =>
      var r := Remove(s, param);
      (r.0, Answer(r.1))
    case Unmatched => (s, Response(404, Error(RouteNotFound)))
  }

  /** A sequence of requests served one after another. */
  function Run(s: seq<Todo>, reqs: seq<Request>): (seq<Todo>, seq<Response>)
    decreases |reqs|
  {
    if reqs == [] then (s, [])
    else
      var first := Serve(s, reqs[0]);
      var rest := Run(first.0, reqs[1..]);
      (rest.0, [first.1] + rest.1)
  }

  /** Every response is 200, 201 or 404; a 404 changes nothing and carries
      one of the two error messages, and it is sent exactly when the route is
      unknown or the id matches no item. */
  lemma ServeStatus(s: seq<Todo>, req: Request)
    ensures Serve(s, req).1.status in {200, 201, 404}
    ensures Serve(s, req).1.status == 404 ==> Serve(s, req).0 == s
    ensures Serve(s, req).1.status == 404 <==>
      (|| req.Unmatched?
       || (req.GetOne? && Absent(s, req.param))
       || (req.Put? && Absent(s, req.param))
       || (req.Del? && Absent(s, req.param)))
    ensures Serve(s, req).1.status == 404 ==>
      Serve(s, req).1.body == Error(if req.Unmatched? then RouteNotFound else TodoNotFound)
    ensures Serve(s, req).1.status == 201 <==> req.Post?
  {
  }

  /** The bodies of the successful responses: GET /todos sends the whole
      collection, POST the id of the item it appended, PUT the item as stored
      after the update, and GET or DELETE of a present id the first matching
      item. */
  lemma ServeBodies(s: seq<Todo>, req: Request)
    ensures req.ListAll? ==> Serve(s, req).1.body == Items(s)
    ensures req.Post? ==> Serve(s, req).1.body == NewId(Serve(s, req).0[|s|].id)
    ensures req.Put? && !Absent(s, req.param) ==>
      Serve(s, req).1.body == Item(Serve(s, req).0[FindIndex(s, req.param)])
    ensures (req.GetOne? || req.Del?) && !Absent(s, req.param) ==>
      Serve(s, req).1.body == Item(s[FindIndex(s, req.param)])
  {
  }

  /** GET requests and unknown routes never change the collection. */
  lemma ReadsChangeNothing(s: seq<Todo>, req: Request)
    requires req.ListAll? || req.GetOne? || req.Unmatched?
    ensures Serve(s, req).0 == s
  {
  }

  /** Serving a non-empty list of requests serves the first one and then
      the rest from the collection it leaves. */
  lemma RunFirst(s: seq<Todo>, req: Request, rest: seq<Request>)
    ensures Run(s, [req] + rest) ==
      (Run(Serve(s, req).0, rest).0, [Serve(s, req).1] + Run(Serve(s, req).0, rest).1)
  {

  }

  /** One more request in front of a served sequence: its response comes
      first and the rest is served from the collection it leaves. */
  lemma RunStep(s: seq<Todo>, req: Request, rest: seq<Request>,
                after: seq<Todo>, resp: Response, final: seq<Todo>, resps: seq<Response>)
    requires Serve(s, req) == (after, resp)
    requires Run(after, rest) == (final, resps)
    ensures Run(s, [req] + rest) == (final, [resp] + resps)
  {
    RunFirst(s, req, rest);
  }

  /** The first three requests of the session below, served on their own:
      create, read and update the title only. */
  lemma SessionStartSteps(title: string, description: string)
    ensures var item := Todo(1, Some(title), Some(description));
      && Serve([], Post(Fields(Some(title), Some(description)))) == ([item], Response(201, NewId(1)))
      && Serve([item], GetOne(Some(1))) == ([item], Response(200, Item(item)))
      && Serve([item], Put(Some(1), Fields(Some(title), None))) == ([item], Response(200, Item(item)))
  {
    var item := Todo(1, Some(title), Some(description));
    var s := [item];
    var none: seq<Todo> := [];
    assert Add(none, Fields(Some(title), Some(description))) == [item] by {
      assert none + [item] == [item];
    }
    assert FindIndex(s, Some(1)) == 0 by { assert Matches(s[0], Some(1)); }
    assert Patch(item, Fields(Some(title), None)) == item;
    assert s[0 := item] == s;
  }

  /** The last three requests of the session below, served on their own:
      delete, read again and an unknown route. */
  lemma SessionEndSteps(title: string, description: string)
    ensures var item := Todo(1, Some(title), Some(description));
      && Serve([item], Del(Some(1))) == ([], Response(200, Item(item)))
      && Serve([], GetOne(Some(1))) == ([], Response(404, Error(TodoNotFound)))
      && Serve([], Unmatched) == ([], Response(404, Error(RouteNotFound)))
  {
    var item := Todo(1, Some(title), Some(description));
    var s := [item];
    assert FindIndex(s, Some(1)) == 0 by { assert Matches(s[0], Some(1)); }
    assert s[..0] + s[1..] == [];
  }

  /** The end of the session below: delete the one item, read its id again
      and ask for an unknown route. */
  lemma SessionEnd(title: string, description: string)
    ensures var item := Todo(1, Some(title), Some(description));
      Run([item], [Del(Some(1)), GetOne(Some(1)), Unmatched]) ==
        ([], [Response(200, Item(item)), Response(404, Error(TodoNotFound)), Response(404, Error(RouteNotFound))])
  {
    SessionEndSteps(title, description);
    var item := Todo(1, Some(title), Some(description));
    var none: seq<Todo> := [];
    var noTodo := Response(404, Error(TodoNotFound));
    var noRoute := Response(404, Error(RouteNotFound));
    var q2: seq<Request> := [Unmatched];
    var q1 := [GetOne(Some(1))] + q2;
    var q0 := [Del(Some(1))] + q1;
    assert Run(none, []) == (none, []);
    RunFirst(none, Unmatched, []);
    assert [Unmatched] + [] == q2;
    assert [noRoute] + [] == [noRoute];
    RunFirst(none, GetOne(Some(1)), q2);
    assert [noTodo] + [noRoute] == [noTodo, noRoute];
    RunFirst([item], Del(Some(1)), q1);
    assert [Response(200, Item(item))] + [noTodo, noRoute] == [Response(200, Item(item)), noTodo, noRoute];
    assert q0 == [Del(Some(1)), GetOne(Some(1)), Unmatched];
  }

  /** The session below from its update on: update the title only, then its
      last three requests. */
  lemma SessionFromUpdate(title: string, description: string)
    ensures var item := Todo(1, Some(title), Some(description));
      var ok := Response(200, Item(item));
      Run([item], [Put(Some(1), Fields(Some(title), None)), Del(Some(1)), GetOne(Some(1)), Unmatched]) ==
        ([], [ok, ok, Response(404, Error(TodoNotFound)), Response(404, Error(RouteNotFound))])
  {
    var item := Todo(1, Some(title), Some(description));
    var s := [item];
    var ok := Response(200, Item(item));
    var noTodo := Response(404, Error(TodoNotFound));
    var noRoute := Response(404, Error(RouteNotFound));
    var put := Put(Some(1), Fields(Some(title), None));
    var q3: seq<Request> := [Del(Some(1)), GetOne(Some(1)), Unmatched];
    SessionStartSteps(title, description);
    SessionEnd(title, description);
    RunStep(s, put, q3, s, ok, [], [ok, noTodo, noRoute]);
    assert [ok] + [ok, noTodo, noRoute] == [ok, ok, noTodo, noRoute];
    assert [put] + q3 == [Put(Some(1), Fields(Some(title), None)), Del(Some(1)), GetOne(Some(1)), Unmatched];
  }

  /** The session below once the item exists: read it, then the rest from
      the update on. */
  lemma SessionFromItem(title: string, description: string)
    ensures var item := Todo(1, Some(title), Some(description));
      var ok := Response(200, Item(item));
      Run([item], [GetOne(Some(1)), Put(Some(1), Fields(Some(title), None)), Del(Some(1)), GetOne(Some(1)), Unmatched]) ==
        ([], [ok, ok, ok, Response(404, Error(TodoNotFound)), Response(404, Error(RouteNotFound))])
  {
    var item := Todo(1, Some(title), Some(description));
    var s := [item];
    var ok := Response(200, Item(item));
    var noTodo := Response(404, Error(TodoNotFound));
    var noRoute := Response(404, Error(RouteNotFound));
    var get := GetOne(Some(1));
    var q2: seq<Request> := [Put(Some(1), Fields(Some(title), None)), Del(Some(1)), GetOne(Some(1)), Unmatched];
    SessionStartSteps(title, description);
    SessionFromUpdate(title, description);
    RunStep(s, get, q2, s, ok, [], [ok, ok, noTodo, noRoute]);
    assert [ok] + [ok, ok, noTodo, noRoute] == [ok, ok, ok, noTodo, noRoute];
    assert [get] + q2 == [GetOne(Some(1)), Put(Some(1), Fields(Some(title), None)), Del(Some(1)), GetOne(Some(1)), Unmatched];
  }

  /** The session of requests a client of the service goes through: create
      an item, read it, update its title only, delete it, read it again, and
      ask for an unknown route. The update keeps the description, the second
      read is NotFound and the store ends empty. */
  lemma Session(title: string, description: string)
    ensures var item := Todo(1, Some(title), Some(description));
      var ok := Response(200, Item(item));
      Run([], [Post(Fields(Some(title), Some(description))), GetOne(Some(1)), Put(Some(1), Fields(Some(title), None)),
               Del(Some(1)), GetOne(Some(1)), Unmatched]) ==
        ([], [Response(201, NewId(1)), ok, ok, ok, Response(404, Error(TodoNotFound)), Response(404, Error(RouteNotFound))])
  {
    var item := Todo(1, Some(title), Some(description));
    var none: seq<Todo> := [];
    var ok := Response(200, Item(item));
    var noTodo := Response(404, Error(TodoNotFound));
    var noRoute := Response(404, Error(RouteNotFound));
    var post := Post(Fields(Some(title), Some(description)));
    var q1: seq<Request> := [GetOne(Some(1)), Put(Some(1), Fields(Some(title), None)), Del(Some(1)), GetOne(Some(1)), Unmatched];
    SessionStartSteps(title, description);
    SessionFromItem(title, description);
    RunStep(none, post, q1, [item], Response(201, NewId(1)), [], [ok, ok, ok, noTodo, noRoute]);
    assert [Response(201, NewId(1))] + [ok, ok, ok, noTodo, noRoute]
        == [Response(201, NewId(1)), ok, ok, ok, noTodo, noRoute];
    assert [post] + q1 == [Post(Fields(Some(title), Some(description))), GetOne(Some(1)), Put(Some(1), Fields(Some(title), None)),
                           Del(Some(1)), GetOne(Some(1)), Unmatched];
  }
}
