/** The state transitions of the todo list component (src/App.js): the
    fetched list, the draft in the input box, and what each handler does to
    them once its request has settled. Network outcomes are parameters. */
module TodoList {
  import opened Wrappers
  import JsString

  /** Identifiers are assigned by the server and compared with `===`. */
  type Id = int

  /** A record as the component sees it. */
  datatype Todo = Todo(id: Id, title: string, completed: bool)

  /** What a handler sends to the remote service. */
  datatype Request =
    | Get                                     // GET /api/todos
    | Post(title: string, completed: bool)   // POST /api/todos
    | Put(id: Id, body: Todo)                 // PUT /api/todos/{id}
    | Delete(id: Id)                          // DELETE /api/todos/{id}

  /** `{ ...t, completed: !t.completed }`: the same record with only
      `completed` negated. */
  function Flip(t: Todo): (r: Todo)
    ensures r.id == t.id && r.title == t.title && r.completed == !t.completed
  {
    t.(completed := !t.completed)
  }

  predicate HasId(s: seq<Todo>, id: Id) {
    exists k | 0 <= k < |s| :: s[k].id == id
  }

  /** `s.find(t => t.id === id)`: the first record carrying `id`, if any. */
  function Find(s: seq<Todo>, id: Id): (r: Option<Todo>)
    ensures r.None? <==> !HasId(s, id)
    ensures r.Some? ==> exists k | 0 <= k < |s| ::
      s[k] == r.value && s[k].id == id && forall j | 0 <= j < k :: s[j].id != id
  {
    if s == [] then None
    else if s[0].id == id then
      Some(s[0])
    else
      var r := Find(s[1..], id);
      assert r.Some? ==> exists k | 0 <= k < |s| ::
        s[k] == r.value && s[k].id == id && forall j | 0 <= j < k :: s[j].id != id
      by {
        if r.Some? {
          var k :| 0 <= k < |s| - 1 && s[1..][k] == r.value && s[1..][k].id == id &&
            forall j | 0 <= j < k :: s[1..][j].id != id;
          assert forall j | 0 <= j < k + 1 :: s[j].id != id by {
            forall j | 0 <= j < k + 1 ensures s[j].id != id {
              if j > 0 { assert s[j] == s[1..][j - 1]; }
            }
          }
        }
      }
      assert HasId(s, id) ==> HasId(s[1..], id) by {
        if HasId(s, id) {
          var k :| 0 <= k < |s| && s[k].id == id;
          assert s[1..][k - 1].id == id;
        }
      }
      r
  }

  /** `s.map(t => t.id === id ? { ...t, completed: !t.completed } : t)`:
      same length and order, `completed` negated on exactly the records
      carrying `id`, every other record identical. */
  function ToggleMatching(s: seq<Todo>, id: Id): (r: seq<Todo>)
    ensures |r| == |s|
    ensures forall k | 0 <= k < |s| :: r[k] == if s[k].id == id then Flip(s[k]) else s[k]
  {
    if s == [] then []
    else [if s[0].id == id then Flip(s[0]) else s[0]] + ToggleMatching(s[1..], id)
  }

  /** `s.filter(t => t.id !== id)`: no record carrying `id` is left, and
      every other record keeps its number of occurrences. */
  function Without(s: seq<Todo>, id: Id): (r: seq<Todo>)
    ensures |r| <= |s|
    ensures forall k | 0 <= k < |r| :: r[k].id != id
    ensures forall t :: multiset(r)[t] == if t.id == id then 0 else multiset(s)[t]
  {
    if s == [] then []
    else if s[0].id == id then
      assert s == [s[0]] + s[1..];
      Without(s[1..], id)
    else
      assert s == [s[0]] + s[1..];
      [s[0]] + Without(s[1..], id)
  }

  /** `a` is `b` with some elements left out and the rest in their order. */
  predicate IsSubsequence(a: seq<Todo>, b: seq<Todo>)
    decreases |b|
  {
    if a == [] then true
    else if b == [] then false
    else (a[0] == b[0] && IsSubsequence(a[1..], b[1..])) || IsSubsequence(a, b[1..])
  }

  /** Toggling the same id twice gives back the original list. */
  lemma ToggleTwice(s: seq<Todo>, id: Id)
    ensures ToggleMatching(ToggleMatching(s, id), id) == s
  {
  }

  /** Toggling keeps every id where it was, so the same records match. */
  lemma ToggleKeepsIds(s: seq<Todo>, id: Id, other: Id)
    ensures HasId(ToggleMatching(s, id), other) <==> HasId(s, other)
  {
  }

  /** The filter keeps the order: its result is a subsequence of the input.
      With the occurrence counts in `Without`'s contract this pins the
      result down to the records whose id differs, in their order. */
  lemma {:induction false} WithoutIsSubsequence(s: seq<Todo>, id: Id)
    ensures IsSubsequence(Without(s, id), s)
  {
    if s != [] {
      WithoutIsSubsequence(s[1..], id);
      var r := Without(s, id);
      if s[0].id != id {
        assert r[0] == s[0] && r[1..] == Without(s[1..], id);
      }
    }
  }

  /** Deleting an id that no record carries leaves the list as it was. */
  lemma {:induction false} WithoutAbsent(s: seq<Todo>, id: Id)
    requires !HasId(s, id)
    ensures Without(s, id) == s
  {
    if s != [] {
      assert s[0].id != id;
      forall k | 0 <= k < |s| - 1 ensures s[1..][k].id != id {
        assert s[1..][k] == s[k + 1];
      }
      WithoutAbsent(s[1..], id);
      assert s == [s[0]] + s[1..];
    }
  }

  /** Deleting the same id twice is the same as deleting it once. */
  lemma WithoutIdempotent(s: seq<Todo>, id: Id)
    ensures Without(Without(s, id), id) == Without(s, id)
  {
    WithoutAbsent(Without(s, id), id);
  }

  /** The component's state: `todos` and `newTodo` (here `draft`). Each
      handler is modelled with the outcome of its request as a parameter,
      and its callback runs against the list the handler observed. */
  class TodoApp {
    var todos: seq<Todo>
    var draft: string

    /** `useState([])` and `useState('')`. */
    constructor ()
      ensures todos == [] && draft == ""
    {
      todos := [];
      draft := "";
    }

    /** The mount-time fetch: `fetched` is the parsed response body, or
        `None` when the request or the parsing failed. */
    method Load(fetched: Option<seq<Todo>>) returns (sent: Request)
      modifies this
      ensures sent == Get
      ensures todos == if fetched.Some? then fetched.value else old(todos)
      ensures draft == old(draft)
    {
      sent := Get;
      if fetched.Some? {
        todos := fetched.value;
      }
    }

    /** The input's `onChange`: the draft becomes the typed text. */
    method Edit(text: string)
      modifies this
      ensures draft == text && todos == old(todos)
    {
      draft := text;
    }

    /** `handleSubmit`. A blank draft sends nothing and changes nothing.
        Otherwise the untrimmed draft is posted with `completed: false`;
        when the response body is parsed (`created`), it is appended to the
        list and the draft is cleared, and on failure nothing changes. */
    method HandleSubmit(created: Option<Todo>) returns (sent: Option<Request>)
      modifies this
      ensures sent == if JsString.Trim(old(draft)) == [] then None else Some(Post(old(draft), false))
      ensures sent.Some? && created.Some? ==> todos == old(todos) + [created.value] && draft == ""
      ensures sent.None? || created.None? ==> todos == old(todos) && draft == old(draft)
    {
      if JsString.Trim(draft) == [] {
        return None;
      }
      sent := Some(Post(draft, false));
      if created.Some? {
        todos := todos + [created.value];
        draft := "";
      }
    }

    /** `toggleTodo(id)`. An id no record carries sends nothing and changes
        nothing. Otherwise the first matching record is sent with
        `completed` negated; once the response body is parsed (`settled`),
        every matching record is flipped, and on failure nothing changes. */
    method ToggleTodo(id: Id, settled: bool) returns (sent: Option<Request>)
      modifies this
      ensures old(HasId(todos, id)) <==> sent.Some?
      ensures sent.Some? ==> old(Find(todos, id)).Some? && sent == Some(Put(id, Flip(old(Find(todos, id)).value)))
      ensures todos == if sent.Some? && settled then ToggleMatching(old(todos), id) else old(todos)
      ensures draft == old(draft)
    {
      var found := Find(todos, id);
      if found.None? {
        return None;
      }
      sent := Some(Put(id, Flip(found.value)));
      if settled {
        todos := ToggleMatching(todos, id);
      }
    }

    /** `deleteTodo(id)`: the request is always sent; whenever it settles,
        whatever the HTTP status, the records carrying `id` are removed,
        and on a network failure nothing changes. */
    method DeleteTodo(id: Id, settled: bool) returns (sent: Request)
      modifies this
      ensures sent == Delete(id)
      ensures todos == if settled then Without(old(todos), id) else old(todos)
      ensures draft == old(draft)
    {
      sent := Delete(id);
      if settled {
        todos := Without(todos, id);
      }
    }
  }

  /** A client of the component: two settled toggles of the same id leave
      the list and the draft as they were. */
  method ToggleTwiceRestores(app: TodoApp, id: Id)
    modifies app
    ensures app.todos == old(app.todos) && app.draft == old(app.draft)
  {
    var first := app.ToggleTodo(id, true);
    ToggleKeepsIds(old(app.todos), id, id);
    var second := app.ToggleTodo(id, true);
    ToggleTwice(old(app.todos), id);
  }
}
