/** The app's global `todos` array and the operations that change it in
    place: each method changes the collection to the one the matching
    function of Todos describes, so every property proved there holds of
    the store after the call. */
module TodoService {
  import opened Wrappers
  import opened Todos

  class TodoStore {
    var todos: seq<Todo>

    /** Start-up: whatever storage held, unless it parses to an array,
        gives an empty collection. */
    constructor Load(stored: ParseOutcome)
      ensures todos == Restore(stored)
      ensures !(stored.Parsed? && stored.value.JArray?) ==> todos == []
    {
      todos := Restore(stored);
    }

    /** Saves the item form: `rawId` is the parsed id field (None for
        NaN), `image` the picture's source ("" when it has none). */
    method SaveTodoItem(rawId: Option<int>, task: string, image: string) returns (outcome: SaveOutcome)
      modifies this
      ensures SaveResult(todos, outcome) == Save(old(todos), rawId, task, image)
      ensures outcome.Created? ==> todos == old(todos) + [Todo(|old(todos)|, task, ImageOrDefault(image), false)]
      ensures outcome.InvalidIndex? ==> todos == old(todos)
    {
      var newItem := Todo(-1, "", DefaultImage, false);
      newItem := newItem.(task := task);
      if image != "" {
        newItem := newItem.(image := image);
      }
      if rawId.Some? && rawId.value >= 0 {
        newItem := newItem.(id := rawId.value);
        var index := TodoIndex(todos, newItem.id);
        if index >= 0 {
          todos := todos[index := newItem];
          outcome := Replaced(index);
        } else {
          outcome := InvalidIndex;
        }
      } else {
        newItem := newItem.(id := LatestIndex(todos));
        todos := todos + [newItem];
        outcome := Created(newItem.id);
      }
    }

    /** Marks the first todo with `id` as completed. */
    method CompleteTodo(id: int)
      modifies this
      ensures todos == Completed(old(todos), id)
      ensures |todos| == |old(todos)|
    {
      if |todos| == 0 {
        return;
      }
      var index := TodoIndex(todos, id);
      if index >= 0 {
        todos := todos[index := todos[index].(completed := true)];
      }
    }

    /** Splices out the first todo with `id`; reports its completion flag,
        or None when nothing was removed. */
    method RemoveTodo(id: int) returns (wasCompleted: Option<bool>)
      modifies this
      ensures todos == Removed(old(todos), id)
      ensures var index := TodoIndex(old(todos), id);
        wasCompleted == if index >= 0 then Some(old(todos)[index].completed) else None
    {
      if |todos| == 0 {
        return None;
      }
      var index := TodoIndex(todos, id);
      wasCompleted := None;
      if index >= 0 {
        wasCompleted := Some(todos[index].completed);
        todos := todos[..index] + todos[index + 1..];
      }
    }

    /** Empties the collection. */
    method ClearTodos()
      modifies this
      ensures todos == []
    {
      todos := [];
    }
  }

  /** A session from empty storage: create, complete, view, remove, and an
      edit with an unknown id, as a client of the contracts above. */
  method EmptyStorageSession()
  {
    var store := new TodoStore.Load(Parsed(JNull));
    assert store.todos == [];

    var created := store.SaveTodoItem(None, "buy milk", "");
    var milk := Todo(0, "buy milk", DefaultImage, false);
    assert store.todos == [milk];

    store.CompleteTodo(0);
    var done := milk.(completed := true);
    assert store.todos == [done];
    assert FilterByCompletion(store.todos, true) == [done];
    assert FilterByCompletion(store.todos, false) == [];

    var refused := store.SaveTodoItem(Some(99), "x", "img/x.png");
    assert refused == InvalidIndex && store.todos == [done];

    var wasCompleted := store.RemoveTodo(0);
    assert wasCompleted == Some(true) && store.todos == [];
  }
}
