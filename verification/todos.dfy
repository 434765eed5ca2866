/** The todo collection of the app: the record type, the lookup by id, the
    completion filter and the collection each mutating operation leaves
    behind, written as functions on values, with the properties the app
    relies on proved as lemmas. The class in TodoStore applies these to its
    state in place. */
module Todos {
  import opened Wrappers

  /** Placeholder picture used when a todo has no attachment. */
  const DefaultImage: string := "img/default.svg"

  /** One todo record, as it is kept in the collection and in storage. */
  datatype Todo = Todo(id: int, task: string, image: string, completed: bool)

  /** What saving an item did: appended a record with a fresh id, replaced
      the record at an index, or refused the id ("Invalid Index"). */
  datatype SaveOutcome = Created(id: int) | Replaced(index: nat) | InvalidIndex

  datatype SaveResult = SaveResult(todos: seq<Todo>, outcome: SaveOutcome)

  /** A JSON value as `JSON.parse` returns it. An absent storage entry
      parses to `null`; an array is taken to hold todo records. */
  datatype JsonValue =
    | JNull
    | JBool(b: bool)
    | JNumber(n: real)
    | JString(s: string)
    | JObject
    | JArray(items: seq<Todo>)

  /** What reading storage at start-up gave: the parse threw, or a value. */
  datatype ParseOutcome = Threw | Parsed(value: JsonValue)

  /** JavaScript truthiness of a parsed value (`!!v`). */
  predicate Truthy(v: JsonValue) {
    match v
    case JNull => false
    case JBool(b) => b
    case JNumber(n) => n != 0.0
    case JString(s) => s != ""
    case JObject => true
    case JArray(_) => true
  }

  // ---------------------------------------------------------------------
  // Queries

  /** `findIndex` on the id: the first index holding `id`, or -1. */
  function TodoIndex(s: seq<Todo>, id: int): (r: int)
    ensures -1 <= r < |s|
    ensures r == -1 <==> forall j :: 0 <= j < |s| ==> s[j].id != id
    ensures r >= 0 ==> s[r].id == id && forall j :: 0 <= j < r ==> s[j].id != id
  {
    if |s| == 0 then -1
    else if s[0].id == id then 0
    else
      var r := TodoIndex(s[1..], id);
      if r < 0 then -1 else r + 1
  }

  /** The id a newly created todo receives: the current length. */
  function LatestIndex(s: seq<Todo>): (r: nat)
    ensures r == |s|
  {
    if |s| == 0 then 0 else |s|
  }

  /** The todos whose completion flag is `flag`, in collection order. */
  function FilterByCompletion(s: seq<Todo>, flag: bool): (r: seq<Todo>)
    ensures |r| <= |s|
    ensures forall x :: x in r <==> x in s && x.completed == flag
  {
    if |s| == 0 then []
    else if s[0].completed == flag then [s[0]] + FilterByCompletion(s[1..], flag)
    else FilterByCompletion(s[1..], flag)
  }

  /** The collection the app starts with: a failed parse falls back to
      `[]`, and then anything falsy or not an array becomes `[]`. */
  function Restore(p: ParseOutcome): (r: seq<Todo>)
    ensures p.Parsed? && p.value.JArray? ==> r == p.value.items
    ensures !(p.Parsed? && p.value.JArray?) ==> r == []
  {
    var todos := if p.Threw? then JArray([]) else p.value;
    if !Truthy(todos) || !todos.JArray? then [] else todos.items
  }

  // ---------------------------------------------------------------------
  // The collection after each mutating operation

  /** The picture a saved item gets: the form's picture if it has one. */
  function ImageOrDefault(src: string): (r: string)
    ensures r != ""
    ensures src != "" ==> r == src
  {
    if src == "" then DefaultImage else src
  }

  /** A parsed id that asks for a new item: NaN (None) or negative. */
  predicate IsNewItem(rawId: Option<int>) {
    rawId.None? || rawId.value < 0
  }

  /** Saving the form: create when the id asks for a new item, otherwise
      replace the first record with that id, or refuse an unknown id. */
  function Save(s: seq<Todo>, rawId: Option<int>, task: string, image: string): (r: SaveResult)
    ensures r.outcome.Created? <==> IsNewItem(rawId)
    ensures r.outcome.InvalidIndex? ==> r.todos == s
    ensures |r.todos| == if r.outcome.Created? then |s| + 1 else |s|
  {
    var item := Todo(-1, task, ImageOrDefault(image), false);
    if !IsNewItem(rawId) then
      var index := TodoIndex(s, rawId.value);
      if index >= 0 then SaveResult(s[index := item.(id := rawId.value)], Replaced(index))
      else SaveResult(s, InvalidIndex)
    else
      var id := LatestIndex(s);
      SaveResult(s + [item.(id := id)], Created(id))
  }

  /** Marking the first record with `id` as completed. */
  function Completed(s: seq<Todo>, id: int): (r: seq<Todo>)
    ensures |r| == |s|
  {
    if |s| == 0 then s
    else
      var index := TodoIndex(s, id);
      if index >= 0 then s[index := s[index].(completed := true)] else s
  }

  /** Splicing out the first record with `id`. */
  function Removed(s: seq<Todo>, id: int): (r: seq<Todo>)
    ensures |r| == if TodoIndex(s, id) >= 0 then |s| - 1 else |s|
  {
    if |s| == 0 then s
    else
      var index := TodoIndex(s, id);
      if index >= 0 then s[..index] + s[index + 1..] else s
  }

  // ---------------------------------------------------------------------
  // Identity

  function Ids(s: seq<Todo>): (r: seq<int>)
    ensures |r| == |s|
    ensures forall j :: 0 <= j < |s| ==> r[j] == s[j].id
  {
    seq(|s|, j requires 0 <= j < |s| => s[j].id)
  }

  ghost predicate HasDuplicateIds(s: seq<Todo>) {
    exists i, j :: 0 <= i < j < |s| && s[i].id == s[j].id
  }

  /** The shape a collection has when it was built by creates alone. */
  ghost predicate NumberedByPosition(s: seq<Todo>) {
    forall i :: 0 <= i < |s| ==> s[i].id == i
  }

  /** Order preservation: `idx` picks out `a` from `b` at increasing
      positions. */
  ghost predicate EmbedsAt(a: seq<Todo>, b: seq<Todo>, idx: seq<int>) {
    && |idx| == |a|
    && (forall i :: 0 <= i < |idx| ==> 0 <= idx[i] < |b| && a[i] == b[idx[i]])
    && (forall i, j :: 0 <= i < j < |idx| ==> idx[i] < idx[j])
  }
}
