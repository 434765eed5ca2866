/** Properties of the todo collection operations defined in Todos. */
module TodoProperties {
  import opened Wrappers
  import opened Todos

  // ---------------------------------------------------------------------
  // Lookup

  /** Two collections with the same ids at the same positions give the
      same answer to every lookup. */
  lemma SameIdsSameIndex(s: seq<Todo>, t: seq<Todo>, id: int)
    requires Ids(s) == Ids(t)
    ensures TodoIndex(s, id) == TodoIndex(t, id)
  {
  }

  // ---------------------------------------------------------------------
  // Save

  /** Creating appends exactly one record, numbered by the old length,
      not completed, carrying the form's task and picture. */
  lemma SaveCreatesAtEnd(s: seq<Todo>, rawId: Option<int>, task: string, image: string)
    requires IsNewItem(rawId)
    ensures var r := Save(s, rawId, task, image);
      && r.outcome == Created(|s|)
      && |r.todos| == |s| + 1
      && r.todos[..|s|] == s
      && r.todos[|s|] == Todo(|s|, task, ImageOrDefault(image), false)
      && (image == "" ==> r.todos[|s|].image == DefaultImage)
      && (image != "" ==> r.todos[|s|].image == image)
  {
    var r := Save(s, rawId, task, image);
    assert r.todos == s + [Todo(|s|, task, ImageOrDefault(image), false)];
  }

  /** Saving with an id that is present replaces the first record with
      that id and nothing else; the replacement is never completed. */
  lemma SaveReplacesFirstMatch(s: seq<Todo>, id: int, k: int, task: string, image: string)
    requires id >= 0 && 0 <= k < |s| && s[k].id == id
    requires forall j :: 0 <= j < k ==> s[j].id != id
    ensures var r := Save(s, Some(id), task, image);
      && r.outcome == Replaced(k)
      && |r.todos| == |s|
      && r.todos[k] == Todo(id, task, ImageOrDefault(image), false)
      && (image == "" ==> r.todos[k].image == DefaultImage)
      && (image != "" ==> r.todos[k].image == image)
      && forall j :: 0 <= j < |s| && j != k ==> r.todos[j] == s[j]
  {
  }

  /** Editing a completed todo un-completes it. */
  lemma SaveResetsCompletion(s: seq<Todo>, id: int, task: string, image: string)
    requires id >= 0 && TodoIndex(s, id) >= 0
    ensures var r := Save(s, Some(id), task, image);
      r.outcome.Replaced? && !r.todos[r.outcome.index].completed
  {
  }

  /** A non-negative id that is absent is refused and changes nothing. */
  lemma SaveUnknownIdRefused(s: seq<Todo>, id: int, task: string, image: string)
    requires id >= 0
    requires forall j :: 0 <= j < |s| ==> s[j].id != id
    ensures Save(s, Some(id), task, image) == SaveResult(s, InvalidIndex)
  {
  }

  // ---------------------------------------------------------------------
  // Complete

  /** Completing an absent id, or anything in an empty collection, is a
      no-op. */
  lemma CompleteMissingIsNoOp(s: seq<Todo>, id: int)
    requires forall j :: 0 <= j < |s| ==> s[j].id != id
    ensures Completed(s, id) == s
  {
  }

  /** Completing a present id sets only the flag of its first record. */
  lemma CompleteFirstMatch(s: seq<Todo>, id: int, k: int)
    requires 0 <= k < |s| && s[k].id == id
    requires forall j :: 0 <= j < k ==> s[j].id != id
    ensures var r := Completed(s, id);
      && |r| == |s|
      && r[k] == Todo(s[k].id, s[k].task, s[k].image, true)
      && forall j :: 0 <= j < |s| && j != k ==> r[j] == s[j]
  {
  }

  /** Completing leaves every id where it was. */
  lemma CompleteKeepsIds(s: seq<Todo>, id: int)
    ensures Ids(Completed(s, id)) == Ids(s)
  {
  }

  /** Completing twice is completing once. */
  lemma {:induction false} CompleteIdempotent(s: seq<Todo>, id: int)
    ensures Completed(Completed(s, id), id) == Completed(s, id)
  {
    var once := Completed(s, id);
    CompleteKeepsIds(s, id);
    SameIdsSameIndex(s, once, id);
    var index := TodoIndex(s, id);
    if |s| > 0 && index >= 0 {
      assert once[index].completed;
      assert once[index := once[index].(completed := true)] == once;
    }
  }

  // ---------------------------------------------------------------------
  // Remove

  /** Removing an absent id, or anything from an empty collection, is a
      no-op. */
  lemma RemoveMissingIsNoOp(s: seq<Todo>, id: int)
    requires forall j :: 0 <= j < |s| ==> s[j].id != id
    ensures Removed(s, id) == s
  {
  }

  /** Removing a present id takes out exactly its first record and keeps
      the others in order. */
  lemma RemoveFirstMatch(s: seq<Todo>, id: int, k: int)
    requires 0 <= k < |s| && s[k].id == id
    requires forall j :: 0 <= j < k ==> s[j].id != id
    ensures var r := Removed(s, id);
      && |r| == |s| - 1
      && (forall j :: 0 <= j < k ==> r[j] == s[j])
      && (forall j :: k <= j < |r| ==> r[j] == s[j + 1])
      && multiset(r) + multiset{s[k]} == multiset(s)
  {
    assert s == s[..k] + [s[k]] + s[k + 1..];
  }

  // ---------------------------------------------------------------------
  // Filter

  /** The completed and the pending view together hold every todo exactly
      once. */
  lemma {:induction false} FilterPartition(s: seq<Todo>)
    ensures multiset(FilterByCompletion(s, true)) + multiset(FilterByCompletion(s, false)) == multiset(s)
    ensures |FilterByCompletion(s, true)| + |FilterByCompletion(s, false)| == |s|
  {
    if |s| > 0 {
      FilterPartition(s[1..]);
      assert s == [s[0]] + s[1..];
    }
  }

  /** Positions in `s[1..]` moved to the same elements' positions in `s`. */
  function Shift(idx: seq<int>): (r: seq<int>)
    ensures |r| == |idx|
    ensures forall i :: 0 <= i < |idx| ==> r[i] == idx[i] + 1
  {
    seq(|idx|, i requires 0 <= i < |idx| => idx[i] + 1)
  }

  lemma ShiftEmbeds(a: seq<Todo>, s: seq<Todo>, idx: seq<int>)
    requires |s| > 0 && EmbedsAt(a, s[1..], idx)
    ensures EmbedsAt(a, s, Shift(idx))
    ensures forall i :: 0 <= i < |idx| ==> Shift(idx)[i] > 0
  {
    forall i | 0 <= i < |idx|
      ensures 0 <= Shift(idx)[i] < |s| && a[i] == s[Shift(idx)[i]]
    {
      assert s[1..][idx[i]] == s[idx[i] + 1];
    }
  }

  lemma ConsEmbeds(a: seq<Todo>, s: seq<Todo>, idx: seq<int>)
    requires |s| > 0 && EmbedsAt(a, s, idx)
    requires forall i :: 0 <= i < |idx| ==> idx[i] > 0
    ensures EmbedsAt([s[0]] + a, s, [0] + idx)
  {
  }

  /** A view is the subsequence of the collection at the positions whose
      flag matches: it keeps the collection's order and misses none. */
  lemma {:induction false} FilterPreservesOrder(s: seq<Todo>, flag: bool) returns (idx: seq<int>)
    ensures EmbedsAt(FilterByCompletion(s, flag), s, idx)
    ensures forall k :: 0 <= k < |s| && s[k].completed == flag ==> k in idx
  {
    if |s| == 0 {
      idx := [];
    } else {
      var rest := FilterPreservesOrder(s[1..], flag);
      var tail := FilterByCompletion(s[1..], flag);
      ShiftEmbeds(tail, s, rest);
      var shifted := Shift(rest);
      if s[0].completed == flag {
        ConsEmbeds(tail, s, shifted);
        idx := [0] + shifted;
      } else {
        idx := shifted;
      }
      forall k | 0 < k < |s| && s[k].completed == flag
        ensures k in shifted
      {
        assert s[1..][k - 1] == s[k];
        var i :| 0 <= i < |rest| && rest[i] == k - 1;
        assert shifted[i] == k;
      }
    }
  }

  // ---------------------------------------------------------------------
  // Ids

  /** Creates alone number the collection by position. */
  lemma CreateKeepsNumbering(s: seq<Todo>, rawId: Option<int>, task: string, image: string)
    requires NumberedByPosition(s) && IsNewItem(rawId)
    ensures NumberedByPosition(Save(s, rawId, task, image).todos)
  {
    SaveCreatesAtEnd(s, rawId, task, image);
  }

  /** Ids are not unique: in a collection built by creates, removing any
      record but the last and then creating reuses the last record's id. */
  lemma {:induction false} RemoveThenCreateDuplicatesId(s: seq<Todo>, k: int, task: string, image: string)
    requires NumberedByPosition(s) && 0 <= k < |s| - 1
    ensures HasDuplicateIds(Save(Removed(s, k), None, task, image).todos)
  {
    assert s[k].id == k;
    RemoveFirstMatch(s, k, k);
    var rest := Removed(s, k);
    SaveCreatesAtEnd(rest, None, task, image);
    var t := Save(rest, None, task, image).todos;
    var n := |s|;
    assert rest[n - 2] == s[n - 1];
    assert t[n - 2] == rest[n - 2];
    assert t[n - 2].id == n - 1 == t[n - 1].id;
  }
}
