/**
  The to-do records the client holds and the pure list updaters its
  handlers hand to the state setter: append after a create, flip and
  rollback of `completed` in a toggle, the filter after a delete, and the
  lookup of the item a toggle sends. Every updater keeps the order of the
  list; items are matched by their server-assigned ID with `===`.
 */
module TodoList {
  import opened Wrappers

  /** One record as the server returns it: `ID`, `title`, `completed`. */
  datatype Todo = Todo(id: int, title: string, completed: bool)

  /** Some item of `s` carries the ID `id`. */
  predicate HasId(s: seq<Todo>, id: int) {
    exists i :: 0 <= i < |s| && s[i].id == id
  }

  /** No two items of `s` share an ID (what the server's primary key gives). */
  predicate UniqueIds(s: seq<Todo>) {
    forall i, j :: 0 <= i < j < |s| ==> s[i].id != s[j].id
  }

  /** `r` is `s` with some items left out and the rest in their original order. */
  predicate IsSubsequence(r: seq<Todo>, s: seq<Todo>)
    decreases |s|
  {
    r == [] || (s != [] && ((r[0] == s[0] && IsSubsequence(r[1..], s[1..])) || IsSubsequence(r, s[1..])))
  }

  /**
    `[...prevTodos, createdTodo]`: the list is one longer, every earlier item
    keeps its position and the new record is last.
   */
  function Append(s: seq<Todo>, t: Todo): (r: seq<Todo>)
    ensures |r| == |s| + 1 && r[..|s|] == s && r[|s|] == t
  {
    s + [t]
  }

  /**
    The optimistic update of a toggle: every item with ID `id` has its
    `completed` negated; positions, IDs and titles are kept and all other
    items are left exactly as they were.
   */
  function FlipById(s: seq<Todo>, id: int): (r: seq<Todo>)
    ensures |r| == |s|
    ensures forall i :: 0 <= i < |s| ==> r[i].id == s[i].id && r[i].title == s[i].title
    ensures forall i :: 0 <= i < |s| && s[i].id != id ==> r[i] == s[i]
    ensures forall i :: 0 <= i < |s| && s[i].id == id ==> r[i].completed == !s[i].completed
  {
    if s == [] then []
    else [if s[0].id == id then s[0].(completed := !s[0].completed) else s[0]] + FlipById(s[1..], id)
  }

  /**
    The rollback of a toggle: every item with ID `id` gets `completed := c`;
    positions, IDs and titles are kept and all other items are left as they were.
   */
  function SetCompletedById(s: seq<Todo>, id: int, c: bool): (r: seq<Todo>)
    ensures |r| == |s|
    ensures forall i :: 0 <= i < |s| ==> r[i].id == s[i].id && r[i].title == s[i].title
    ensures forall i :: 0 <= i < |s| && s[i].id != id ==> r[i] == s[i]
    ensures forall i :: 0 <= i < |s| && s[i].id == id ==> r[i].completed == c
  {
    if s == [] then []
    else [if s[0].id == id then s[0].(completed := c) else s[0]] + SetCompletedById(s[1..], id, c)
  }

  /**
    The local effect of a successful delete: exactly the items with ID `id`
    are dropped, every other item keeps its multiplicity, and the survivors
    keep their relative order.
   */
  function RemoveById(s: seq<Todo>, id: int): (r: seq<Todo>)
    ensures |r| <= |s|
    ensures !HasId(r, id)
    ensures forall t :: t in r <==> t in s && t.id != id
    ensures forall t :: multiset(r)[t] == if t.id == id then 0 else multiset(s)[t]
    ensures IsSubsequence(r, s)
  {
    if s == [] then []
    else
      var rest := RemoveById(s[1..], id);
      assert s == [s[0]] + s[1..];
      if s[0].id == id then rest else [s[0]] + rest
  }

  /**
    `todos.find((t) => t.ID === id)`: the first item with that ID, or
    nothing when no item has it.
   */
  function Find(s: seq<Todo>, id: int): (r: Option<Todo>)
    ensures r.None? <==> !HasId(s, id)
    ensures r.Some? ==> exists k :: 0 <= k < |s| && s[k] == r.value && IsFirstWithId(s, id, k)
  {
    if s == [] then None
    else if s[0].id == id then (assert IsFirstWithId(s, id, 0); Some(s[0]))
    else
      var r := Find(s[1..], id);
      if r.Some? then
        var k :| 0 <= k < |s[1..]| && s[1..][k] == r.value && IsFirstWithId(s[1..], id, k);
        assert s[k + 1] == r.value && IsFirstWithId(s, id, k + 1);
        r
      else
        r
  }

  /** Position `k` holds ID `id` and no earlier position does. */
  predicate IsFirstWithId(s: seq<Todo>, id: int, k: int) {
    0 <= k < |s| && s[k].id == id && forall j :: 0 <= j < k ==> s[j].id != id
  }

  /** Flipping the same ID twice gives the original list back. */
  lemma {:induction false} FlipTwice(s: seq<Todo>, id: int)
    ensures FlipById(FlipById(s, id), id) == s
  {
    if s != [] {
      FlipTwice(s[1..], id);
      assert FlipById(s, id)[1..] == FlipById(s[1..], id);
    }
  }

  /** A flip of an ID that the list holds always changes the list: the flip is visible. */
  lemma FlipChanges(s: seq<Todo>, id: int)
    requires HasId(s, id)
    ensures FlipById(s, id) != s
  {
    var i :| 0 <= i < |s| && s[i].id == id;
    assert FlipById(s, id)[i].completed != s[i].completed;
  }

  /**
    Setting `completed` back to `c` undoes the flip, provided every item
    carrying that ID had `completed == c` before the flip.
   */
  lemma {:induction false} RollbackUndoesFlip(s: seq<Todo>, id: int, c: bool)
    requires forall i :: 0 <= i < |s| && s[i].id == id ==> s[i].completed == c
    ensures SetCompletedById(FlipById(s, id), id, c) == s
  {
    if s != [] {
      RollbackUndoesFlip(s[1..], id, c);
      assert FlipById(s, id)[1..] == FlipById(s[1..], id);
      assert SetCompletedById(FlipById(s, id), id, c)[1..] == SetCompletedById(FlipById(s[1..], id), id, c);
    }
  }

  /**
    With unique IDs, rolling back to the value the list's own `find` saw
    restores the list exactly.
   */
  lemma RollbackRestores(s: seq<Todo>, id: int)
    requires UniqueIds(s) && HasId(s, id)
    ensures SetCompletedById(FlipById(s, id), id, Find(s, id).value.completed) == s
  {
    var t := Find(s, id).value;
    var k :| 0 <= k < |s| && s[k] == t && IsFirstWithId(s, id, k);
    RollbackUndoesFlip(s, id, t.completed);
  }

  /** Without unique IDs the rollback need not restore the list. */
  lemma RollbackNeedsUniqueIds()
    ensures var s := [Todo(1, "a", false), Todo(1, "b", true)];
            SetCompletedById(FlipById(s, 1), 1, Find(s, 1).value.completed) != s
  {
    var s := [Todo(1, "a", false), Todo(1, "b", true)];
    assert Find(s, 1) == Some(Todo(1, "a", false));
    assert SetCompletedById(FlipById(s, 1), 1, false)[1] == Todo(1, "b", false);
  }

  /** Deleting an ID the list does not hold leaves it unchanged. */
  lemma {:induction false} RemoveAbsent(s: seq<Todo>, id: int)
    requires !HasId(s, id)
    ensures RemoveById(s, id) == s
  {
    if s != [] {
      RemoveAbsent(s[1..], id);
    }
  }

  /** Deleting the same ID a second time changes nothing. */
  lemma RemoveIdempotent(s: seq<Todo>, id: int)
    ensures RemoveById(RemoveById(s, id), id) == RemoveById(s, id)
  {
    RemoveAbsent(RemoveById(s, id), id);
  }

  /** A list with unique IDs keeps them unique through every updater. */
  lemma UpdatersKeepUniqueIds(s: seq<Todo>, id: int, c: bool)
    requires UniqueIds(s)
    ensures UniqueIds(FlipById(s, id))
    ensures UniqueIds(SetCompletedById(s, id, c))
    ensures UniqueIds(RemoveById(s, id))
  {
    SubsequenceKeepsUniqueIds(RemoveById(s, id), s);
  }

  /** Appending a record whose ID the list does not hold keeps the IDs unique. */
  lemma AppendKeepsUniqueIds(s: seq<Todo>, t: Todo)
    requires UniqueIds(s) && !HasId(s, t.id)
    ensures UniqueIds(Append(s, t))
  {
    var r := Append(s, t);
    forall i, j | 0 <= i < j < |r| ensures r[i].id != r[j].id {
      assert r[i] == r[..|s|][i];
      if j < |s| {
        assert r[j] == r[..|s|][j];
      }
    }
  }

  /** Leaving items out of a list with unique IDs keeps the IDs unique. */
  lemma {:induction false} SubsequenceKeepsUniqueIds(r: seq<Todo>, s: seq<Todo>)
    requires IsSubsequence(r, s) && UniqueIds(s)
    ensures UniqueIds(r)
    decreases |s|
  {
    if r != [] {
      assert UniqueIds(s[1..]) by {
        forall i, j | 0 <= i < j < |s[1..]| ensures s[1..][i].id != s[1..][j].id {
          assert s[1..][i] == s[i + 1] && s[1..][j] == s[j + 1];
        }
      }
      if r[0] == s[0] && IsSubsequence(r[1..], s[1..]) {
        SubsequenceKeepsUniqueIds(r[1..], s[1..]);
        SubsequenceMembers(r[1..], s[1..]);
        forall j | 0 < j < |r| ensures r[0].id != r[j].id {
          assert r[j] == r[1..][j - 1];
          var k :| 0 <= k < |s[1..]| && s[1..][k] == r[j];
          assert s[k + 1] == r[j];
        }
      } else {
        SubsequenceKeepsUniqueIds(r, s[1..]);
      }
    }
  }

  /** Every item of a subsequence is an item of the original list. */
  lemma {:induction false} SubsequenceMembers(r: seq<Todo>, s: seq<Todo>)
    requires IsSubsequence(r, s)
    ensures forall j :: 0 <= j < |r| ==> exists k :: 0 <= k < |s| && s[k] == r[j]
    decreases |s|
  {
    if r != [] {
      if r[0] == s[0] && IsSubsequence(r[1..], s[1..]) {
        SubsequenceMembers(r[1..], s[1..]);
        forall j | 0 < j < |r| ensures exists k :: 0 <= k < |s| && s[k] == r[j] {
          assert r[j] == r[1..][j - 1];
          var k :| 0 <= k < |s[1..]| && s[1..][k] == r[j];
          assert s[k + 1] == r[j];
        }
        assert s[0] == r[0];
      } else {
        SubsequenceMembers(r, s[1..]);
        forall j | 0 <= j < |r| ensures exists k :: 0 <= k < |s| && s[k] == r[j] {
          var k :| 0 <= k < |s[1..]| && s[1..][k] == r[j];
          assert s[k + 1] == r[j];
        }
      }
    }
  }
}
