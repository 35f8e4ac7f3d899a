/** The list mutations of nostr-todo's command handlers, written as the loops
    the handlers run and proved against the specification functions and
    predicates of TodoList. The handlers change their loaded slice in place; here that slice
    is an array wherever a handler assigns to its elements. */
module TodoOps {
  import opened TodoList

  /** `TodoList.Sort`: reorder the tasks in place by creation time. Only
      sortedness and permutation are promised, as `sort.Slice` is not stable. */
  method Sort(a: array<Todo>)
    modifies a
    ensures SortedByCreatedAt(a[..])
    ensures multiset(a[..]) == multiset(old(a[..]))
  {
    var i := 0;
    while i < a.Length
      invariant 0 <= i <= a.Length
      invariant forall p, q :: 0 <= p < q < i ==> a[p].createdAt <= a[q].createdAt
      invariant multiset(a[..]) == multiset(old(a[..]))
    {
      Insert(a, i);
      i := i + 1;
    }
  }

  /** One step of the sort: move a[i] down into the sorted prefix a[..i]. */
  method Insert(a: array<Todo>, i: int)
    requires 0 <= i < a.Length
    requires forall p, q :: 0 <= p < q < i ==> a[p].createdAt <= a[q].createdAt
    modifies a
    ensures forall p, q :: 0 <= p < q <= i ==> a[p].createdAt <= a[q].createdAt
    ensures multiset(a[..]) == multiset(old(a[..]))
  {
    var j := i;
    while 0 < j && a[j].createdAt < a[j - 1].createdAt
      invariant 0 <= j <= i
      invariant forall p, q :: 0 <= p < q <= i && p != j && q != j ==> a[p].createdAt <= a[q].createdAt
      invariant forall q :: j < q <= i ==> a[j].createdAt <= a[q].createdAt
      invariant multiset(a[..]) == multiset(old(a[..]))
    {
      Swap(a, j - 1, j);
      j := j - 1;
    }
  }

  /** Exchange two tasks. */
  method Swap(a: array<Todo>, i: int, j: int)
    requires 0 <= i < j < a.Length
    modifies a
    ensures a[i] == old(a[j]) && a[j] == old(a[i])
    ensures forall p :: 0 <= p < a.Length && p != i && p != j ==> a[p] == old(a[p])
    ensures multiset(a[..]) == multiset(old(a[..]))
  {
    a[i], a[j] := a[j], a[i];
  }

  /** doNew after the load: append the task with the caller's ID, content and
      timestamp, not done, then sort. */
  method AddTask(list: seq<Todo>, id: string, content: string, now: int) returns (r: seq<Todo>)
    ensures IsAdded(list, Todo(id, content, false, now), r)
  {
    var appended := list + [Todo(id, content, false, now)];
    var a := new Todo[|appended|](i requires 0 <= i < |appended| => appended[i]);
    assert a[..] == appended;
    Sort(a);
    r := a[..];
  }

  /** The loop pair shared by doDone and doUndone: for each argument, set
      `Done` to `value` on every task with that ID. */
  method SetDone(a: array<Todo>, ids: seq<string>, value: bool)
    modifies a
    ensures a[..] == Marked(old(a[..]), ids, value)
  {
    ghost var orig := a[..];
    var k := 0;
    while k < |ids|
      invariant 0 <= k <= |ids|
      invariant a[..] == Marked(orig, ids[..k], value)
    {
      MarkedStep(orig, ids[..k], ids[k], value);
      assert ids[..k + 1] == ids[..k] + [ids[k]];
      SetDoneFor(a, ids[k], value);
      k := k + 1;
    }
    assert ids[..k] == ids;
  }

  /** The inner loop of doDone and doUndone, for one argument. */
  method SetDoneFor(a: array<Todo>, id: string, value: bool)
    modifies a
    ensures a[..] == Marked(old(a[..]), [id], value)
  {
    ghost var target := Marked(a[..], [id], value);
    var i := 0;
    while i < a.Length
      invariant 0 <= i <= a.Length
      invariant forall p :: 0 <= p < i ==> a[p] == target[p]
      invariant forall p :: i <= p < a.Length ==> a[p] == old(a[p])
    {
      if a[i].id == id {
        a[i] := a[i].(done := value);
      }
      i := i + 1;
    }
  }

  /** doDone: mark the tasks with the given IDs done. */
  method MarkDone(a: array<Todo>, ids: seq<string>)
    modifies a
    ensures a[..] == Marked(old(a[..]), ids, true)
  {
    SetDone(a, ids, true);
  }

  /** doUndone: mark the tasks with the given IDs not done. */
  method MarkUndone(a: array<Todo>, ids: seq<string>)
    modifies a
    ensures a[..] == Marked(old(a[..]), ids, false)
  {
    SetDone(a, ids, false);
  }

  /** doEdit's loop: give every task whose ID is `id` the new content. The
      command as written always passes "" (`Commands.UndeclaredFlag`). */
  method Edit(a: array<Todo>, id: string, content: string)
    modifies a
    ensures a[..] == Edited(old(a[..]), id, content)
  {
    ghost var target := Edited(a[..], id, content);
    var i := 0;
    while i < a.Length
      invariant 0 <= i <= a.Length
      invariant forall p :: 0 <= p < i ==> a[p] == target[p]
      invariant forall p :: i <= p < a.Length ==> a[p] == old(a[p])
    {
      if a[i].id == id {
        a[i] := a[i].(content := content);
      }
      i := i + 1;
    }
  }

  /** doDelete: one `slices.DeleteFunc` sweep per argument, each dropping the
      tasks whose ID is empty or equals that argument. */
  method Delete(list: seq<Todo>, args: seq<string>) returns (r: seq<Todo>)
    ensures r == Deleted(list, args)
  {
    r := list;
    var k := 0;
    while k < |args|
      invariant 0 <= k <= |args|
      invariant r == Deleted(list, args[..k])
    {
      if k == 0 {
        SweptIsRemaining(list, args[0]);
        assert args[..1] == [args[0]];
      } else {
        SweptRemaining(list, args[..k], args[k]);
        assert args[..k + 1] == args[..k] + [args[k]];
      }
      r := Swept(r, args[k]);
      k := k + 1;
    }
    assert args[..k] == args;
  }

  /** doList's printing loop: the tasks it prints, in order. */
  method ListVisible(list: seq<Todo>, showAll: bool) returns (shown: seq<Todo>)
    ensures shown == Visible(list, showAll)
  {
    shown := [];
    var i := 0;
    while i < |list|
      invariant 0 <= i <= |list|
      invariant shown == Visible(list[..i], showAll)
    {
      VisibleAppend(list[..i], list[i], showAll);
      assert list[..i + 1] == list[..i] + [list[i]];
      if list[i].done && !showAll {
        i := i + 1;
        continue;
      }
      shown := shown + [list[i]];
      i := i + 1;
    }
    assert list[..i] == list;
  }
}
