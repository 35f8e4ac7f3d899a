/** The task list of nostr-todo as values: the Todo record, the namespace key
    of a list, and the specification functions that the imperative operations
    in TodoOps are proved against, with the properties the program relies on. */
module TodoList {

  datatype Option<T> = None | Some(value: T)

  /** One task (main.go `Todo`). `createdAt` is a Unix timestamp in seconds;
      an int64 in the source, unbounded here (it is only compared). */
  datatype Todo = Todo(id: string, content: string, done: bool, createdAt: int)

  /** The program name, which is also the namespace key of the unnamed list. */
  const AppName: string := "nostr-todo"

  /** The `d` tag that addresses the list called `name` on the relays. */
  function TagName(name: string): (key: string)
    ensures |AppName| <= |key| && key[..|AppName|] == AppName
    ensures key == AppName <==> name == ""
    ensures name != "" ==> key[|AppName|] == '-' && key[|AppName| + 1..] == name
  {
    if name == "" then AppName else AppName + "-" + name
  }

  /** The list name a namespace key belongs to, if it is one of ours. */
  function ListName(key: string): (name: Option<string>)
  {
    if key == AppName then Some("")
    else if |key| > |AppName| + 1 && key[..|AppName| + 1] == AppName + "-" then Some(key[|AppName| + 1..])
    else None
  }

  /** ListName recovers the name from its key ... */
  lemma TagNameRoundTrip(name: string)
    ensures ListName(TagName(name)) == Some(name)
  {
  }

  /** ... and every key it accepts is the key of the name it returns. */
  lemma ListNameRoundTrip(key: string)
    ensures ListName(key).Some? ==> TagName(ListName(key).value) == key
  {
  }

  /** Two different list names never share a namespace key. */
  lemma TagNameInjective(a: string, b: string)
    requires TagName(a) == TagName(b)
    ensures a == b
  {
  }

  /** Non-decreasing by creation time: the order `TodoList.Sort` establishes. */
  predicate SortedByCreatedAt(list: seq<Todo>)
  {
    forall i, j :: 0 <= i < j < |list| ==> list[i].createdAt <= list[j].createdAt
  }

  /** No two tasks share an ID. */
  predicate UniqueIds(list: seq<Todo>)
  {
    forall i, j :: 0 <= i < j < |list| ==> list[i].id != list[j].id
  }

  /** `id` is used by no task of `list`. */
  predicate FreshId(list: seq<Todo>, id: string)
  {
    forall t :: t in list ==> t.id != id
  }

  // ---------------------------------------------------------------------------
  // New: append a task, then sort (doNew)
  // ---------------------------------------------------------------------------

  /** `r` is what doNew may hand to Save: the old tasks plus `t`, sorted by
      creation time. `sort.Slice` is not stable, so the order of tasks with
      equal timestamps is not fixed, and this is a relation, not a function. */
  predicate IsAdded(list: seq<Todo>, t: Todo, r: seq<Todo>)
  {
    SortedByCreatedAt(r) && multiset(r) == multiset(list + [t])
  }

  /** What adding a task promises: one more task, the new one among them,
      every prior task still present unchanged, and nothing else. */
  lemma AddedContents(list: seq<Todo>, t: Todo, r: seq<Todo>)
    requires IsAdded(list, t, r)
    ensures |r| == |list| + 1
    ensures t in r
    ensures forall u :: u in list ==> u in r
    ensures forall u :: u in r ==> u in list || u == t
    ensures multiset(r)[t] == multiset(list)[t] + 1
  {
    assert |multiset(r)| == |multiset(list + [t])|;
    assert t in multiset(list + [t]);
    forall u | u in list ensures u in r {
      assert u in multiset(list + [t]);
    }
    forall u | u in r ensures u in list || u == t {
      assert u in multiset(r);
    }
  }

  /** Adding to an empty list (a first use, after a not-found load) yields
      exactly the new task. */
  lemma AddedToEmpty(t: Todo, r: seq<Todo>)
    requires IsAdded([], t, r)
    ensures r == [t]
  {
    AddedContents([], t, r);
    assert r[0] in r;
  }

  /** In a list with unique IDs no task occurs twice. */
  lemma {:induction false} UniqueIdsSingle(s: seq<Todo>)
    requires UniqueIds(s)
    ensures forall x :: multiset(s)[x] <= 1
  {
    if s != [] {
      assert UniqueIds(s[1..]);
      UniqueIdsSingle(s[1..]);
      assert s == [s[0]] + s[1..];
      forall k | 0 <= k < |s[1..]| ensures s[1..][k] != s[0] {
        assert s[1..][k] == s[k + 1];
      }
      assert s[0] !in s[1..];
    }
  }

  /** In a list with unique IDs, tasks with the same ID are the same task. */
  lemma UniqueIdsMembers(s: seq<Todo>)
    requires UniqueIds(s)
    ensures forall u, v :: u in s && v in s && u.id == v.id ==> u == v
  {
  }

  /** An element that occurs at most once is at one position only. */
  lemma DistinctWhenSingle(s: seq<Todo>, i: int, j: int)
    requires 0 <= i < j < |s| && multiset(s)[s[i]] <= 1
    ensures s[i] != s[j]
  {
    assert s == s[..j] + s[j..];
    assert s[i] in s[..j];
    assert s[j] in s[j..];
    assert multiset(s) == multiset(s[..j]) + multiset(s[j..]);
  }

  /** Given a fresh ID (the caller's UUID), adding keeps IDs unique. */
  lemma AddedKeepsUniqueIds(list: seq<Todo>, t: Todo, r: seq<Todo>)
    requires IsAdded(list, t, r)
    requires UniqueIds(list) && FreshId(list, t.id)
    ensures UniqueIds(r)
  {
    AddedContents(list, t, r);
    UniqueIdsMembers(list);
    UniqueIdsSingle(list);
    assert t !in list;
    assert multiset(r) == multiset(list) + multiset{t};
    forall i, j | 0 <= i < j < |r| ensures r[i].id != r[j].id {
      assert r[i] in r && r[j] in r;
      DistinctWhenSingle(r, i, j);
    }
  }

  // ---------------------------------------------------------------------------
  // Done / undone (doDone, doUndone)
  // ---------------------------------------------------------------------------

  /** Each task whose ID is one of `ids` gets `done` set to `value`. */
  function Marked(list: seq<Todo>, ids: seq<string>, value: bool): (r: seq<Todo>)
    ensures |r| == |list|
    ensures forall i :: 0 <= i < |list| ==>
      && r[i].id == list[i].id && r[i].content == list[i].content
      && r[i].createdAt == list[i].createdAt
      && r[i].done == (if list[i].id in ids then value else list[i].done)
  {
    if list == [] then []
    else
      var t := list[0];
      [if t.id in ids then t.(done := value) else t] + Marked(list[1..], ids, value)
  }

  /** Marking for one more ID is marking the result again for that ID. */
  lemma MarkedStep(list: seq<Todo>, ids: seq<string>, id: string, value: bool)
    ensures Marked(list, ids + [id], value) == Marked(Marked(list, ids, value), [id], value)
  {
  }

  /** Marking twice with the same IDs: the second call wins, so marking is
      idempotent and undone-after-done equals undone. */
  lemma MarkedLastWins(list: seq<Todo>, ids: seq<string>, first: bool, second: bool)
    ensures Marked(Marked(list, ids, first), ids, second) == Marked(list, ids, second)
  {
  }

  /** IDs that match no task are a silent no-op. */
  lemma MarkedUnmatched(list: seq<Todo>, ids: seq<string>, value: bool)
    requires forall t :: t in list ==> t.id !in ids
    ensures Marked(list, ids, value) == list
  {
  }

  /** Marking keeps the order and the IDs. */
  lemma MarkedKeepsInvariants(list: seq<Todo>, ids: seq<string>, value: bool)
    ensures SortedByCreatedAt(list) ==> SortedByCreatedAt(Marked(list, ids, value))
    ensures UniqueIds(list) ==> UniqueIds(Marked(list, ids, value))
  {
  }

  // ---------------------------------------------------------------------------
  // Edit (doEdit)
  // ---------------------------------------------------------------------------

  /** Every task whose ID equals `id` (all duplicates) gets `content`. */
  function Edited(list: seq<Todo>, id: string, content: string): (r: seq<Todo>)
    ensures |r| == |list|
    ensures forall i :: 0 <= i < |list| ==>
      && r[i].id == list[i].id && r[i].done == list[i].done
      && r[i].createdAt == list[i].createdAt
      && r[i].content == (if list[i].id == id then content else list[i].content)
  {
    if list == [] then []
    else
      var t := list[0];
      [if t.id == id then t.(content := content) else t] + Edited(list[1..], id, content)
  }

  /** An ID that matches no task leaves the list identical. */
  lemma EditedUnmatched(list: seq<Todo>, id: string, content: string)
    requires FreshId(list, id)
    ensures Edited(list, id, content) == list
  {
  }

  /** Editing twice with the same arguments is editing once. */
  lemma EditedIdempotent(list: seq<Todo>, id: string, content: string)
    ensures Edited(Edited(list, id, content), id, content) == Edited(list, id, content)
  {
  }

  /** Editing keeps the order and the IDs. */
  lemma EditedKeepsInvariants(list: seq<Todo>, id: string, content: string)
    ensures SortedByCreatedAt(list) ==> SortedByCreatedAt(Edited(list, id, content))
    ensures UniqueIds(list) ==> UniqueIds(Edited(list, id, content))
  {
  }

  // ---------------------------------------------------------------------------
  // Delete (doDelete)
  // ---------------------------------------------------------------------------

  /** One `slices.DeleteFunc` pass of doDelete: drop the tasks whose ID is
      empty or equals `arg`, keep the others in order. */
  function Swept(list: seq<Todo>, arg: string): (r: seq<Todo>)
    ensures forall t :: t in r <==> t in list && t.id != "" && t.id != arg
  {
    if list == [] then []
    else (if list[0].id == "" || list[0].id == arg then [] else [list[0]]) + Swept(list[1..], arg)
  }

  /** `t` survives a delete of `args`. */
  predicate Survives(t: Todo, args: seq<string>)
  {
    t.id != "" && t.id !in args
  }

  /** The tasks a delete of `args` keeps, in their original order. */
  function Remaining(list: seq<Todo>, args: seq<string>): (r: seq<Todo>)
    ensures forall t :: t in r <==> t in list && Survives(t, args)
  {
    if list == [] then []
    else (if Survives(list[0], args) then [list[0]] else []) + Remaining(list[1..], args)
  }

  /** doDelete as a whole: one sweep per argument. With no argument the loop
      does not run and the empty-ID sweep does not happen. */
  function Deleted(list: seq<Todo>, args: seq<string>): seq<Todo>
  {
    if args == [] then list else Remaining(list, args)
  }

  /** A delete keeps every copy of a surviving task and no copy of any other:
      duplicates are neither merged nor dropped. */
  lemma {:induction false} RemainingCounts(list: seq<Todo>, args: seq<string>)
    ensures forall t :: multiset(Remaining(list, args))[t] == if Survives(t, args) then multiset(list)[t] else 0
  {
    if list != [] {
      RemainingCounts(list[1..], args);
      assert list == [list[0]] + list[1..];
    }
  }

  /** One more sweep extends the set of deleted IDs by its argument. */
  lemma {:induction false} SweptRemaining(list: seq<Todo>, args: seq<string>, arg: string)
    ensures Swept(Remaining(list, args), arg) == Remaining(list, args + [arg])
  {
    if list != [] {
      SweptRemaining(list[1..], args, arg);
      var t, rest := list[0], Remaining(list[1..], args);
      assert Survives(t, args + [arg]) == (Survives(t, args) && t.id != arg);
      if Survives(t, args) {
        assert Remaining(list, args) == [t] + rest;
        assert ([t] + rest)[1..] == rest;
      } else {
        assert Remaining(list, args) == rest;
      }
    }
  }

  /** The first sweep alone is the delete of a single argument. */
  lemma {:induction false} SweptIsRemaining(list: seq<Todo>, arg: string)
    ensures Swept(list, arg) == Remaining(list, [arg])
  {
    if list != [] {
      SweptIsRemaining(list[1..], arg);
    }
  }

  /** `r` is `s` with some elements left out, the others kept in order. */
  ghost predicate IsSubsequence(r: seq<Todo>, s: seq<Todo>)
    decreases |s|
  {
    if r == [] then true
    else if s == [] then false
    else (r[0] == s[0] && IsSubsequence(r[1..], s[1..])) || IsSubsequence(r, s[1..])
  }

  /** Deleting keeps the surviving tasks in their original relative order. */
  lemma {:induction false} RemainingInOrder(list: seq<Todo>, args: seq<string>)
    ensures IsSubsequence(Remaining(list, args), list)
  {
    if list != [] {
      RemainingInOrder(list[1..], args);
      var rest := Remaining(list[1..], args);
      if Survives(list[0], args) {
        assert Remaining(list, args) == [list[0]] + rest;
        assert ([list[0]] + rest)[1..] == rest;
      } else {
        assert Remaining(list, args) == rest;
      }
    }
  }

  /** Deleting twice with the same arguments is deleting once. */
  lemma {:induction false} RemainingIdempotent(list: seq<Todo>, args: seq<string>)
    ensures Remaining(Remaining(list, args), args) == Remaining(list, args)
  {
    if list != [] {
      RemainingIdempotent(list[1..], args);
      var t, rest := list[0], Remaining(list[1..], args);
      if Survives(t, args) {
        assert Remaining(list, args) == [t] + rest;
        assert ([t] + rest)[1..] == rest;
      } else {
        assert Remaining(list, args) == rest;
      }
    }
  }

  /** Every delete with at least one argument removes every empty-ID task,
      whatever the arguments are, and applying it twice is applying it once. */
  lemma DeletedSweepsEmptyIds(list: seq<Todo>, args: seq<string>)
    requires args != []
    ensures forall t :: t in Deleted(list, args) ==> t.id != ""
    ensures Deleted(Deleted(list, args), args) == Deleted(list, args)
  {
    RemainingIdempotent(list, args);
  }

  /** Deleting keeps the order by creation time. */
  lemma {:induction false} RemainingSorted(list: seq<Todo>, args: seq<string>)
    requires SortedByCreatedAt(list)
    ensures SortedByCreatedAt(Remaining(list, args))
  {
    if list != [] {
      assert SortedByCreatedAt(list[1..]);
      RemainingSorted(list[1..], args);
      var rest := Remaining(list[1..], args);
      forall u | u in rest ensures list[0].createdAt <= u.createdAt {
        var k :| 0 <= k < |list[1..]| && list[1..][k] == u;
        assert list[k + 1] == u;
      }
    }
  }

  /** Deleting keeps IDs unique. */
  lemma {:induction false} RemainingUniqueIds(list: seq<Todo>, args: seq<string>)
    requires UniqueIds(list)
    ensures UniqueIds(Remaining(list, args))
  {
    if list != [] {
      assert UniqueIds(list[1..]);
      RemainingUniqueIds(list[1..], args);
      var t, rest := list[0], Remaining(list[1..], args);
      if Survives(t, args) {
        forall u | u in rest ensures u.id != t.id {
          var k :| 0 <= k < |list[1..]| && list[1..][k] == u;
          assert list[k + 1] == u;
        }
        var r := [t] + rest;
        forall i, j | 0 <= i < j < |r| ensures r[i].id != r[j].id {
          assert r[j] == rest[j - 1] && r[j] in rest;
          if i > 0 {
            assert r[i] == rest[i - 1];
          }
        }
      }
    }
  }

  // ---------------------------------------------------------------------------
  // Listing (doList)
  // ---------------------------------------------------------------------------

  /** The tasks doList prints: the open ones, or all of them with `-a`. */
  function Visible(list: seq<Todo>, showAll: bool): (r: seq<Todo>)
    ensures forall t :: t in r <==> t in list && (showAll || !t.done)
  {
    if list == [] then []
    else (if list[0].done && !showAll then [] else [list[0]]) + Visible(list[1..], showAll)
  }

  /** doList prints every copy of a shown task and no copy of a hidden one. */
  lemma {:induction false} VisibleCounts(list: seq<Todo>, showAll: bool)
    ensures forall t :: multiset(Visible(list, showAll))[t] == if showAll || !t.done then multiset(list)[t] else 0
  {
    if list != [] {
      VisibleCounts(list[1..], showAll);
      assert list == [list[0]] + list[1..];
    }
  }

  /** Listing one more task prints that task at the end, unless it is
      hidden. */
  lemma {:induction false} VisibleAppend(list: seq<Todo>, t: Todo, showAll: bool)
    ensures Visible(list + [t], showAll)
      == Visible(list, showAll) + (if t.done && !showAll then [] else [t])
  {
    if list == [] {
      assert [] + [t] == [t];
      assert [t][1..] == [];
    } else {
      assert (list + [t])[1..] == list[1..] + [t];
      VisibleAppend(list[1..], t, showAll);
    }
  }

  /** With `-a` every task is printed, in list order. */
  lemma {:induction false} VisibleAll(list: seq<Todo>)
    ensures Visible(list, true) == list
  {
    if list != [] {
      VisibleAll(list[1..]);
      assert list == [list[0]] + list[1..];
    }
  }

  /** Without `-a` the open tasks are printed in list order. */
  lemma {:induction false} VisibleInOrder(list: seq<Todo>, showAll: bool)
    ensures IsSubsequence(Visible(list, showAll), list)
  {
    if list != [] {
      VisibleInOrder(list[1..], showAll);
      var rest := Visible(list[1..], showAll);
      if list[0].done && !showAll {
        assert Visible(list, showAll) == rest;
      } else {
        assert Visible(list, showAll) == [list[0]] + rest;
        assert ([list[0]] + rest)[1..] == rest;
      }
    }
  }
}
