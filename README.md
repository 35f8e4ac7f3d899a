# nostr-todo task-list core in Dafny

nostr-todo keeps one user's to-do list as a single application-specific-data
event (kind 30078) on a set of nostr relays. Every command loads the list,
changes it in memory once and saves a new event that replaces the old one.
This project models the in-memory part of `main.go`, which is deterministic
once the clock and the UUID generator are given as inputs. It covers:

- the namespace key (`tagName`), the `d` tag that tells one named list from
  another;
- `TodoList.Sort`, which sorts tasks in place by `CreatedAt`;
- the list mutations inside the command handlers: add-and-sort (`doNew`),
  mark done and undone (`doDone`, `doUndone`), edit (`doEdit`), delete with
  its empty-ID sweep (`doDelete`), and the visibility filter of `doList`;
- what `Load` returns, and the rule that only `doNew` continues after
  `ErrNotFound`;
- the error rule of `Save`, which reports success whatever each relay
  answers, and the relay default that `loadConfig` applies.

Layout:

- `todo_list.dfy`, module `TodoList`: the `Todo` record, `TagName` and its
  inverse, and one specification function per mutation (`Marked`,
  `Edited`, `Swept`/`Remaining`/`Deleted`, `Visible`, and the relation
  `IsAdded`). It also holds the lemmas about them.
- `todo_ops.dfy`, module `TodoOps`: the loops the handlers run. `Sort` is
  proved to leave the array sorted by `createdAt` and a permutation of its old
  contents. `AddTask` is proved to satisfy the relation `IsAdded`. The
  marking, edit, delete and listing loops are each proved equal to their
  specification function. Where a handler assigns to the elements of its
  slice (`Sort`, done/undone, edit), the method works in place on an `array`.
- `commands.dfy`, module `Commands`: the configuration, the load query and
  the saved record, `Load`, `Save`, and `Execute`. `Execute` models one
  handler from its argument guard up to the call of `Save`.

Points where the code behaves differently from what one might expect, and
which the model follows:

- `Load` does not sort what it fetches (main.go:123-137). Only `doNew` sorts,
  after appending, so a list stored out of order is listed out of order.
- A failure to decode the key (`nip19.Decode`) and a failure to derive the
  public key (`GetPublicKey`) are returned as separate errors
  (main.go:146-152), not as one invalid-credential error.
- The delete sweep of empty IDs runs once per argument. With no argument it
  would not run, but the handler shows help before it gets that far
  (`ShowsHelp`). `Deleted` still models the zero-argument case.
- `edit` declares only the `--name` flag (main.go:407-419), but doEdit reads
  `cmd.String("content")` (main.go:309). For an undeclared flag that read
  gives the empty string, so every edit blanks the content of the matching
  tasks. `Command.Edit` therefore carries no content, and `Execute` edits with
  `UndeclaredFlag` (""). See "## Findings".

## Model

| member | source | states |
|---|---|---|
| `TodoList.TagName` | main.go:101-107 | The key starts with "nostr-todo". It equals "nostr-todo" exactly when the name is empty. Otherwise "-" and then the name follow. |
| `TodoList.TagNameRoundTrip` | main.go:101-107 | `ListName` recovers every list name from its key. |
| `TodoList.ListNameRoundTrip` | main.go:101-107 | Every key that `ListName` accepts is the key of the name it returns. |
| `TodoList.TagNameInjective` | main.go:101-107 | Two lists with different names never share a key. |
| `TodoOps.Sort` | main.go:117-121 | After sorting, the array is non-decreasing by `createdAt` and is a permutation (multiset) of its old contents. Stability is not claimed. |
| `TodoOps.AddTask` | main.go:203-209 | Appending the task (given ID and content, not done, given timestamp) and sorting gives a sorted list whose multiset is the old one plus the new task. |
| `TodoList.AddedContents` | main.go:203-209 | An added-to list has exactly one more task. It contains the new task and every prior task unchanged, and nothing else. |
| `TodoList.AddedToEmpty` | main.go:198-209 | Adding to the empty list (after a not-found load) gives exactly the one new task. |
| `TodoList.AddedKeepsUniqueIds` | main.go:203-209 | If the old IDs are unique and the new ID is fresh, IDs stay unique after adding and sorting. |
| `TodoList.Marked` | main.go:257-264 | Length, `id`, `content` and `createdAt` stay the same. `done` becomes the given value exactly where the ID is among the arguments and is unchanged elsewhere. |
| `TodoOps.SetDone` | main.go:257-264 | The nested loop (each argument, then each task) leaves the array equal to `Marked` of its old contents. |
| `TodoOps.SetDoneFor` | main.go:258-263 | The inner loop for one argument sets `done` on exactly the tasks with that ID, as `Marked(…, [id], …)` says. |
| `TodoOps.MarkDone` | main.go:257-264 | doDone's loops set `done` to true as `Marked(…, true)` says. |
| `TodoOps.MarkUndone` | main.go:281-288 | doUndone's loops set `done` to false as `Marked(…, false)` says. |
| `TodoList.MarkedLastWins` | main.go:257-264 | Marking twice with the same IDs equals marking once with the second value. So marking is idempotent, and undone after done equals undone. |
| `TodoList.MarkedUnmatched` | main.go:257-264 | IDs that match no task leave the list identical, with no error. |
| `TodoList.MarkedKeepsInvariants` | main.go:281-288 | Marking keeps the list sorted by `createdAt` and keeps IDs unique. |
| `TodoList.EditedKeepsInvariants` | main.go:305-310 | Editing keeps the list sorted by `createdAt` and keeps IDs unique. |
| `TodoList.Edited` | main.go:305-310 | Every task whose ID equals the argument, duplicates included, gets the new content. Length, `id`, `done` and `createdAt` stay the same. |
| `TodoOps.Edit` | main.go:305-310 | The edit loop leaves the array equal to `Edited` of its old contents. |
| `TodoList.EditedUnmatched` | main.go:305-310 | An ID that matches no task leaves the list identical. |
| `TodoList.EditedIdempotent` | main.go:305-310 | Editing twice with the same arguments equals editing once. |
| `TodoList.Swept` | main.go:329-331 | One `slices.DeleteFunc` pass keeps exactly the tasks whose ID is non-empty and differs from the argument. |
| `TodoList.Remaining` | main.go:328-332 | A task survives a delete exactly when it was in the list and its ID is non-empty and not among the arguments. |
| `TodoList.RemainingCounts` | main.go:328-332 | A delete keeps every copy of a surviving task, duplicates included, and no copy of any other task. |
| `TodoOps.Delete` | main.go:328-332 | The loop of one sweep per argument gives `Deleted(list, args)`: the list itself when there are no arguments, otherwise `Remaining(list, args)`. |
| `TodoList.SweptRemaining` | main.go:328-332 | Sweeping for one more argument after deleting some arguments equals deleting all of them. |
| `TodoList.SweptIsRemaining` | main.go:328-332 | The first sweep is the delete of its single argument. |
| `TodoList.RemainingInOrder` | main.go:328-332 | The surviving tasks are a subsequence of the list, so their relative order is kept. |
| `TodoList.RemainingIdempotent` | main.go:328-332 | Deleting twice with the same arguments equals deleting once. |
| `TodoList.DeletedSweepsEmptyIds` | main.go:328-332 | With at least one argument, no task with an empty ID survives, whatever the arguments. The delete is also idempotent. |
| `TodoList.RemainingSorted` | main.go:328-332 | Deleting keeps a list sorted by `createdAt`. |
| `TodoList.RemainingUniqueIds` | main.go:328-332 | Deleting keeps IDs unique. |
| `TodoList.Visible` | main.go:227-230 | A task is listed exactly when it is in the list and is not done, or when `-a` is given. |
| `TodoList.VisibleCounts` | main.go:227-230 | Every copy of a shown task is listed, duplicates included, and no copy of a hidden one. |
| `TodoOps.ListVisible` | main.go:227-241 | The listing loop prints exactly `Visible(list, showAll)`, in order. |
| `TodoList.VisibleAll` | main.go:227-230 | With `-a`, every task is listed in list order. |
| `TodoList.VisibleInOrder` | main.go:227-230 | Listed tasks keep their list order. |
| `Commands.WithDefaultRelays` | main.go:86-88 | After config parsing the relay list is never empty. An empty list becomes `["wss://yabu.me"]`, a non-empty one is kept, and the private key is unchanged. |
| `Commands.SavedFoundOnlyUnderItsName` | main.go:155-162 | The event saved for one list name matches the load filter (kind 30078, `d` tag, main.go:125-130) of that name and of no other. |
| `Commands.Load` | main.go:123-137 | No event gives `ErrNotFound`, and only that case does. An undecodable event is a different error. Otherwise the stored list comes back unsorted. |
| `Commands.Save` | main.go:139-189 | Save succeeds exactly when key decoding, public-key derivation and signing all succeed. Otherwise it reports the first of them that fails: `KeyDecodeFailed`, then `PublicKeyFailed`, then `SignFailed`. On success it sends one event, addressed by the list's key and holding the list, to every configured relay. |
| `Commands.SaveIgnoresRelayAnswers` | main.go:169-188 | Save's result does not depend on what any relay answered. Even when every relay fails, the save reports success. |
| `Commands.Starting` | main.go:198-202 | Only `new` turns `ErrNotFound` into the empty starting list. Every other load error, and `ErrNotFound` for every other command, is returned unchanged. |
| `Commands.Execute` | main.go:191-335 | A wrong argument count shows help. Otherwise the command loads, applies the not-found rule, and on error stops without saving. It then lists `Visible`, or calls Save with the `IsAdded`, `Marked`, `Edited` (with empty content) or `Deleted` list. After a not-found load, `new` saves exactly the new task and every other command fails with `ErrNotFound`. |
| `Commands.MarkDoneScenario` | main.go:257-264 | Marking A done in [A, B] gives [A done, B unchanged]. |
| `Commands.DeleteScenario` | main.go:328-332 | Deleting A from [A, B] where B's ID is empty leaves the empty list. |
| `Commands.EditBlanksContent` | main.go:305-310 | Editing a task through the `edit` command as written saves that task with empty content. |

## Findings

| source | as written | input that shows it | evidently intended | confidence | as-written member | corrected member |
|---|---|---|---|---|---|---|
| main.go:309 | doEdit sets the matching tasks' content to `cmd.String("content")`, but `edit` declares no `content` flag (main.go:407-419), so that read is always "" | `nostr-todo edit <id>` for an existing task saves it with empty content; `--content` is rejected as an undefined flag | `edit` declares a `content` flag, as `new` does (main.go:373-377), and the matching tasks get its value | high; not executed | `Commands.EditBlanksContent` | `TodoOps.Edit` |

## Left out

- Relay networking: `nostr.NewSimplePool`, `QuerySingle` (first answer wins), `RelayConnect`, `Publish` and the goroutine fan-out joined by a `sync.WaitGroup` (main.go:124-131, 169-187). What `QuerySingle` returns is an input (`Fetched`). Each relay's answer is an input that `Save` ignores. Concurrency is not modelled.
- JSON encoding and decoding (`MarshalJSON`, `UnmarshalJSON`, `json.Unmarshal` of the config). These are thin wrappers over `encoding/json`. A decode result is an input (`Fetched.decoded`), and the saved record holds the list itself rather than its JSON text. `json.Marshal` of a task list is treated as never failing.
- Key handling and signing: `nip19.Decode`, `nostr.GetPublicKey` and `Event.Sign` are foreign cryptographic calls. Their outcomes are inputs (`Credential`). Three things in them are not modelled: the `s.(string)` type assertion, which would panic on a key that decodes to a non-string; the `PubKey` field, left empty before signing; and the event's ID and signature.
- The UUID generator and both clocks (`time.Now().Unix()` in doNew, `nostr.Now()` in Save) are parameters. That the UUID is fresh is assumed, as the premise of `AddedKeepsUniqueIds`, and not proved.
- Config discovery and file reading (`configDir`, the profile file name, the `?` profile listing with its glob, printing and `os.Exit`, main.go:38-85). This is filesystem and OS input and output. Only the relay default is modelled.
- The CLI wiring, help output, coloured printing and time formatting (main.go:232-240, 337-469). `ListVisible` returns the rows it would print.
- `TodoOps.Sort`: the model sorts by insertion sort. `sort.Slice` is a different, unstable algorithm, so the order it gives to tasks with equal `CreatedAt` is not modelled. Every contract here holds for any such order.
- `TodoOps.Delete`: `slices.DeleteFunc` compacts the slice in place and clears its tail. The model computes each pass as a new sequence value, so aliasing of the old backing array is not captured.
- `CreatedAt` is an `int64` in the source and an unbounded `int` here. It is only compared, so wrap-around does not matter.
- That IDs are unique within a stored list is not enforced by the source, because `Load` accepts any list. The model proves that adding, marking, editing and deleting keep the property, and does not assume it.
