/** What surrounds the list mutations in nostr-todo: relay defaulting of the
    configuration, how a list is addressed on the relays, the outcome of a
    load, the error rule of a save, and the command handlers that tie a load,
    one mutation and a save together. Relays, keys, the clock and the UUID
    generator are parameters. */
module Commands {
  import opened TodoList
  import TodoOps

  /** The errors a handler can return. */
  datatype Error =
    | NotFound          // `ErrNotFound`: no relay returned the list's event
    | Malformed         // the event's content did not decode as a task list
    | KeyDecodeFailed   // `nip19.Decode` rejected the configured private key
    | PublicKeyFailed   // `nostr.GetPublicKey` rejected the decoded key
    | SignFailed        // `Event.Sign` failed

  datatype Result<T> = Ok(value: T) | Err(error: Error)

  // ---------------------------------------------------------------------------
  // Configuration
  // ---------------------------------------------------------------------------

  /** The parsed configuration file (main.go `Config`). */
  datatype Config = Config(relays: seq<string>, privateKey: string)

  const DefaultRelay: string := "wss://yabu.me"

  /** The last step of `loadConfig`: a configuration without relays gets the
      default relay, so every command has somewhere to load from and save to. */
  function WithDefaultRelays(cfg: Config): (r: Config)
    ensures r.relays != []
    ensures r.privateKey == cfg.privateKey
    ensures cfg.relays != [] ==> r == cfg
    ensures cfg.relays == [] ==> r.relays == [DefaultRelay]
  {
    if |cfg.relays| == 0 then cfg.(relays := [DefaultRelay]) else cfg
  }

  // ---------------------------------------------------------------------------
  // Addressing a list on the relays
  // ---------------------------------------------------------------------------

  /** The event kind for application-specific data (`nostr.KindApplicationSpecificData`). */
  const KindApplicationSpecificData: int := 30078

  /** A relay filter: the accepted kinds and the accepted values of the `d` tag. */
  datatype Query = Query(kinds: seq<int>, dTags: seq<string>)

  /** An unsigned event as Save builds it. The content is the task list itself:
      its JSON encoding is not part of this model. */
  datatype Record = Record(kind: int, content: seq<Todo>, createdAt: int, tags: seq<(string, string)>)

  /** The filter `Load` sends for the list called `name`. */
  function LoadQuery(name: string): Query
  {
    Query([KindApplicationSpecificData], [TagName(name)])
  }

  /** The event `Save` builds for the list called `name` at time `now`. */
  function SaveRecord(list: seq<Todo>, name: string, now: int): Record
  {
    Record(KindApplicationSpecificData, list, now, [("d", TagName(name))])
  }

  /** A relay returns `rec` for `q`: its kind is accepted and one of its `d`
      tags has an accepted value. */
  predicate Matches(q: Query, rec: Record)
  {
    rec.kind in q.kinds && exists tag :: tag in rec.tags && tag.0 == "d" && tag.1 in q.dTags
  }

  /** A list saved under one name is found by the load of that name and of no
      other name: lists never overwrite or shadow each other. */
  lemma SavedFoundOnlyUnderItsName(list: seq<Todo>, saved: string, loaded: string, now: int)
    ensures Matches(LoadQuery(loaded), SaveRecord(list, saved, now)) <==> saved == loaded
  {
  }

  // ---------------------------------------------------------------------------
  // Load and Save
  // ---------------------------------------------------------------------------

  /** What `pool.QuerySingle` came back with: no event, or an event whose
      content decoded to a task list (Some) or did not (None). */
  datatype Fetched = NoEvent | Event(decoded: Option<seq<Todo>>)

  /** `TodoList.Load`: no event is `ErrNotFound`, an undecodable content is an
      error of its own, otherwise the list as stored (not re-sorted). */
  function Load(f: Fetched): (r: Result<seq<Todo>>)
    ensures r == Err(NotFound) <==> f == NoEvent
    ensures r.Ok? <==> f.Event? && f.decoded.Some?
    ensures r.Ok? ==> r.value == f.decoded.value
  {
    match f
    case NoEvent => Err(NotFound)
    case Event(None) => Err(Malformed)
    case Event(Some(list)) => Ok(list)
  }

  /** How the three key operations of `TodoList.Save` turn out for the
      configured private key. */
  datatype Credential = Credential(decodes: bool, derivesPublicKey: bool, signs: bool)

  /** A signed record and the relays it is sent to, one attempt each. */
  datatype Dispatch = Dispatch(record: Record, relays: seq<string>)

  /** `TodoList.Save`: fail on the first key operation that fails, otherwise
      send the record to every configured relay and report success, whatever
      each relay answered (`accepted`, one entry per relay, is ignored). */
  function Save(list: seq<Todo>, cfg: Config, name: string, cred: Credential, now: int,
                accepted: seq<bool>): (r: Result<Dispatch>)
    ensures r.Ok? <==> cred.decodes && cred.derivesPublicKey && cred.signs
    ensures !cred.decodes ==> r == Err(KeyDecodeFailed)
    ensures cred.decodes && !cred.derivesPublicKey ==> r == Err(PublicKeyFailed)
    ensures cred.decodes && cred.derivesPublicKey && !cred.signs ==> r == Err(SignFailed)
    ensures r.Ok? ==> r.value.relays == cfg.relays
    ensures r.Ok? ==> Matches(LoadQuery(name), r.value.record) && r.value.record.content == list
  {
    if !cred.decodes then Err(KeyDecodeFailed)
    else if !cred.derivesPublicKey then Err(PublicKeyFailed)
    else if !cred.signs then Err(SignFailed)
    else
      var rec := SaveRecord(list, name, now);
      assert rec.tags[0] in rec.tags;
      Ok(Dispatch(rec, cfg.relays))
  }

  /** Whether a save succeeds does not depend on any relay's answer: a save
      that no relay accepted still reports success. This holds because the
      publishing goroutines only log a relay's error and `Save` returns nil
      after the wait group, so `accepted` never reaches the result. */
  lemma SaveIgnoresRelayAnswers(list: seq<Todo>, cfg: Config, name: string, cred: Credential,
                                now: int, some: seq<bool>, other: seq<bool>)
    ensures Save(list, cfg, name, cred, now, some) == Save(list, cfg, name, cred, now, other)
  {
  }

  // ---------------------------------------------------------------------------
  // Command handlers
  // ---------------------------------------------------------------------------

  /** A subcommand with its positional arguments and the flag values it reads;
      `freshId` and `now` are the UUID and the clock reading doNew takes.
      `edit` declares no `--content` flag, so it carries no content. */
  datatype Command =
    | List(args: seq<string>, showAll: bool)
    | New(args: seq<string>, content: string, freshId: string, now: int)
    | Done(args: seq<string>)
    | Undone(args: seq<string>)
    | Edit(args: seq<string>)
    | Delete(args: seq<string>)

  /** The argument-count guard at the top of each handler: on a wrong count it
      shows help and does nothing else. */
  predicate ShowsHelp(cmd: Command)
  {
    match cmd
    case List(args, _) => args != []
    case New(args, _, _, _) => args != []
    case Done(args) => args == []
    case Undone(args) => args == []
    case Edit(args) => |args| != 1
    case Delete(args) => args == []
  }

  /** The list a handler starts from, given what Load returned: only doNew
      tolerates `ErrNotFound`, starting from the empty list; every other error,
      and `ErrNotFound` for every other handler, is returned as it is. */
  function Starting(cmd: Command, loaded: Result<seq<Todo>>): (r: Result<seq<Todo>>)
    ensures r.Err? <==> loaded.Err? && !(cmd.New? && loaded.error == NotFound)
    ensures r.Err? ==> r == loaded
    ensures r.Ok? ==> r.value == if loaded.Ok? then loaded.value else []
  {
    if cmd.New? && loaded == Err(NotFound) then Ok([]) else loaded
  }

  /** What `cmd.String` reads for a flag the command does not declare. doEdit
      reads `content`, which `edit` does not declare. */
  const UndeclaredFlag: string := ""

  /** What a handler does once it is past its guard and its load. */
  datatype Outcome =
    | Help                        // the guard showed help
    | Failed(error: Error)        // returned an error; nothing was saved
    | Printed(shown: seq<Todo>)   // doList printed these tasks
    | Saving(list: seq<Todo>)     // Save was called with this list

  /** The outcome each handler produces from its starting list. */
  ghost predicate Handles(cmd: Command, base: seq<Todo>, out: Outcome)
    requires !ShowsHelp(cmd)
  {
    match cmd
    case List(_, showAll) => out == Printed(Visible(base, showAll))
    case New(_, content, id, now) => out.Saving? && IsAdded(base, Todo(id, content, false, now), out.list)
    case Done(ids) => out == Saving(Marked(base, ids, true))
    case Undone(ids) => out == Saving(Marked(base, ids, false))
    case Edit(args) => out == Saving(Edited(base, args[0], UndeclaredFlag))
    case Delete(ids) => out == Saving(Deleted(base, ids))
  }

  /** A handler (doList, doNew, doDone, doUndone, doEdit, doDelete) up to the
      call of Save: guard, load, the per-command not-found rule, mutation. */
  method Execute(cmd: Command, fetched: Fetched) returns (out: Outcome)
    ensures ShowsHelp(cmd) ==> out == Help
    ensures !ShowsHelp(cmd) && Starting(cmd, Load(fetched)).Err? ==> out == Failed(Load(fetched).error)
    ensures !ShowsHelp(cmd) && Starting(cmd, Load(fetched)).Ok? ==> Handles(cmd, Starting(cmd, Load(fetched)).value, out)
    ensures !ShowsHelp(cmd) && fetched == NoEvent ==>
      out == if cmd.New? then Saving([Todo(cmd.freshId, cmd.content, false, cmd.now)]) else Failed(NotFound)
  {
    if ShowsHelp(cmd) {
      return Help;
    }
    var start := Starting(cmd, Load(fetched));
    if start.Err? {
      return Failed(start.error);
    }
    var base := start.value;
    match cmd
    case List(_, showAll) =>
      var shown := TodoOps.ListVisible(base, showAll);
      out := Printed(shown);
    case New(_, content, id, now) =>
      var list := TodoOps.AddTask(base, id, content, now);
      if fetched == NoEvent {
        AddedToEmpty(Todo(id, content, false, now), list);
      }
      out := Saving(list);
    case Done(ids) =>
      var a := new Todo[|base|](i requires 0 <= i < |base| => base[i]);
      assert a[..] == base;
      TodoOps.MarkDone(a, ids);
      out := Saving(a[..]);
    case Undone(ids) =>
      var a := new Todo[|base|](i requires 0 <= i < |base| => base[i]);
      assert a[..] == base;
      TodoOps.MarkUndone(a, ids);
      out := Saving(a[..]);
    case Edit(args) =>
      var a := new Todo[|base|](i requires 0 <= i < |base| => base[i]);
      assert a[..] == base;
      TodoOps.Edit(a, args[0], UndeclaredFlag);
      out := Saving(a[..]);
    case Delete(ids) =>
      var list := TodoOps.Delete(base, ids);
      out := Saving(list);
  }

  // ---------------------------------------------------------------------------
  // Worked scenarios
  // ---------------------------------------------------------------------------

  /** Marking A done in [A, B] gives [A done, B as it was]. */
  lemma MarkDoneScenario(a: Todo, b: Todo)
    requires !a.done && !b.done && a.id != b.id
    ensures Marked([a, b], [a.id], true) == [a.(done := true), b]
  {
  }

  /** Deleting A from [A, B] where B has an empty ID leaves nothing. */
  lemma DeleteScenario(a: Todo, b: Todo)
    requires a.id != "" && b.id == ""
    ensures Deleted([a, b], [a.id]) == []
  {
    assert [a, b][1..] == [b];
    assert [b][1..] == [];
    assert !Survives(b, [a.id]) && Remaining([b], [a.id]) == [];
    assert !Survives(a, [a.id]) && Remaining([a, b], [a.id]) == Remaining([b], [a.id]);
  }

  /** doEdit as written blanks the content of the task it edits: `edit` has no
      flag through which a new content could reach it. */
  lemma EditBlanksContent(t: Todo, out: Outcome)
    requires Handles(Edit([t.id]), [t], out)
    ensures out == Saving([t.(content := "")])
  {
  }
}
