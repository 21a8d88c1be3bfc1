/** The fields of a document session that its persist loop and `flush` update, method by method. */
module DocumentSession {
  import opened Wrappers
  import opened Persistence

  /** What waits for the session and what it has answered; the promises and sockets themselves are not kept. */
  datatype Clients = Clients(waiters: map<nat, Waiter>, deferred: map<nat, Text>, resolved: map<nat, Text>,
                             acked: map<nat, Text>, nextId: nat)

  class OneFileDocumentSession {
    var text: Text
    var file: Text
    var lastWrittenContent: Text
    var persistRequested: bool
    var suspendedAt: Phase
    var failure: bool
    var persistFailed: bool
    var clients: Clients
    var externalCheck: Option<Text>

    ghost function Abstract(): State
      reads this
    {
      State(text, file, lastWrittenContent, persistRequested, suspendedAt, failure, persistFailed,
            clients.waiters, clients.deferred, clients.resolved, clients.acked, clients.nextId, externalCheck)
    }

    constructor (content: Text)
      ensures Abstract() == Opened(content)
    {
      text, file, lastWrittenContent := content, content, content;
      persistRequested, suspendedAt, failure, persistFailed := false, Idle, false, false;
      clients := Clients(map[], map[], map[], map[], 0);
      externalCheck := None;
    }

    /** Starts the loop up to its first read unless it runs already. */
    method RequestPersist()
      modifies this
      ensures Abstract() == Requested(old(Abstract()))
    {
      persistRequested := true;
      if suspendedAt == Idle {
        persistRequested := false;
        suspendedAt := Reading(text);
      }
    }

    method HandleDocumentUpdate(edit: Edit)
      modifies this
      ensures Abstract() == Edited(old(Abstract()), edit)
    {
      text := text + [edit];
      RequestPersist();
    }

    method Flush(isSave: bool)
      modifies this
      ensures Abstract() == Flushed(old(Abstract()), isSave)
    {
      var id := clients.nextId;
      clients := clients.(nextId := id + 1);
      if suspendedAt != Idle {
        clients := clients.(waiters := clients.waiters[id := Waiter(text, isSave, false)]);
      } else if persistFailed {
        clients := clients.(waiters := clients.waiters[id := Waiter(text, isSave, true)]);
        RequestPersist();
      } else {
        clients := clients.(resolved := clients.resolved[id := text],
                            acked := if isSave then clients.acked[id := text] else clients.acked);
      }
    }

    /** The promise of the loop is settled and the flushes that wait for it go on. */
    method SettleLoop()
      modifies this
      ensures Abstract() == LoopEnd(old(Abstract()))
    {
      suspendedAt := Idle;
      if failure {
        failure := false;
        clients := clients.(waiters := map[],
          deferred := clients.deferred + map id | id in clients.waiters && clients.waiters[id].isSave :: clients.waiters[id].needs);
      } else {
        var waiting := clients.waiters;
        var retrying := set id | id in waiting && !waiting[id].retried && persistFailed;
        var done := map id | id in waiting && id !in retrying :: waiting[id].needs;
        clients := clients.(resolved := clients.resolved + done,
                            acked := clients.acked + map id | id in done && waiting[id].isSave :: done[id],
                            waiters := map id | id in retrying :: waiting[id].(retried := true));
        if retrying != {} {
          RequestPersist();
          persistRequested := |retrying| > 1;
        }
      }
    }

    method ContinueLoop()
      modifies this
      ensures Abstract() == LoopTurn(old(Abstract()))
    {
      if persistRequested {
        persistRequested := false;
        suspendedAt := Reading(text);
      } else {
        SettleLoop();
      }
    }

    method MarkPersistFailed()
      modifies this
      ensures Abstract() == Failed(old(Abstract()))
    {
      persistFailed := true;
      failure := true;
      ContinueLoop();
    }

    /** `materialize` after its read: the file is written, or taken over if somebody else seems to have changed it. */
    method MaterializeAfterRead()
      requires suspendedAt.Reading?
      modifies this
      ensures Abstract() == ReadReturned(old(Abstract()))
    {
      if file != lastWrittenContent {
        ReconcileExternalContent(file);
        suspendedAt := Reconciling;
      } else {
        suspendedAt := Writing(suspendedAt.content);
      }
    }

    method ReconcileExternalContent(content: Text)
      modifies this
      ensures Abstract() == old(Abstract()).(doc := content, lastWritten := content)
    {
      if text != content {
        text := content;
      }
      lastWrittenContent := content;
    }

    /** `runExternalChangeCheck` up to its read of the file. */
    method BeginExternalCheck()
      modifies this
      ensures Abstract() == PollRead(old(Abstract()))
    {
      if externalCheck.None? {
        externalCheck := Some(file);
      }
    }

    /** The rest of the check: what was read then is compared with what has been written by now. */
    method FinishExternalCheck()
      requires externalCheck.Some?
      modifies this
      ensures Abstract() == PollCompared(old(Abstract()))
    {
      var content := externalCheck.value;
      externalCheck := None;
      var pending := (suspendedAt.Writing? || suspendedAt.Snapshotting?) && suspendedAt.content == content;
      if content != lastWrittenContent && !pending {
        ReconcileExternalContent(content);
      }
    }

    method MaterializeAfterWrite()
      requires suspendedAt.Writing?
      modifies this
      ensures Abstract() == WriteReturned(old(Abstract()))
    {
      file := suspendedAt.content;
      suspendedAt := Snapshotting(suspendedAt.content);
    }

    method MaterializeAfterSnapshot()
      requires suspendedAt.Snapshotting?
      modifies this
      ensures Abstract() == Persisted(old(Abstract()))
    {
      lastWrittenContent := suspendedAt.content;
      persistFailed := false;
      clients := clients.(acked := clients.acked + clients.deferred, deferred := map[]);
      ContinueLoop();
    }

    /** An update whose sender waits for an acknowledgement. */
    method HandleSave(edit: Edit)
      modifies this
      ensures Abstract() == Saved(old(Abstract()), edit)
    {
      HandleDocumentUpdate(edit);
      Flush(true);
    }

    /** Whatever happens next is done by one of the methods above, so that every run of the protocol is a run of
        the session. */
    method Take(step: Step)
      requires Possible(Abstract(), step)
      modifies this
      ensures Abstract() == Next(old(Abstract()), step)
    {
      match step
      case Edits(edit) => HandleDocumentUpdate(edit);
      case Saves(edit) => HandleSave(edit);
      case Flushes => Flush(false);
      case ReadReturns(ok) => if ok { MaterializeAfterRead(); } else { MarkPersistFailed(); }
      case WriteReturns(ok) => if ok { MaterializeAfterWrite(); } else { MarkPersistFailed(); }
      case SnapshotReturns(ok) => if ok { MaterializeAfterSnapshot(); } else { MarkPersistFailed(); }
      case ReconcileReturns(ok) => if ok { ContinueLoop(); } else { MarkPersistFailed(); }
      case PollReads => BeginExternalCheck();
      case PollCompares => FinishExternalCheck();
      case Disconnects(ids) => clients := clients.(deferred := clients.deferred - ids);
    }
  }
}
