// LogWriter's critical sections, each of them one step of the protocol in
// Ingestion.dfy, and the worker's loop, which feeds the storage.
module LogWriters {
  import opened Bytes
  import opened StorageSpec
  import opened Retention
  import opened Storages
  import opened Ingestion

  class LogWriter {
    var queue: seq<Request>
    var stopping: bool
    const storage: Storage
    ghost var stored: seq<Request>    // what the storage has been given

    ghost predicate Valid()
      reads this, storage, storage.backend, storage.backend.folder, storage.backend.folder.files.Values
    {
      storage.Valid()
    }

    constructor (storage: Storage)
      requires storage.Valid()
      ensures Valid() && this.storage == storage
      ensures queue == [] && !stopping && stored == []
    {
      this.storage, queue, stopping, stored := storage, [], false, [];
    }

    ghost predicate Shows(s: State)
      reads this
    {
      queue == s.queue && stopping == s.stopping && stored == s.written
    }

    // add, between lock and unlock
    method AddSection(request: Request, ghost s: State, ghost id: nat) returns (ok: bool)
      requires Shows(s) && id in s.callers && s.callers[id] == AddLocked(request)
      modifies this
      ensures Shows(After(s, Advance(id))) && ok == !old(stopping)
      ensures After(s, Advance(id)).callers[id] == if ok then AddPushed else AddRefused
    {
      if stopping {
        return false;
      }
      queue := queue + [request];
      return true;
    }

    // stop, between lock and unlock
    method StopSection(ghost s: State, ghost id: nat)
      requires Shows(s) && id in s.callers && s.callers[id] == StopLocked
      modifies this
      ensures Shows(After(s, Advance(id))) && stopping
    {
      stopping := true;
    }

    // wait, with the mutex held: the predicate and what follows it.  None and
    // !sleep means the worker is to leave.
    method WaitSection(ghost s: State) returns (request: Option<Request>, sleep: bool)
      requires Shows(s) && s.worker == Checking
      modifies this
      ensures Shows(After(s, Work))
      ensures After(s, Work).worker ==
        if sleep then Waiting else if request.Some? then Writing(request.value) else Done
      ensures sleep ==> request.None?
      ensures stored == old(stored) && stopping == old(stopping)
      ensures old(queue) == (match request case None => [] case Some(r) => [r]) + queue
    {
      if !stopping && queue == [] {
        return None, true;
      }
      if queue == [] {
        return None, false;
      }
      request, sleep := Some(queue[0]), false;
      queue := queue[1..];
    }

    method Deliver(request: Request)
      requires Valid()
      modifies this`stored, storage.Parts()
      ensures Valid() && fresh(storage.Parts() - old(storage.Parts()))
      ensures storage.View() == StoreWritten(old(storage.View()), storage.backend.cal, request).0
      ensures stored == old(stored) + [request]
    {
      hide StoreWritten, Storage.View, Storage.Valid;
      var written := storage.Write(request);
      stored := stored + [request];
    }

    // One turn of the worker with nobody else taking a step: it writes the
    // front request, or ends if stopping_ is set, or blocks.
    method Turn(ghost s: State) returns (more: bool, ghost end: State)
      requires Valid() && Shows(s) && s.worker == Entering && s.owner == Free
      modifies this, storage.Parts()
      ensures Valid() && fresh(storage.Parts() - old(storage.Parts())) && Shows(end)
      ensures stopping == old(stopping) && more == (old(queue) != [])
      ensures more ==> end.worker == Entering && end.owner == Free
      ensures more ==> queue == old(queue)[1..] && stored == old(stored) + [old(queue)[0]]
      ensures more ==>
        storage.View() == StoreWritten(old(storage.View()), storage.backend.cal, old(queue)[0]).0
      ensures !more ==> end.worker == if stopping then Done else Waiting
      ensures !more ==> queue == [] && stored == old(stored) && storage.View() == old(storage.View())
    {
      hide StoreWritten, Storage.View, Storage.Valid;
      end := After(s, Work);
      var request, sleep := WaitSection(end);
      end := After(end, Work);
      more := request.Some?;
      if more {
        Deliver(request.value);
        end := After(end, Work);
      }
    }

    // writingThread up to where it blocks or ends: the storage runs the queue
    // in order, whatever its writes report.
    method WritingThread(ghost s: State) returns (ghost end: State)
      requires Valid() && Shows(s) && s.worker == Entering && s.owner == Free
      modifies this, storage.Parts()
      ensures Valid() && fresh(storage.Parts() - old(storage.Parts()))
      ensures storage.View() == Run(old(storage.View()), storage.backend.cal, old(queue))
      ensures Shows(end) && end.worker == (if stopping then Done else Waiting)
      ensures queue == [] && stopping == old(stopping) && stored == old(stored) + old(queue)
    {
      hide StoreWritten, Storage.View, Storage.Valid, Shows;
      end := s;
      var more := true;
      while more
        invariant Valid() && fresh(storage.Parts() - old(storage.Parts()))
        invariant Run(storage.View(), storage.backend.cal, queue) ==
          Run(old(storage.View()), storage.backend.cal, old(queue))
        invariant Shows(end)
        invariant if more then end.worker == Entering && end.owner == Free
                  else queue == [] && end.worker == if stopping then Done else Waiting
        invariant stopping == old(stopping) && stored + queue == old(stored) + old(queue)
        decreases |queue|, more
      {
        more, end := Turn(end);
      }
    }

    // One caller alone, with the worker anywhere outside its critical section.
    ghost function Alone(c: Caller): State
      reads this
    {
      State(queue, stopping, ByCaller(0), map[0 := c], Ingestion.Entering, stored + queue, stored)
    }

    method Add(request: Request) returns (ok: bool)
      modifies this
      ensures ok == !old(stopping) && stopping == old(stopping) && stored == old(stored)
      ensures queue == if ok then old(queue) + [request] else old(queue)
    {
      ok := AddSection(request, Alone(AddLocked(request)), 0);
    }

    // stop without other callers around: what has been accepted is written,
    // in the order of admission, before it returns.
    method Stop()
      requires Valid()
      modifies this, storage.Parts()
      ensures Valid() && fresh(storage.Parts() - old(storage.Parts()))
      ensures storage.View() == Run(old(storage.View()), storage.backend.cal, old(queue))
      ensures stopping && queue == [] && stored == old(stored) + old(queue)
    {
      hide Storage.View, Storage.Valid, Run;
      StopSection(Alone(StopLocked), 0);
      ghost var s := State(queue, true, Free, map[0 := StopJoining], Ingestion.Entering, stored + queue, stored);
      ghost var end := WritingThread(s);
    }
  }
}
