/**
 * The per-connection native state of the Bluetooth event loop
 * (`event_loop_native_data_t`) and the operations that update it in place:
 * the watch-table add and remove handlers, the control-socket drain and the
 * readiness scan of the loop thread, the three D-Bus watch callbacks, and the
 * start / stop / is-running lifecycle.
 */
module EventLoop {
  import opened Basics
  import opened Flags
  import opened WatchTable
  import opened ControlProtocol
  import opened LoopSpec

  /** Initial capacity of the watch table (from android_bluetooth_common.h). */
  const DEFAULT_INITIAL_POLLFD_COUNT: nat := 8

  /** Which of the two mallocs of a growth step hand back memory. */
  datatype Allocation = BothSucceed | PollAllocFails | WatchAllocFails

  /** memcpy of the first n elements. */
  method MemCopy<T>(src: array<T>, dst: array<T>, n: nat)
    requires n <= src.Length && n <= dst.Length && src != dst
    modifies dst
    ensures dst[..n] == src[..n]
    ensures dst[n..] == old(dst[n..])
  {
    var k := 0;
    while k < n
      invariant 0 <= k <= n
      invariant dst[..k] == src[..k]
      invariant dst[n..] == old(dst[n..])
    {
      dst[k] := src[k];
      k := k + 1;
    }
  }

  class EventLoopNativeData {
    var pollData: array?<PollFd>
    var watchData: array?<WatchRef>
    var pollMemberCount: nat
    var pollDataSize: nat
    var controlFdR: int32
    var controlFdW: int32
    /** Whether the long-lived reference to the host object (`me`) is held. */
    var hostRef: bool
    /** Bytes written to controlFdW that the loop has not yet read from controlFdR. */
    var control: seq<byte>

    /**
     * The table is allocated as a pair or not at all; the live count never
     * exceeds the capacity; watchData has exactly the capacity, while pollData
     * may be one slot longer after a growth whose second malloc failed. The
     * two arrays are distinct blocks.
     */
    ghost predicate Valid()
      reads this
    {
      && (pollData == null <==> watchData == null)
      && (pollData == null ==> pollMemberCount == 0 && pollDataSize == 0)
      && (pollData != null ==> pollMemberCount <= pollDataSize == watchData.Length <= pollData.Length)
      && (pollData != null ==> pollData as object != watchData as object)
    }

    /** "Running" is "pollData allocated". */
    predicate Running()
      reads this
    {
      pollData != null
    }

    /** The state start's failure path and stop leave behind. */
    ghost predicate Stopped()
      reads this
    {
      && pollData == null && watchData == null
      && pollMemberCount == 0 && pollDataSize == 0
      && controlFdR == 0 && controlFdW == 0
      && !hostRef && control == []
    }

    /** The live slots, index by index. */
    ghost function Slots(): (t: seq<Slot>)
      reads this, pollData, watchData
      requires Valid()
      ensures |t| == pollMemberCount
    {
      if pollData == null then [] else Zip(pollData[..pollMemberCount], watchData[..pollMemberCount])
    }

    /** initializeNativeDataNative: the calloc'd, all-zero state. */
    constructor ()
      ensures Valid() && Stopped()
    {
      pollData := null;
      watchData := null;
      pollMemberCount := 0;
      pollDataSize := 0;
      controlFdR := 0;
      controlFdW := 0;
      hostRef := false;
      control := [];
    }

    /**
     * handleWatchAdd, with the command's fields already read: an (fd, events)
     * pair already live is ignored; otherwise the table grows by one slot if
     * full and the pair is appended with no pending readiness.
     */
    method HandleWatchAdd(newFd: int32, flags: bv32, watch: WatchRef, alloc: Allocation)
      requires Valid() && Running()
      modifies this, pollData, watchData
      ensures Valid() && Running()
      ensures pollData == old(pollData) || fresh(pollData)
      ensures watchData == old(watchData) || fresh(watchData)
      ensures controlFdR == old(controlFdR) && controlFdW == old(controlFdW)
      ensures hostRef == old(hostRef) && control == old(control)
      ensures var events := PollEventsFor(flags);
        if FindEntry(old(Slots()), newFd, events).Some? then
          && Slots() == old(Slots()) && pollMemberCount == old(pollMemberCount) && pollDataSize == old(pollDataSize)
          && pollData == old(pollData) && watchData == old(watchData)
        else if old(pollMemberCount) < old(pollDataSize) || alloc == BothSucceed then
          && Slots() == old(Slots()) + [Slot(PollFd(newFd, events, 0), watch)]
          && pollMemberCount == old(pollMemberCount) + 1
          && pollDataSize == (if old(pollMemberCount) == old(pollDataSize) then old(pollDataSize) + 1 else old(pollDataSize))
        else
          Slots() == old(Slots()) && pollMemberCount == old(pollMemberCount) && pollDataSize == old(pollDataSize)
      ensures alloc == BothSucceed ==> Slots() == AddEntry(old(Slots()), newFd, PollEventsFor(flags), watch)
      ensures FindEntry(old(Slots()), newFd, PollEventsFor(flags)).None? && old(pollMemberCount) == old(pollDataSize) ==>
        && (alloc == PollAllocFails ==> pollData == old(pollData) && watchData == old(watchData))
        && (alloc == WatchAllocFails ==>
              fresh(pollData) && pollData.Length == old(pollDataSize) + 1 && watchData == old(watchData))
        && (alloc == BothSucceed ==> fresh(pollData) && fresh(watchData))
      ensures old(pollMemberCount) < old(pollDataSize) ==> pollData == old(pollData) && watchData == old(watchData)
    {
      var events := PollEventsFor(flags);
      var found := FindSlot(newFd, events);
      if found.Some? {
        return;
      }
      if pollMemberCount == pollDataSize {
        var grown := Grow(alloc);
        if !grown {
          return;
        }
      }
      AppendSlot(PollFd(newFd, events, 0), watch);
    }

    /**
     * The growth step of handleWatchAdd on a full table: pollData, then
     * watchData, is reallocated one slot larger with the live slots copied.
     * If the first malloc fails nothing changes; if the second fails pollData
     * has already been replaced but the capacity stays the same.
     */
    method Grow(alloc: Allocation) returns (grown: bool)
      requires Valid() && Running() && pollMemberCount == pollDataSize
      modifies this
      ensures Valid() && Running()
      ensures pollData == old(pollData) || fresh(pollData)
      ensures watchData == old(watchData) || fresh(watchData)
      ensures controlFdR == old(controlFdR) && controlFdW == old(controlFdW)
      ensures hostRef == old(hostRef) && control == old(control)
      ensures pollMemberCount == old(pollMemberCount) && Slots() == old(Slots())
      ensures grown <==> alloc == BothSucceed
      ensures pollDataSize == if grown then old(pollDataSize) + 1 else old(pollDataSize)
      ensures alloc == PollAllocFails ==> pollData == old(pollData) && watchData == old(watchData)
      ensures alloc == WatchAllocFails ==>
        fresh(pollData) && pollData.Length == old(pollDataSize) + 1 && watchData == old(watchData)
      ensures alloc == BothSucceed ==> fresh(pollData) && fresh(watchData)
    {
      if alloc == PollAllocFails {
        return false;
      }
      var temp := new PollFd[pollMemberCount + 1];
      MemCopy(pollData, temp, pollMemberCount);
      pollData := temp;
      if alloc == WatchAllocFails {
        return false;
      }
      var temp2 := new WatchRef[pollMemberCount + 1];
      MemCopy(watchData, temp2, pollMemberCount);
      watchData := temp2;
      pollDataSize := pollDataSize + 1;
      return true;
    }

    /** Write a new live slot just past the last one. */
    method AppendSlot(poll: PollFd, watch: WatchRef)
      requires Valid() && Running() && pollMemberCount < pollDataSize
      modifies this, pollData, watchData
      ensures Valid() && Running()
      ensures pollData == old(pollData) && watchData == old(watchData) && pollDataSize == old(pollDataSize)
      ensures controlFdR == old(controlFdR) && controlFdW == old(controlFdW)
      ensures hostRef == old(hostRef) && control == old(control)
      ensures pollMemberCount == old(pollMemberCount) + 1
      ensures Slots() == old(Slots()) + [Slot(poll, watch)]
    {
      ghost var polls := pollData[..pollMemberCount];
      ghost var watches := watchData[..pollMemberCount];
      var n := pollMemberCount;
      pollData[n] := poll;
      assert pollData[..n + 1] == polls + [poll];
      watchData[n] := watch;
      assert pollData[..n + 1] == polls + [poll];
      assert watchData[..n + 1] == watches + [watch];
      pollMemberCount := n + 1;
      ZipAppend(polls, watches, poll, watch);
    }

    /**
     * The search loop shared by handleWatchAdd and handleWatchRemove: the
     * index of the first live slot whose descriptor and event mask match.
     */
    method FindSlot(fd: int32, events: bv16) returns (r: Option<nat>)
      requires Valid() && Running()
      ensures r == FindEntry(Slots(), fd, events)
    {
      ghost var t := Slots();
      var y := 0;
      while y < pollMemberCount && !(pollData[y].fd == fd && pollData[y].events == events)
        invariant 0 <= y <= pollMemberCount
        invariant forall k :: 0 <= k < y ==> !Matches(t[k], fd, events)
      {
        y := y + 1;
      }
      if y < pollMemberCount {
        assert Matches(t[y], fd, events);
        return Some(y);
      }
      return None;
    }

    /** Copy the last live slot over slot y and drop the live count by one. */
    method MoveLastInto(y: nat)
      requires Valid() && Running() && y < pollMemberCount
      modifies this, pollData, watchData
      ensures Valid() && Running()
      ensures pollData == old(pollData) && watchData == old(watchData) && pollDataSize == old(pollDataSize)
      ensures controlFdR == old(controlFdR) && controlFdW == old(controlFdW)
      ensures hostRef == old(hostRef) && control == old(control)
      ensures pollMemberCount == old(pollMemberCount) - 1
      ensures Slots() == old(Slots())[y := old(Slots())[pollMemberCount]][..pollMemberCount]
    {
      ghost var polls := pollData[..pollMemberCount];
      ghost var watches := watchData[..pollMemberCount];
      pollMemberCount := pollMemberCount - 1;
      var newCount := pollMemberCount;
      pollData[y] := pollData[newCount];
      assert pollData[..newCount] == polls[y := polls[newCount]][..newCount];
      watchData[y] := watchData[newCount];
      assert pollData[..newCount] == polls[y := polls[newCount]][..newCount];
      assert watchData[..newCount] == watches[y := watches[newCount]][..newCount];
      ZipSwapRemove(polls, watches, y);
    }

    /**
     * handleWatchRemove, with the command's fields already read: the first
     * slot matching (fd, events) is overwritten by the last live slot and the
     * live count drops by one; with no match nothing changes.
     */
    method HandleWatchRemove(removeFd: int32, flags: bv32)
      requires Valid() && Running()
      modifies this, pollData, watchData
      ensures Valid() && Running()
      ensures pollData == old(pollData) && watchData == old(watchData) && pollDataSize == old(pollDataSize)
      ensures controlFdR == old(controlFdR) && controlFdW == old(controlFdW)
      ensures hostRef == old(hostRef) && control == old(control)
      ensures Slots() == RemoveEntry(old(Slots()), removeFd, PollEventsFor(flags))
    {
      var events := PollEventsFor(flags);
      var found := FindSlot(removeFd, events);
      if found.Some? {
        MoveLastInto(found.value);
      }
    }

    /**
     * The inner `while (recv(...))` of the loop: read commands off the control
     * socket until none is pending, applying ADD and REMOVE in order; EXIT
     * stops the drain and reports that the loop thread ends.
     */
    method DrainControl() returns (exited: bool)
      requires Valid() && Running()
      modifies this, pollData, watchData
      ensures Valid() && Running()
      ensures pollData == old(pollData) || fresh(pollData)
      ensures watchData == old(watchData) || fresh(watchData)
      ensures controlFdR == old(controlFdR) && controlFdW == old(controlFdW) && hostRef == old(hostRef)
      ensures var d := Drain(old(Slots()), old(control));
        Slots() == d.table && control == d.rest && exited == d.exited
    {
      ghost var goal := Drain(Slots(), control);
      exited := false;
      var waiting := false;
      while control != [] && !exited && !waiting
        invariant Valid() && Running()
        invariant pollData == old(pollData) || fresh(pollData)
        invariant watchData == old(watchData) || fresh(watchData)
        invariant controlFdR == old(controlFdR) && controlFdW == old(controlFdW) && hostRef == old(hostRef)
        invariant !exited ==> Drain(Slots(), control) == goal
        invariant exited ==> goal == DrainResult(Slots(), control, true)
        invariant waiting ==> !exited && NextCommand(control).Partial?
        decreases |control|, if exited || waiting then 0 else 1
      {
        var step := NextCommand(control);
        if step.Partial? {
          // the rest of the command has not been written yet
          waiting := true;
        } else if step.Complete? {
          var c := step.cmd;
          control := control[step.size..];
          if c.Exit? {
            exited := true;
          } else {
            Apply(c);
          }
        } else {
          // a tag the switch has no case for
          control := control[1..];
        }
      }
    }

    /** The switch of the drain for ADD and REMOVE (growth allocations succeed). */
    method Apply(c: Command)
      requires Valid() && Running() && !c.Exit?
      modifies this, pollData, watchData
      ensures Valid() && Running()
      ensures pollData == old(pollData) || fresh(pollData)
      ensures watchData == old(watchData) || fresh(watchData)
      ensures controlFdR == old(controlFdR) && controlFdW == old(controlFdW)
      ensures hostRef == old(hostRef) && control == old(control)
      ensures Slots() == ApplyCommand(old(Slots()), c)
    {
      if c.Add? {
        HandleWatchAdd(c.fd, c.flags, c.watch, BothSucceed);
      } else {
        HandleWatchRemove(c.fd, c.flags);
      }
    }

    /**
     * One pass of the `for` loop of eventLoopMain: the control slot, when ready,
     * is drained and the scan goes on; the first other ready slot is handed to
     * libdbus, its revents cleared, and the scan stops there.
     */
    method ScanOnce() returns (outcome: ScanOutcome)
      requires Valid() && Running()
      modifies this, pollData, watchData
      ensures Valid() && Running()
      ensures pollData == old(pollData) || fresh(pollData)
      ensures watchData == old(watchData) || fresh(watchData)
      ensures controlFdR == old(controlFdR) && controlFdW == old(controlFdW) && hostRef == old(hostRef)
      ensures var r := ScanFrom(old(Slots()), old(control), old(controlFdR), 0);
        Slots() == r.table && control == r.rest && outcome == r.outcome
    {
      ghost var goal := ScanFrom(Slots(), control, controlFdR, 0);
      var i := 0;
      while i < pollMemberCount
        invariant Valid() && Running()
        invariant pollData == old(pollData) || fresh(pollData)
        invariant watchData == old(watchData) || fresh(watchData)
        invariant controlFdR == old(controlFdR) && controlFdW == old(controlFdW) && hostRef == old(hostRef)
        invariant ScanFrom(Slots(), control, controlFdR, i) == goal
        decreases |control|, pollMemberCount - i
      {
        if pollData[i].revents == 0 {
          i := i + 1;
        } else if pollData[i].fd == controlFdR {
          var exited := ServiceControl(i);
          if exited {
            return ControlExit;
          }
          i := i + 1;
        } else {
          outcome := HandOver(i);
          return;
        }
      }
      return NoneReady;
    }

    /**
     * The control branch of the scan: the control socket is drained; on EXIT
     * the pass ends, otherwise it goes on after slot i in the updated table.
     */
    method ServiceControl(i: nat) returns (exited: bool)
      requires Valid() && Running() && i < pollMemberCount
      requires pollData[i].revents != 0 && pollData[i].fd == controlFdR
      modifies this, pollData, watchData
      ensures Valid() && Running()
      ensures pollData == old(pollData) || fresh(pollData)
      ensures watchData == old(watchData) || fresh(watchData)
      ensures controlFdR == old(controlFdR) && controlFdW == old(controlFdW) && hostRef == old(hostRef)
      ensures var r := ScanFrom(old(Slots()), old(control), controlFdR, i);
        r == if exited then ScanResult(Slots(), control, ControlExit) else ScanFrom(Slots(), control, controlFdR, i + 1)
      ensures |control| < old(|control|) || (control == old(control) && pollMemberCount == old(pollMemberCount))
    {
      ghost var t := Slots();
      assert t[i].poll == pollData[i];
      exited := DrainControl();
    }

    /**
     * The non-control branch of the scan: the slot's watch and revents are
     * handed to libdbus and its revents cleared.
     */
    method HandOver(i: nat) returns (outcome: ScanOutcome)
      requires Valid() && Running() && i < pollMemberCount
      requires pollData[i].revents != 0 && pollData[i].fd != controlFdR
      modifies pollData
      ensures Valid() && Running()
      ensures ScanFrom(old(Slots()), control, controlFdR, i) == ScanResult(Slots(), control, outcome)
    {
      ghost var t := Slots();
      assert t[i].poll == pollData[i];
      var event := pollData[i].revents;
      // the source computes `flags` and then passes `event` (see HandlerFlagsAsWritten)
      var flags := WatchFlagsFor(event);
      outcome := Handled(i, watchData[i], event, HandlerFlagsAsWritten(event), flags);
      ghost var polls := pollData[..pollMemberCount];
      ghost var watches := watchData[..pollMemberCount];
      pollData[i] := pollData[i].(revents := 0);
      assert pollData[..pollMemberCount] == polls[i := polls[i].(revents := 0)];
      ZipUpdate(polls, watches, i, polls[i].(revents := 0));
    }

    /** The effect of poll() on the table: the kernel's readiness report lands in each live slot's revents. */
    method ReportReadiness(ready: seq<bv16>)
      requires Valid() && Running() && |ready| == pollMemberCount
      modifies pollData
      ensures Valid() && Running()
      ensures Slots() == WithReadiness(old(Slots()), ready)
    {
      ghost var t := Slots();
      var k := 0;
      while k < pollMemberCount
        invariant 0 <= k <= pollMemberCount
        invariant forall j :: 0 <= j < k ==> pollData[j] == old(pollData[j]).(revents := ready[j])
        invariant forall j :: k <= j < pollData.Length ==> pollData[j] == old(pollData[j])
      {
        pollData[k] := pollData[k].(revents := ready[k]);
        k := k + 1;
      }
      assert forall j :: 0 <= j < pollMemberCount ==> Slots()[j] == WithReadiness(t, ready)[j];
    }

    /** dbusAddWatch: an enabled watch is written as ADD, fd, flags, handle; a disabled one writes nothing. */
    method AddWatch(w: DBusWatch) returns (ok: bool)
      modifies this`control
      ensures ok && control == old(control) + EncodeAll(AddWatchCommands(w))
    {
      if w.enabled {
        ghost var before := control;
        var fdBytes := UintBytes(Int32Bits(w.fd));
        var flagBytes := WordBytes(w.flags);
        var handleBytes := WordBytes(w.handle);
        control := control + [EVENT_LOOP_ADD];
        control := control + fdBytes;
        control := control + flagBytes;
        control := control + handleBytes;
        assert control == before + ([EVENT_LOOP_ADD] + fdBytes + flagBytes + handleBytes);
        EncodeOne(Add(w.fd, w.flags, w.handle));
      } else {
        assert control == old(control) + EncodeAll([]);
      }
      ok := true;
    }

    /** dbusRemoveWatch: REMOVE, fd, flags, whether or not the watch is enabled. */
    method RemoveWatch(w: DBusWatch)
      modifies this`control
      ensures control == old(control) + EncodeAll(RemoveWatchCommands(w))
    {
      var fdBytes := UintBytes(Int32Bits(w.fd));
      var flagBytes := WordBytes(w.flags);
      control := control + [EVENT_LOOP_REMOVE];
      control := control + fdBytes;
      control := control + flagBytes;
      assert control == old(control) + ([EVENT_LOOP_REMOVE] + fdBytes + flagBytes);
      EncodeOne(Remove(w.fd, w.flags));
    }

    /** dbusToggleWatch: add when enabled, remove otherwise. */
    method ToggleWatch(w: DBusWatch)
      modifies this`control
      ensures control == old(control) + EncodeAll(ToggleWatchCommands(w))
    {
      if w.enabled {
        var _ := AddWatch(w);
      } else {
        RemoveWatch(w);
      }
    }

    /**
     * startEventLoopNative with the outcomes of the two mallocs, of
     * socketpair (the read and write ends) and of setUpEventLoop as inputs.
     * A second start is refused and changes nothing; any failure frees what
     * was allocated and resets every field.
     */
    method Start(pollAllocOk: bool, watchAllocOk: bool, sockets: Option<(int32, int32)>, setUpOk: bool)
      returns (started: bool)
      requires Valid()
      modifies this
      ensures Valid()
      ensures old(Running()) ==> !started && unchanged(this)
      ensures !old(Running()) ==> started == (pollAllocOk && watchAllocOk && sockets.Some? && setUpOk)
      ensures started ==>
        && Running() && fresh(pollData) && fresh(watchData)
        && pollMemberCount == 1 && pollDataSize == DEFAULT_INITIAL_POLLFD_COUNT
        && controlFdR == sockets.value.0 && controlFdW == sockets.value.1
        && Slots() == [Slot(PollFd(controlFdR, POLLIN, 0), NULL_WATCH)]
        && hostRef && control == []
      ensures !started && !old(Running()) ==> Stopped()
    {
      if pollData != null {
        return false;
      }
      started := false;
      if pollAllocOk {
        // malloc, then memset to zero
        pollData := new PollFd[DEFAULT_INITIAL_POLLFD_COUNT](_ => PollFd(0, 0, 0));
        if watchAllocOk {
          watchData := new WatchRef[DEFAULT_INITIAL_POLLFD_COUNT](_ => NULL_WATCH);
          pollDataSize := DEFAULT_INITIAL_POLLFD_COUNT;
          pollMemberCount := 1;
          if sockets.Some? {
            controlFdR, controlFdW := sockets.value.0, sockets.value.1;
            control := [];
            pollData[0] := PollFd(controlFdR, POLLIN, 0);
            hostRef := true;
            if setUpOk {
              started := true;
            }
          }
        }
      }
      if !started {
        controlFdW, controlFdR := 0, 0;
        control := [];
        hostRef := false;
        pollData := null;
        watchData := null;
        pollDataSize := 0;
        pollMemberCount := 0;
      } else {
        assert pollData[..1] == [PollFd(controlFdR, POLLIN, 0)];
        assert watchData[..1] == [NULL_WATCH];
      }
    }

    /**
     * stopEventLoopNative: when running, write EXIT for the loop thread, wait
     * for it, then release the host reference and free the table; otherwise
     * a no-op.
     */
    method Stop()
      requires Valid()
      modifies this
      ensures Valid()
      ensures !old(Running()) ==> unchanged(this)
      ensures !Running() && (old(Running()) ==> Stopped())
    {
      if pollData != null {
        // writing EXIT and joining the loop thread are one step here
        hostRef := false;
        pollData := null;
        watchData := null;
        pollDataSize := 0;
        pollMemberCount := 0;
        // both ends of the socket pair are shut down
        control := [];
        controlFdW, controlFdR := 0, 0;
      }
    }

    /** isEventLoopRunningNative. */
    method IsRunning() returns (running: bool)
      ensures running <==> pollData != null
    {
      running := pollData != null;
    }
  }
}
