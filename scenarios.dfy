/**
 * Clients of the event-loop state: what a caller can conclude from the
 * contracts alone.
 */
module Scenarios {
  import opened Basics
  import opened Flags
  import opened WatchTable
  import opened ControlProtocol
  import opened LoopSpec
  import opened EventLoop

  /** A second start is refused, stop ends the loop, and a second stop is a no-op. */
  method ExclusiveStart()
  {
    var data := new EventLoopNativeData();
    var started := data.Start(true, true, Some((20, 21)), true);
    assert started && data.Slots() == [Slot(PollFd(20, POLLIN, 0), NULL_WATCH)];
    var again := data.Start(true, true, Some((22, 23)), true);
    assert !again && data.controlFdR == 20;
    data.Stop();
    var running := data.IsRunning();
    assert !running;
    data.Stop();
    running := data.IsRunning();
    assert !running;
  }

  /** A failed setUpEventLoop leaves the loop stopped, and a later start can succeed. */
  method FailedStart()
  {
    var data := new EventLoopNativeData();
    var started := data.Start(true, true, Some((20, 21)), false);
    assert !started && data.Stopped();
    started := data.Start(true, true, Some((20, 21)), true);
    assert started;
  }

  /** libdbus registers descriptor 7 for reading twice: two ADD commands are written. */
  method RegisterTwice(data: EventLoopNativeData)
    requires data.Valid() && data.Running() && data.control == []
    modifies data
  {
    var w := DBusWatch(0x1000, 7, DBUS_WATCH_READABLE, true);
    var add := Add(7, DBUS_WATCH_READABLE, 0x1000);
    var _ := data.AddWatch(w);
    var _ := data.AddWatch(w);
    assert data.control == EncodeAll([add, add]) by {
      assert AddWatchCommands(w) == [add];
      EncodeAllAppend([add], [add]);
    }
  }

  /**
   * With both ADD commands pending, the control socket wakes the loop: the
   * drain registers descriptor 7 once and nothing else is ready. Then
   * descriptor 7 wakes it and is handed to libdbus.
   */
  method Dispatch(data: EventLoopNativeData)
    requires data.Valid() && data.Running() && data.controlFdR == 20
    requires data.Slots() == [Slot(PollFd(20, POLLIN, 0), NULL_WATCH)]
    requires data.control == EncodeAll([Add(7, DBUS_WATCH_READABLE, 0x1000), Add(7, DBUS_WATCH_READABLE, 0x1000)])
    modifies data, data.pollData, data.watchData
  {
    var add := Add(7, DBUS_WATCH_READABLE, 0x1000);
    var s := data.control;
    // poll() reports the control socket readable
    data.ReportReadiness([POLLIN]);
    var t := data.Slots();
    assert t == [Slot(PollFd(20, POLLIN, POLLIN), NULL_WATCH)];
    var fd7 := Slot(PollFd(7, POLLIN, 0), 0x1000);
    var t2 := t + [fd7];
    assert Drain(t, s) == DrainResult(t2, [], false) by {
      DrainEncoded(t, [add, add]);
      assert PollEventsFor(DBUS_WATCH_READABLE) == POLLIN;
      assert FindEntry(t, 7, POLLIN).None?;
      assert ApplyCommand(t, add) == t2;
      assert FindEntry(t2, 7, POLLIN) == Some(1);
      assert ApplyCommand(t2, add) == t2;
      assert Run(t2, []) == RunResult(t2, false, []);
      assert [add, add][1..] == [add] && [add][1..] == [];
      assert Run(t2, [add]) == Run(t2, []);
      assert EncodeAll([]) == [];
    }
    assert ScanFrom(t, s, 20, 0) == ScanResult(t2, [], NoneReady) by {
      assert NoReadyControlFrom(t2, 20, 1);
      ScanAfterControl(t, s, 20);
      assert FirstReadyFrom(t2, 1).None?;
    }
    var outcome := data.ScanOnce();
    assert outcome == NoneReady && data.Slots() == t2 && data.control == [];
  }

  /**
   * Descriptor 7 becomes readable: the pass hands it to libdbus with the
   * readable flag and clears its readiness; the control slot, idle, is untouched.
   */
  method HandleReadable(data: EventLoopNativeData)
    requires data.Valid() && data.Running() && data.controlFdR == 20
    requires data.Slots() == [Slot(PollFd(20, POLLIN, POLLIN), NULL_WATCH), Slot(PollFd(7, POLLIN, 0), 0x1000)]
    modifies data, data.pollData, data.watchData
  {
    data.ReportReadiness([0, POLLIN]);
    var t := data.Slots();
    assert t == [Slot(PollFd(20, POLLIN, 0), NULL_WATCH), Slot(PollFd(7, POLLIN, POLLIN), 0x1000)];
    ghost var s := data.control;
    assert ScanFrom(t, s, 20, 0) == ScanResult(ClearRevents(t, 1), s, Handled(1, 0x1000, POLLIN, DBUS_WATCH_READABLE, DBUS_WATCH_READABLE)) by {
      assert NoReadyControlFrom(t, 20, 0);
      ScanHandlesFirstReady(t, s, 20, 0);
      assert FirstReadyFrom(t, 0) == Some(1);
    }
    var outcome := data.ScanOnce();
    assert outcome == Handled(1, 0x1000, POLLIN, DBUS_WATCH_READABLE, DBUS_WATCH_READABLE);
    assert data.Slots()[1].poll.revents == 0;
  }
}
