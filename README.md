# Bluetooth event loop: a Dafny model

This project models the native event loop behind Android's Bluetooth
`EventLoop` class, in `core/jni/android_server_BluetoothEventLoop.cpp`.
A dedicated thread polls every file descriptor libdbus asks it to watch.
The libdbus watch callbacks run on other threads. They never touch the
poll table themselves. Instead they write small commands into one end of a
socket pair (`controlFdW`). The loop thread drains the other end
(`controlFdR`), which sits in slot 0 of its own poll table, and applies the
commands.

The model covers:

- **The watch table** (`EventLoop.EventLoopNativeData`). This class holds the
  fields of `native_data_t` that the loop updates in place:
  - the parallel arrays `pollData` (`struct pollfd`) and `watchData`
    (`DBusWatch *`);
  - the live count `pollMemberCount` and the capacity `pollDataSize`;
  - the two socket ends;
  - whether the global reference to the host object is held;
  - the bytes pending on the control socket.

  `handleWatchAdd` and `handleWatchRemove` are array methods. They are
  proved against the value-level table functions of module `WatchTable`:
  `FindEntry`, `AddEntry` (duplicate add is a no-op) and `RemoveEntry`
  (swap-remove of the first match).
- **The control protocol** (`ControlProtocol`). The three watch callbacks
  write a tag byte and then 4-byte fields: the fd as a C `int`, the flags as
  an `unsigned int` and the watch as a 32-bit pointer. The wire format is
  modelled byte by byte, with a reader (`NextCommand`) that is proved to
  invert the writer.
- **The loop thread** (`LoopSpec`, with `DrainControl` and `ScanOnce`):
  - the inner drain of the control socket;
  - one pass of the readiness scan. A ready control slot is drained and the
    scan goes on. The first other ready slot is handed to libdbus and the
    pass ends there.
- **Flag translation** (`Flags`) between libdbus watch flags and poll(2)
  event bits.
- **The lifecycle**: start, stop and is-running, including every failure
  path of start.
- **Pairing-reply results** (`PairingResults`):
  - the D-Bus error name (and message) to bond-result-code mapping;
  - the -2 rule for service-channel replies.

Inputs the code gets from the outside world become method parameters:
- the outcomes of `malloc` and `socketpair`;
- the result of `setUpEventLoop`;
- the readiness that `poll()` reports.

Module `Scenarios` holds client methods. They chain the contracts through a
start, a doubled registration, a wake-up by the control socket and the
dispatch of a ready descriptor.

## Model

| member | source | states |
|---|---|---|
| Flags.PollEventsFor | core/jni/android_server_BluetoothEventLoop.cpp:411-412 | the interest mask has POLLIN iff the flags have READABLE, POLLOUT iff WRITABLE, and no other bit |
| Flags.WatchFlagsFor | core/jni/android_server_BluetoothEventLoop.cpp:521-523 | the reverse translation: READABLE iff POLLIN, WRITABLE iff POLLOUT, no other flag |
| Flags.FlagsRoundTrip | core/jni/android_server_BluetoothEventLoop.cpp:411-412 | flags → events → flags keeps exactly the READABLE and WRITABLE bits |
| Flags.EventsRoundTrip | core/jni/android_server_BluetoothEventLoop.cpp:521-523 | events → flags → events keeps exactly the POLLIN and POLLOUT bits |
| Flags.TranslationsInverse | core/jni/android_server_BluetoothEventLoop.cpp:411-412 | on the bits both sides share, the two translations are mutual inverses |
| Flags.HandlerFlagsAsWritten | core/jni/android_server_BluetoothEventLoop.cpp:521-524 | what the handler receives as written: the `short` revents sign-extended into the `unsigned int` flags argument, so the low 16 bits are the poll bits and the high 16 copy bit 15 |
| Flags.WritableReportedAsError | core/jni/android_server_BluetoothEventLoop.cpp:521-524 | as written, POLLOUT readiness reaches libdbus as DBUS_WATCH_ERROR and without WRITABLE |
| Flags.HandlerFlags | core/jni/android_server_BluetoothEventLoop.cpp:521-524 | corrected: the handler gets only READABLE/WRITABLE, WRITABLE iff POLLOUT, READABLE iff POLLIN |
| Flags.WritableReportedAsWritable | core/jni/android_server_BluetoothEventLoop.cpp:521-524 | corrected: POLLOUT is reported as WRITABLE, and no readiness is ever reported as ERROR or HANGUP |
| WatchTable.Zip | core/jni/android_server_BluetoothEventLoop.cpp:403-472 | slot i of the table is pollData[i] paired with watchData[i] |
| WatchTable.FindEntry | core/jni/android_server_BluetoothEventLoop.cpp:414-420 | the first index whose fd and events both match; None iff no slot matches |
| WatchTable.AddEntry | core/jni/android_server_BluetoothEventLoop.cpp:414-447 | the model of handleWatchAdd on the slots: a pair already present leaves the table unchanged; a new pair is appended with revents 0 and everything before it kept; slot 0 never moves |
| WatchTable.AddEntryIdempotent | core/jni/android_server_BluetoothEventLoop.cpp:414-420 | adding the same (fd, events) twice equals adding it once, whatever the second watch handle |
| WatchTable.AddEntryKeepsNoDuplicates | core/jni/android_server_BluetoothEventLoop.cpp:414-447 | adding never creates two slots with the same (fd, events) |
| WatchTable.RemoveEntry | core/jni/android_server_BluetoothEventLoop.cpp:459-471 | the model of handleWatchRemove on the slots: no match leaves the table alone; a match loses one slot, the old last slot moves into the gap and every other slot stays; a slot 0 that does not match stays in place |
| WatchTable.RemoveEntryMultiset | core/jni/android_server_BluetoothEventLoop.cpp:459-471 | removing a present pair takes exactly that slot out of the multiset of slots |
| WatchTable.SwapRemoveMultiset | core/jni/android_server_BluetoothEventLoop.cpp:462-467 | overwriting slot y with the last slot and dropping the last loses exactly the element at y |
| WatchTable.RemoveEntryRetires | core/jni/android_server_BluetoothEventLoop.cpp:459-471 | in a duplicate-free table, a removed pair is gone afterwards and no duplicate appears |
| WatchTable.SwapRemovedGone | core/jni/android_server_BluetoothEventLoop.cpp:462-467 | in a duplicate-free table, no slot left after a swap-remove carries the removed pair |
| WatchTable.SwapRemovedNoDuplicates | core/jni/android_server_BluetoothEventLoop.cpp:462-467 | a swap-remove keeps a duplicate-free table duplicate-free |
| WatchTable.RemoveUndoesAdd | core/jni/android_server_BluetoothEventLoop.cpp:403-471 | removing a pair just added to a table without it gives back the original table |
| WatchTable.ControlSlotRemovable | core/jni/android_server_BluetoothEventLoop.cpp:459-467 | nothing guards slot 0: a REMOVE naming the control pair in a two-slot table moves the other watch into slot 0 |
| ControlProtocol.UintRoundTrip | core/jni/android_server_BluetoothEventLoop.cpp:370-378 | the 4 little-endian bytes of an unsigned 32-bit value read back as that value |
| ControlProtocol.WordRoundTrip | core/jni/android_server_BluetoothEventLoop.cpp:373-378 | a flags word or pointer written as 4 bytes reads back unchanged |
| ControlProtocol.Int32RoundTrip | core/jni/android_server_BluetoothEventLoop.cpp:370-371 | a C int written as its two's-complement bytes reads back as the same int |
| ControlProtocol.Int32Bits | core/jni/android_server_BluetoothEventLoop.cpp:370-371 | the bit pattern of an int is an unsigned 32-bit value |
| ControlProtocol.Encode | core/jni/android_server_BluetoothEventLoop.cpp:356-392 | EXIT is 1 byte, ADD 13 and REMOVE 9, and each starts with its tag 1, 2 or 3 |
| ControlProtocol.EncodeOne | core/jni/android_server_BluetoothEventLoop.cpp:360-392 | the bytes written for a single command are that command's encoding |
| ControlProtocol.EncodeAll | core/jni/android_server_BluetoothEventLoop.cpp:360-401 | commands written one after another: bytes are written iff some command is, and the reader finds the first command at the head |
| ControlProtocol.NextCommand | core/jni/android_server_BluetoothEventLoop.cpp:496-518 | the reader sees end of stream iff nothing is pending, an ignored byte iff the tag is not 1, 2 or 3, and never consumes more than is pending |
| ControlProtocol.NextCommandOfEncode | core/jni/android_server_BluetoothEventLoop.cpp:360-410 | reading back a written command, whatever follows it, gives that command and consumes exactly its bytes |
| ControlProtocol.AddWatchCommands | core/jni/android_server_BluetoothEventLoop.cpp:360-380 | an enabled watch writes 13 bytes that read back as ADD(fd, flags, handle); a disabled one writes nothing |
| ControlProtocol.RemoveWatchCommands | core/jni/android_server_BluetoothEventLoop.cpp:382-393 | REMOVE is always written, enabled or not: 9 bytes with tag 3 that read back as REMOVE(fd, flags) |
| ControlProtocol.ToggleWatchCommands | core/jni/android_server_BluetoothEventLoop.cpp:395-401 | toggle writes exactly one command: ADD when enabled, REMOVE otherwise |
| ControlProtocol.EncodeAllAppend | core/jni/android_server_BluetoothEventLoop.cpp:360-393 | the bytes of two command sequences written in turn are the bytes of their concatenation |
| LoopSpec.ApplyCommand | core/jni/android_server_BluetoothEventLoop.cpp:499-517 | EXIT leaves the table alone, and slot 0 stays in place unless the command is a REMOVE naming its pair |
| LoopSpec.Drain | core/jni/android_server_BluetoothEventLoop.cpp:496-518 | the drain never grows the stream; if it consumes nothing, nothing changes; unless EXIT was read it stops only at an empty stream or a command not yet fully written |
| LoopSpec.DrainEncoded | core/jni/android_server_BluetoothEventLoop.cpp:496-518 | draining any written command sequence applies the commands in write order up to the first EXIT, exits iff an EXIT was written, and leaves the bytes after it unread |
| LoopSpec.DrainAppend | core/jni/android_server_BluetoothEventLoop.cpp:496-518 | commands written after an EXIT-free batch are applied to the table that batch left |
| LoopSpec.RunAppend | core/jni/android_server_BluetoothEventLoop.cpp:496-518 | applying an EXIT-free batch and then more commands equals applying the concatenation |
| LoopSpec.Run | core/jni/android_server_BluetoothEventLoop.cpp:496-518 | in-order application exits iff an EXIT was written; it then leaves exactly the commands after the first EXIT unapplied, and otherwise none |
| LoopSpec.RunKeepsSlotZero | core/jni/android_server_BluetoothEventLoop.cpp:496-518 | applying commands whose REMOVEs never name slot 0's pair keeps slot 0 in place |
| LoopSpec.DrainKeepsSlotZero | core/jni/android_server_BluetoothEventLoop.cpp:494-519 | the control slot survives a drain of written commands whose REMOVEs never name its pair |
| LoopSpec.FirstReadyFrom | core/jni/android_server_BluetoothEventLoop.cpp:490-493 | the lowest index at or after i with revents set; None iff there is none |
| LoopSpec.WithReadiness | core/jni/android_server_BluetoothEventLoop.cpp:534 | poll() replaces each live slot's revents by the kernel's report and changes nothing else |
| LoopSpec.ScanFrom | core/jni/android_server_BluetoothEventLoop.cpp:490-528 | a pass from index i never grows the stream, and a handled slot lies at or after i within the table |
| LoopSpec.ScanHandlesFirstReady | core/jni/android_server_BluetoothEventLoop.cpp:490-528 | with no ready control slot ahead, a pass handles exactly the first ready slot, clears only its revents and leaves the stream alone; with none ready it changes nothing |
| LoopSpec.ScanAfterControl | core/jni/android_server_BluetoothEventLoop.cpp:490-528 | a ready control slot 0 is drained first; then the pass exits on EXIT or else handles the first ready slot of the updated table |
| LoopSpec.ScanHandledSlot | core/jni/android_server_BluetoothEventLoop.cpp:519-527 | a handled slot had readiness, is not the control slot, carries the reported watch and ends with revents 0; the outcome records the raw revents as the argument passed to dbus_watch_handle and their translation as the intended one |
| EventLoop.MemCopy | core/jni/android_server_BluetoothEventLoop.cpp:428-438 | the first n elements of the new array are those of the old one, and the rest stay as they were |
| EventLoop.EventLoopNativeData.constructor | core/jni/android_server_BluetoothEventLoop.cpp:97-105 | the calloc'd state: no table, no sockets, no host reference |
| EventLoop.EventLoopNativeData.FindSlot | core/jni/android_server_BluetoothEventLoop.cpp:414-420 | the search loop returns exactly FindEntry of the live slots |
| EventLoop.EventLoopNativeData.HandleWatchAdd | core/jni/android_server_BluetoothEventLoop.cpp:403-448 | a duplicate leaves all unchanged; otherwise the pair is appended, growing a full table by one slot; a failed first malloc changes nothing and keeps both arrays; a failed second malloc installs a fresh pollData one slot longer but keeps watchData, the capacity and the slots; with successful allocation the slots are AddEntry of the old slots |
| EventLoop.EventLoopNativeData.Grow | core/jni/android_server_BluetoothEventLoop.cpp:421-440 | live slots are preserved; capacity grows by one iff both mallocs succeed; a failed first malloc keeps both arrays; a failed second one replaces only pollData, with a block one slot longer |
| EventLoop.EventLoopNativeData.AppendSlot | core/jni/android_server_BluetoothEventLoop.cpp:442-447 | the new pollfd/watch pair becomes the last live slot; earlier slots and the arrays stay |
| EventLoop.EventLoopNativeData.HandleWatchRemove | core/jni/android_server_BluetoothEventLoop.cpp:450-472 | the slots become RemoveEntry of the old slots, in the same arrays and with the same capacity |
| EventLoop.EventLoopNativeData.MoveLastInto | core/jni/android_server_BluetoothEventLoop.cpp:462-467 | slot y takes the last live slot's contents and the live count drops by one |
| EventLoop.EventLoopNativeData.DrainControl | core/jni/android_server_BluetoothEventLoop.cpp:494-519 | table, remaining stream and exit flag are those of Drain on the old table and stream |
| EventLoop.EventLoopNativeData.Apply | core/jni/android_server_BluetoothEventLoop.cpp:508-517 | an ADD or REMOVE read off the stream changes the slots to ApplyCommand of the old slots |
| EventLoop.EventLoopNativeData.ScanOnce | core/jni/android_server_BluetoothEventLoop.cpp:489-529 | table, remaining stream and outcome (exit, handled slot, or nothing ready) are those of ScanFrom from index 0 |
| EventLoop.EventLoopNativeData.ServiceControl | core/jni/android_server_BluetoothEventLoop.cpp:494-519 | a ready control slot is drained; the pass then ends on EXIT or goes on after that slot exactly as ScanFrom does |
| EventLoop.EventLoopNativeData.HandOver | core/jni/android_server_BluetoothEventLoop.cpp:520-527 | a ready non-control slot ends the pass exactly as ScanFrom does: its watch and revents are reported and its revents cleared |
| EventLoop.EventLoopNativeData.ReportReadiness | core/jni/android_server_BluetoothEventLoop.cpp:534 | the live slots become WithReadiness of the old slots |
| EventLoop.EventLoopNativeData.AddWatch | core/jni/android_server_BluetoothEventLoop.cpp:360-380 | returns true, and appends to the control stream exactly the bytes of the watch's ADD (none when disabled) |
| EventLoop.EventLoopNativeData.RemoveWatch | core/jni/android_server_BluetoothEventLoop.cpp:382-393 | appends exactly the bytes of a REMOVE(fd, flags) |
| EventLoop.EventLoopNativeData.ToggleWatch | core/jni/android_server_BluetoothEventLoop.cpp:395-401 | appends exactly the bytes of ADD when enabled, REMOVE otherwise |
| EventLoop.EventLoopNativeData.Start | core/jni/android_server_BluetoothEventLoop.cpp:539-613 | a second start returns false and changes nothing; otherwise it succeeds iff both mallocs, socketpair and setUpEventLoop succeed; success leaves the control slot (controlFdR, POLLIN) as the one live slot of 8, with the host reference held; any failure leaves the stopped state |
| EventLoop.EventLoopNativeData.Stop | core/jni/android_server_BluetoothEventLoop.cpp:615-640 | afterwards the loop is not running; stopping a running loop leaves the stopped state; stopping a stopped loop changes nothing |
| EventLoop.EventLoopNativeData.IsRunning | core/jni/android_server_BluetoothEventLoop.cpp:642-655 | true iff pollData is allocated |
| PairingResults.CreatePairedDeviceResult | core/jni/android_server_BluetoothEventLoop.cpp:894-951 | no error means success; each BlueZ error name maps to its code; InProgress depends on the message; any other error gives -1000; the host is not called iff the error is InProgress with "Bonding in progress" |
| PairingResults.PairedResultCodes | core/jni/android_server_BluetoothEventLoop.cpp:886-951 | every code passed on is one of the seven; each specific failure code comes only from its own error name |
| PairingResults.ServiceChannelResult | core/jni/android_server_BluetoothEventLoop.cpp:953-982 | the channel is -2 iff the reply is an error, has no INT32 argument, or carries -2; otherwise it is the carried channel |

## Left out

- Threads, `pthread_mutex` and `pthread_join` are not modelled. Each operation runs as one atomic step on the shared state. The lock in start, stop and is-running is what makes this hold for those operations. The four separate `write()` calls of a callback are not atomic, and interleaving across threads is not modelled.
- JNI, the entry points that only call into JNI or libdbus, and the message filters are not modelled: `classInitNative`, `initializeNativeDataNative` beyond its zeroed state, `cleanupNativeDataNative`, `setUpEventLoop`, `tearDownEventLoop`, `event_filter`, `agent_event_filter`, agent registration and adapter-path lookup. `setUpEventLoop` becomes a boolean input to `Start`.
- `dbus_watch_handle` and `dbus_connection_dispatch` are foreign calls. Instead of calling `dbus_watch_handle`, the scan reports the watch, its raw revents and the flags argument the source passes (the revents themselves, `passed`), along with the translated flags the corrected code would pass (`intended`); see Findings. The dispatch loop after the scan is left out.
- `poll()` blocks and is not modelled as such. `ReportReadiness` takes the kernel's readiness report as an input.
- EventLoop.EventLoopNativeData.DrainControl: the growth mallocs inside a drained ADD are taken to succeed. `HandleWatchAdd` itself models both failure modes.
- A command whose bytes have not all arrived would make the source block in `read()` until the writer finishes. The model's drain stops and leaves those bytes pending. Writers in the model always append whole commands, so this never arises between operations.
- EventLoop.EventLoopNativeData.Stop: the EXIT byte, the loop thread's reaction to it and the join are collapsed into one step. Its contract states the state after the join, not the thread's teardown.
- EventLoop.EventLoopNativeData.HandleWatchRemove: the method's contract ties the new slots to `RemoveEntry`. The slot-level and count facts are stated once, in `WatchTable.RemoveEntry`'s own contract, and the multiset fact in `WatchTable.RemoveEntryMultiset`.
- Constants come from headers that are not part of this model:
  - POLLIN = 1 and POLLOUT = 4 (Linux `poll.h`);
  - DBUS_WATCH_READABLE/WRITABLE/ERROR/HANGUP = 1/2/4/8 (libdbus);
  - DEFAULT_INITIAL_POLLFD_COUNT = 8 and BLUEZ_DBUS_BASE_IFC = "org.bluez" (`android_bluetooth_common.h`).

  No proof depends on the value 8.
- Pointers are taken to be 4 bytes and byte order little-endian, as on the 32-bit ARM targets of this code. Writer and reader are the same process, so only the round trip matters.
- Memory freeing and `shutdown()` are not modelled as separate effects. After a stop or a failed start, the pending control bytes are dropped and both descriptors read 0.
- The control slot's revents are not cleared after a drain, as in the source. The next `poll()` overwrites them.
- Nothing in the source keeps the control socket in slot 0: a REMOVE naming (controlFdR, POLLIN) would take it out and move another watch into its place (`WatchTable.ControlSlotRemovable`). libdbus never registers that descriptor, so the model proves slot 0 survives only for command streams that spare it (`LoopSpec.DrainKeepsSlotZero`).

## Findings

| source | as written | input that shows it | evidently intended | confidence | as-written member | corrected member |
|---|---|---|---|---|---|---|
| core/jni/android_server_BluetoothEventLoop.cpp:521-524 | the scan computes the translated `flags`, then passes the raw poll `revents` to `dbus_watch_handle`, which expects DBUS_WATCH_* flags | `revents = POLLOUT` (4) reaches libdbus as 4 = DBUS_WATCH_ERROR, with WRITABLE clear | pass `flags`, so POLLOUT reads as DBUS_WATCH_WRITABLE; the scan's outcome carries both (`passed`, `intended`) | high; not executed | Flags.HandlerFlagsAsWritten, Flags.WritableReportedAsError | Flags.HandlerFlags, Flags.WritableReportedAsWritable |
