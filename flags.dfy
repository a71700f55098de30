/**
 * Readiness-flag vocabularies and the two translations between them.
 * libdbus speaks DBUS_WATCH_* flags (an `unsigned int`), poll(2) speaks
 * POLL* event bits (a `short`).
 */
module Flags {

  // libdbus watch flags (bit 0 .. bit 3).
  const DBUS_WATCH_READABLE: bv32 := 1
  const DBUS_WATCH_WRITABLE: bv32 := 2
  const DBUS_WATCH_ERROR: bv32 := 4
  const DBUS_WATCH_HANGUP: bv32 := 8

  // Linux poll(2) event bits.
  const POLLIN: bv16 := 0x001
  const POLLOUT: bv16 := 0x004

  /** The interest mask a slot polls for, computed from a watch's flags. */
  function PollEventsFor(flags: bv32): (events: bv16)
    ensures (events & POLLIN != 0) <==> (flags & DBUS_WATCH_READABLE != 0)
    ensures (events & POLLOUT != 0) <==> (flags & DBUS_WATCH_WRITABLE != 0)
    ensures events & !(POLLIN | POLLOUT) == 0
  {
    (if flags & DBUS_WATCH_READABLE != 0 then POLLIN else 0)
      | (if flags & DBUS_WATCH_WRITABLE != 0 then POLLOUT else 0)
  }

  /** The watch flags that a slot's reported readiness stands for. */
  function WatchFlagsFor(events: bv16): (flags: bv32)
    ensures (flags & DBUS_WATCH_READABLE != 0) <==> (events & POLLIN != 0)
    ensures (flags & DBUS_WATCH_WRITABLE != 0) <==> (events & POLLOUT != 0)
    ensures flags & !(DBUS_WATCH_READABLE | DBUS_WATCH_WRITABLE) == 0
  {
    (if events & POLLIN != 0 then DBUS_WATCH_READABLE else 0)
      | (if events & POLLOUT != 0 then DBUS_WATCH_WRITABLE else 0)
  }

  /** From watch flags to poll events and back keeps exactly the READABLE and WRITABLE bits. */
  lemma FlagsRoundTrip(flags: bv32)
    ensures WatchFlagsFor(PollEventsFor(flags)) == flags & (DBUS_WATCH_READABLE | DBUS_WATCH_WRITABLE)
  {
  }

  /** From poll events to watch flags and back keeps exactly the POLLIN and POLLOUT bits. */
  lemma EventsRoundTrip(events: bv16)
    ensures PollEventsFor(WatchFlagsFor(events)) == events & (POLLIN | POLLOUT)
  {
  }

  /** On the values the two vocabularies share, the translations are mutually inverse. */
  lemma TranslationsInverse(flags: bv32, events: bv16)
    requires flags & !(DBUS_WATCH_READABLE | DBUS_WATCH_WRITABLE) == 0
    requires events & !(POLLIN | POLLOUT) == 0
    ensures WatchFlagsFor(PollEventsFor(flags)) == flags
    ensures PollEventsFor(WatchFlagsFor(events)) == events
  {
    FlagsRoundTrip(flags);
    EventsRoundTrip(events);
  }

  /**
   * What the readiness handler receives for a slot's revents as the scan is
   * written: the `short` revents sign-extended into an `int`, then passed as
   * the `unsigned int` flags argument. The low 16 bits are the poll bits; the
   * high 16 copy bit 15.
   */
  function HandlerFlagsAsWritten(revents: bv16): (flags: bv32)
    ensures flags & 0xFFFF == revents as bv32
    ensures flags >> 16 == if revents & 0x8000 == 0 then 0 else 0xFFFF
  {
    if revents & 0x8000 != 0 then revents as bv32 | 0xFFFF_0000 else revents as bv32
  }

  /** POLLOUT readiness reaches the handler as DBUS_WATCH_ERROR and without WRITABLE. */
  lemma WritableReportedAsError()
    ensures HandlerFlagsAsWritten(POLLOUT) & DBUS_WATCH_ERROR != 0
    ensures HandlerFlagsAsWritten(POLLOUT) & DBUS_WATCH_WRITABLE == 0
  {
  }

  /** What the handler is evidently meant to receive: the translated flags. */
  function HandlerFlags(revents: bv16): (flags: bv32)
    ensures flags & !(DBUS_WATCH_READABLE | DBUS_WATCH_WRITABLE) == 0
    ensures (flags & DBUS_WATCH_WRITABLE != 0) <==> (revents & POLLOUT != 0)
    ensures (flags & DBUS_WATCH_READABLE != 0) <==> (revents & POLLIN != 0)
  {
    WatchFlagsFor(revents)
  }

  /** With the translation, readiness is never reported as an error or a hang-up. */
  lemma WritableReportedAsWritable()
    ensures HandlerFlags(POLLOUT) == DBUS_WATCH_WRITABLE
    ensures forall e: bv16 :: HandlerFlags(e) & (DBUS_WATCH_ERROR | DBUS_WATCH_HANGUP) == 0
  {
  }
}
