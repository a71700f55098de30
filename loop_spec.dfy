/**
 * What one pass of the event loop does to the watch table and the control
 * stream, as functions: draining the control socket, and the readiness scan
 * that handles at most one ready non-control slot.
 */
module LoopSpec {
  import opened Basics
  import opened Flags
  import opened WatchTable
  import opened ControlProtocol

  /**
   * ADD and REMOVE applied to the live slots; EXIT leaves them alone. Slot 0
   * stays in place unless the command is a REMOVE naming its own pair.
   */
  function ApplyCommand(t: seq<Slot>, c: Command): (r: seq<Slot>)
    ensures c.Exit? ==> r == t
    ensures |t| > 0 && (c.Remove? ==> !Matches(t[0], c.fd, PollEventsFor(c.flags))) ==> |r| > 0 && r[0] == t[0]
  {
    match c
    case Exit => t
    case Add(fd, flags, watch) => AddEntry(t, fd, PollEventsFor(flags), watch)
    case Remove(fd, flags) => RemoveEntry(t, fd, PollEventsFor(flags))
  }

  datatype DrainResult = DrainResult(table: seq<Slot>, rest: seq<byte>, exited: bool)

  /**
   * The drain loop: read commands off the stream until it is empty, applying
   * ADD and REMOVE as they come; an EXIT ends the drain and the thread. A
   * command whose fields have not all arrived is left on the stream (the
   * source blocks in read() until the writer completes it).
   */
  function Drain(t: seq<Slot>, s: seq<byte>): (r: DrainResult)
    ensures |r.rest| <= |s|
    ensures |r.rest| == |s| ==> r.table == t && r.rest == s && !r.exited
    ensures !r.exited ==> r.rest == [] || NextCommand(r.rest).Partial?
    decreases |s|
  {
    match NextCommand(s)
    case End => DrainResult(t, s, false)
    case Partial => DrainResult(t, s, false)
    case Unknown => Drain(t, s[1..])
    case Complete(c, n) =>
      if c.Exit? then DrainResult(t, s[n..], true)
      else Drain(ApplyCommand(t, c), s[n..])
  }

  datatype RunResult = RunResult(table: seq<Slot>, exited: bool, unread: seq<Command>)

  /**
   * Applying commands directly, in order, up to the first EXIT. The run exits
   * iff an EXIT was written; then exactly the commands after the first EXIT
   * are left unapplied, and otherwise none are.
   */
  function Run(t: seq<Slot>, cs: seq<Command>): (r: RunResult)
    ensures r.exited <==> Exit in cs
    ensures !r.exited ==> r.unread == []
    ensures r.exited ==>
      var k := |cs| - |r.unread| - 1;
      && 0 <= k < |cs| && cs[k].Exit? && Exit !in cs[..k] && r.unread == cs[k + 1..]
    decreases |cs|
  {
    if cs == [] then RunResult(t, false, [])
    else if cs[0].Exit? then RunResult(t, true, cs[1..])
    else Run(ApplyCommand(t, cs[0]), cs[1..])
  }

  /**
   * Draining the bytes of any sequence of written commands applies them in
   * write order: the table is that of applying them directly, the loop exits
   * exactly when an EXIT was written, and the bytes after the first EXIT are
   * left unread.
   */
  lemma {:induction false} DrainEncoded(t: seq<Slot>, cs: seq<Command>)
    ensures var r := Run(t, cs);
      Drain(t, EncodeAll(cs)) == DrainResult(r.table, EncodeAll(r.unread), r.exited)
    ensures Drain(t, EncodeAll(cs)).exited <==> Exit in cs
    decreases |cs|
  {
    if cs != [] {
      var c := cs[0];
      NextCommandOfEncode(c, EncodeAll(cs[1..]));
      assert EncodeAll(cs) == Encode(c) + EncodeAll(cs[1..]);
      if !c.Exit? {
        DrainEncoded(ApplyCommand(t, c), cs[1..]);
        assert Exit in cs <==> Exit in cs[1..] by {
          assert cs == [c] + cs[1..];
        }
      }
    }
  }

  /** Commands written on top of a drained stream are drained next, after what was already applied. */
  lemma {:induction false} DrainAppend(t: seq<Slot>, xs: seq<Command>, ys: seq<Command>)
    requires Exit !in xs
    ensures Drain(t, EncodeAll(xs + ys)).table == Run(Run(t, xs).table, ys).table
  {
    EncodeAllAppend(xs, ys);
    DrainEncoded(t, xs + ys);
    RunAppend(t, xs, ys);
  }

  lemma {:induction false} RunAppend(t: seq<Slot>, xs: seq<Command>, ys: seq<Command>)
    requires Exit !in xs
    ensures Run(t, xs + ys) == Run(Run(t, xs).table, ys)
    decreases |xs|
  {
    if xs == [] {
      assert xs + ys == ys;
    } else {
      assert (xs + ys)[0] == xs[0];
      assert (xs + ys)[1..] == xs[1..] + ys;
      assert xs == [xs[0]] + xs[1..];
      RunAppend(ApplyCommand(t, xs[0]), xs[1..], ys);
    }
  }

  /** No REMOVE among the commands names the pair of this slot. */
  predicate SparesSlot(cs: seq<Command>, slot: Slot)
  {
    forall k :: 0 <= k < |cs| && cs[k].Remove? ==> !Matches(slot, cs[k].fd, PollEventsFor(cs[k].flags))
  }

  /** Applying commands whose REMOVEs spare slot 0 keeps slot 0 where it is. */
  lemma {:induction false} RunKeepsSlotZero(t: seq<Slot>, cs: seq<Command>)
    requires |t| > 0 && SparesSlot(cs, t[0])
    ensures |Run(t, cs).table| > 0 && Run(t, cs).table[0] == t[0]
    decreases |cs|
  {
    if cs != [] && !cs[0].Exit? {
      var t' := ApplyCommand(t, cs[0]);
      assert |t'| > 0 && t'[0] == t[0];
      assert SparesSlot(cs[1..], t'[0]) by {
        forall k | 0 <= k < |cs[1..]| && cs[1..][k].Remove?
          ensures !Matches(t'[0], cs[1..][k].fd, PollEventsFor(cs[1..][k].flags))
        {
          assert cs[1..][k] == cs[k + 1];
        }
      }
      RunKeepsSlotZero(t', cs[1..]);
    }
  }

  /**
   * The control slot survives a drain: as long as no written REMOVE names
   * its pair, slot 0 is the same slot afterwards.
   */
  lemma DrainKeepsSlotZero(t: seq<Slot>, cs: seq<Command>)
    requires |t| > 0 && SparesSlot(cs, t[0])
    ensures |Drain(t, EncodeAll(cs)).table| > 0 && Drain(t, EncodeAll(cs)).table[0] == t[0]
  {
    DrainEncoded(t, cs);
    RunKeepsSlotZero(t, cs);
  }

  /** The lowest index at or after i whose slot has readiness pending. */
  function FirstReadyFrom(t: seq<Slot>, i: nat): (r: Option<nat>)
    ensures r.Some? ==> i <= r.value < |t| && t[r.value].poll.revents != 0
    ensures r.Some? ==> forall k :: i <= k < r.value ==> t[k].poll.revents == 0
    ensures r.None? <==> forall k :: i <= k < |t| ==> t[k].poll.revents == 0
    decreases |t| - i
  {
    if i >= |t| then None
    else if t[i].poll.revents != 0 then Some(i)
    else FirstReadyFrom(t, i + 1)
  }

  datatype ScanOutcome =
    | NoneReady
    | ControlExit
    /**
     * The slot handed over, its watch and revents; `passed` is the flags
     * argument dbus_watch_handle receives as the scan is written (the revents
     * themselves), `intended` the watch flags they translate to.
     */
    | Handled(slot: nat, watch: WatchRef, event: bv16, passed: bv32, intended: bv32)

  /**
   * What poll() leaves in the live slots: each slot's revents replaced by the
   * kernel's report. poll() is outside the model, so this states its effect
   * directly, slot by slot.
   */
  function WithReadiness(t: seq<Slot>, ready: seq<bv16>): (r: seq<Slot>)
    requires |ready| == |t|
    ensures |r| == |t|
    ensures forall k :: 0 <= k < |t| ==> r[k] == t[k].(poll := t[k].poll.(revents := ready[k]))
  {
    seq(|t|, k requires 0 <= k < |t| => t[k].(poll := t[k].poll.(revents := ready[k])))
  }

  datatype ScanResult = ScanResult(table: seq<Slot>, rest: seq<byte>, outcome: ScanOutcome)

  function ClearRevents(t: seq<Slot>, k: nat): seq<Slot>
    requires k < |t|
  {
    t[k := t[k].(poll := t[k].poll.(revents := 0))]
  }

  /**
   * The `for` loop of one pass, from index i: skip slots with no readiness;
   * a ready control slot is drained (the table may change under the scan) and
   * the scan goes on; the first ready non-control slot is handed to libdbus,
   * its revents cleared, and the scan stops.
   */
  function ScanFrom(t: seq<Slot>, s: seq<byte>, ctl: int32, i: nat): (r: ScanResult)
    ensures |r.rest| <= |s|
    ensures r.outcome.Handled? ==> i <= r.outcome.slot < |r.table|
    decreases |s|, |t| - i
  {
    if i >= |t| then ScanResult(t, s, NoneReady)
    else if t[i].poll.revents == 0 then ScanFrom(t, s, ctl, i + 1)
    else if t[i].poll.fd == ctl then
      var d := Drain(t, s);
      if d.exited then ScanResult(d.table, d.rest, ControlExit)
      else ScanFrom(d.table, d.rest, ctl, i + 1)
    else ScanResult(ClearRevents(t, i), s, Handled(i, t[i].watch, t[i].poll.revents, HandlerFlagsAsWritten(t[i].poll.revents), HandlerFlags(t[i].poll.revents)))
  }

  /** No slot at or after i is the control descriptor with readiness pending. */
  predicate NoReadyControlFrom(t: seq<Slot>, ctl: int32, i: nat)
  {
    forall k :: i <= k < |t| && t[k].poll.revents != 0 ==> t[k].poll.fd != ctl
  }

  /**
   * When no ready control slot lies at or after i, the scan handles exactly the
   * lowest-index ready slot, clears only its revents and leaves the stream
   * untouched; with no ready slot it changes nothing.
   */
  lemma {:induction false} ScanHandlesFirstReady(t: seq<Slot>, s: seq<byte>, ctl: int32, i: nat)
    requires NoReadyControlFrom(t, ctl, i)
    ensures ScanFrom(t, s, ctl, i) ==
      match FirstReadyFrom(t, i)
      case None => ScanResult(t, s, NoneReady)
      case Some(k) => ScanResult(ClearRevents(t, k), s, Handled(k, t[k].watch, t[k].poll.revents, HandlerFlagsAsWritten(t[k].poll.revents), HandlerFlags(t[k].poll.revents)))
    decreases |t| - i
  {
    if i < |t| && t[i].poll.revents == 0 {
      ScanHandlesFirstReady(t, s, ctl, i + 1);
    }
  }

  /**
   * The usual shape of a pass: the control slot comes first and is ready. It
   * is drained, then (unless EXIT was read) the first ready slot after it in
   * the updated table is handled, provided the drain left no other ready
   * control slot.
   */
  lemma ScanAfterControl(t: seq<Slot>, s: seq<byte>, ctl: int32)
    requires |t| > 0 && t[0].poll.fd == ctl && t[0].poll.revents != 0
    requires NoReadyControlFrom(Drain(t, s).table, ctl, 1)
    ensures var d := Drain(t, s);
      ScanFrom(t, s, ctl, 0) ==
        if d.exited then ScanResult(d.table, d.rest, ControlExit)
        else match FirstReadyFrom(d.table, 1)
          case None => ScanResult(d.table, d.rest, NoneReady)
          case Some(k) => ScanResult(ClearRevents(d.table, k), d.rest, Handled(k, d.table[k].watch, d.table[k].poll.revents, HandlerFlagsAsWritten(d.table[k].poll.revents), HandlerFlags(d.table[k].poll.revents)))
  {
    var d := Drain(t, s);
    if !d.exited {
      ScanHandlesFirstReady(d.table, d.rest, ctl, 1);
    }
  }

  /**
   * A handled slot always had readiness, is not the control slot, carries the
   * reported watch and ends with its revents cleared; the scan reports the
   * raw revents as the argument passed and their translation as the intended one.
   */
  lemma {:induction false} ScanHandledSlot(t: seq<Slot>, s: seq<byte>, ctl: int32, i: nat)
    ensures var r := ScanFrom(t, s, ctl, i);
      r.outcome.Handled? ==>
        && r.outcome.event != 0
        && r.table[r.outcome.slot].poll.revents == 0
        && r.table[r.outcome.slot].poll.fd != ctl
        && r.table[r.outcome.slot].watch == r.outcome.watch
        && r.outcome.passed == HandlerFlagsAsWritten(r.outcome.event)
        && r.outcome.intended == HandlerFlags(r.outcome.event)
    decreases |s|, |t| - i
  {
    if i < |t| {
      if t[i].poll.revents == 0 {
        ScanHandledSlot(t, s, ctl, i + 1);
      } else if t[i].poll.fd == ctl {
        var d := Drain(t, s);
        if !d.exited {
          ScanHandledSlot(d.table, d.rest, ctl, i + 1);
        }
      }
    }
  }
}
