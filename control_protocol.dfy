/**
 * The control channel: the byte stream of the socket pair that carries
 * EXIT, ADD and REMOVE commands from the D-Bus watch callbacks (any thread)
 * to the event-loop thread. A command is a tag byte followed by its fields,
 * each written as the raw bytes of a 32-bit value (int fd, unsigned int
 * flags, DBusWatch * on a 32-bit target). Reader and writer share one host,
 * so the byte order only has to agree with itself; little-endian is used.
 */
module ControlProtocol {
  import opened Basics

  const EVENT_LOOP_EXIT: byte := 1
  const EVENT_LOOP_ADD: byte := 2
  const EVENT_LOOP_REMOVE: byte := 3

  /** Bytes one command occupies on the stream. */
  const EXIT_SIZE: nat := 1
  const ADD_SIZE: nat := 13
  const REMOVE_SIZE: nat := 9

  datatype Command =
    | Exit
    | Add(fd: int32, flags: bv32, watch: WatchRef)
    | Remove(fd: int32, flags: bv32)

  /** What libdbus tells the callbacks about a watch. */
  datatype DBusWatch = DBusWatch(handle: WatchRef, fd: int32, flags: bv32, enabled: bool)

  /** The four bytes of an unsigned 32-bit value. */
  function UintBytes(u: nat): (b: seq<byte>)
    requires u < 0x1_0000_0000
    ensures |b| == 4
  {
    var q1 := u / 0x100;
    var q2 := q1 / 0x100;
    [u % 0x100, q1 % 0x100, q2 % 0x100, q2 / 0x100]
  }

  function BytesUint(b: seq<byte>): (u: nat)
    requires |b| == 4
    ensures u < 0x1_0000_0000
  {
    b[0] as int + 0x100 * (b[1] as int) + 0x1_0000 * (b[2] as int) + 0x100_0000 * (b[3] as int)
  }

  lemma UintRoundTrip(u: nat)
    requires u < 0x1_0000_0000
    ensures BytesUint(UintBytes(u)) == u
  {
    var q1 := u / 0x100;
    var q2 := q1 / 0x100;
    assert u == u % 0x100 + 0x100 * q1;
    assert q1 == q1 % 0x100 + 0x100 * q2;
    assert q2 == q2 % 0x100 + 0x100 * (q2 / 0x100);
  }

  function WordBytes(w: bv32): (b: seq<byte>)
    ensures |b| == 4
  {
    UintBytes(w as int)
  }

  function BytesWord(b: seq<byte>): bv32
    requires |b| == 4
  {
    BytesUint(b) as bv32
  }

  /** The two's-complement bit pattern of a C int, as an unsigned value. */
  function Int32Bits(x: int32): (u: nat)
    ensures u < 0x1_0000_0000
  {
    if x < 0 then x as int + 0x1_0000_0000 else x as int
  }

  function BitsInt32(u: nat): int32
    requires u < 0x1_0000_0000
  {
    if u < 0x8000_0000 then u as int32 else (u - 0x1_0000_0000) as int32
  }

  lemma WordRoundTrip(w: bv32)
    ensures BytesWord(WordBytes(w)) == w
  {
    UintRoundTrip(w as int);
  }

  lemma Int32RoundTrip(x: int32)
    ensures BytesUint(UintBytes(Int32Bits(x))) == Int32Bits(x)
    ensures BitsInt32(Int32Bits(x)) == x
  {
    UintRoundTrip(Int32Bits(x));
  }

  /** The bytes one command puts on the stream, in the order the callbacks write them. */
  function Encode(c: Command): (b: seq<byte>)
    ensures |b| == match c case Exit => EXIT_SIZE case Add(_, _, _) => ADD_SIZE case Remove(_, _) => REMOVE_SIZE
    ensures b[0] == match c case Exit => EVENT_LOOP_EXIT case Add(_, _, _) => EVENT_LOOP_ADD case Remove(_, _) => EVENT_LOOP_REMOVE
  {
    match c
    case Exit => [EVENT_LOOP_EXIT]
    case Add(fd, flags, watch) => [EVENT_LOOP_ADD] + UintBytes(Int32Bits(fd)) + WordBytes(flags) + WordBytes(watch)
    case Remove(fd, flags) => [EVENT_LOOP_REMOVE] + UintBytes(Int32Bits(fd)) + WordBytes(flags)
  }

  /**
   * The bytes of commands written one after the other. Something is written
   * iff some command is, and the reader finds the first command at the head.
   */
  function EncodeAll(cs: seq<Command>): (b: seq<byte>)
    ensures b == [] <==> cs == []
    ensures cs != [] ==> NextCommand(b) == Complete(cs[0], |Encode(cs[0])|)
  {
    if cs == [] then []
    else
      NextCommandOfEncode(cs[0], EncodeAll(cs[1..]));
      Encode(cs[0]) + EncodeAll(cs[1..])
  }

  /** The bytes of a single command are its encoding. */
  lemma EncodeOne(c: Command)
    ensures EncodeAll([c]) == Encode(c)
  {
    assert [c][1..] == [];
  }

  /** What the reader finds at the head of the stream. */
  datatype Step =
    | End                               // nothing pending: the non-blocking recv fails
    | Unknown                           // a tag the switch has no case for: consumed and ignored
    | Partial                           // a command whose fields have not all arrived
    | Complete(cmd: Command, size: nat)

  /** The reads the loop performs for one tag: recv the tag byte, then read its fields. */
  function NextCommand(s: seq<byte>): (st: Step)
    ensures st.End? <==> s == []
    ensures st.Unknown? <==> s != [] && s[0] !in {EVENT_LOOP_EXIT, EVENT_LOOP_ADD, EVENT_LOOP_REMOVE}
    ensures st.Complete? ==> 1 <= st.size <= |s|
  {
    if s == [] then End
    else if s[0] == EVENT_LOOP_EXIT then Complete(Exit, EXIT_SIZE)
    else if s[0] == EVENT_LOOP_ADD then
      if |s| < ADD_SIZE then Partial
      else Complete(Add(BitsInt32(BytesUint(s[1..5])), BytesWord(s[5..9]), BytesWord(s[9..13])), ADD_SIZE)
    else if s[0] == EVENT_LOOP_REMOVE then
      if |s| < REMOVE_SIZE then Partial
      else Complete(Remove(BitsInt32(BytesUint(s[1..5])), BytesWord(s[5..9])), REMOVE_SIZE)
    else Unknown
  }

  /** Reading a written command back, whatever follows it, yields that command and its length. */
  lemma NextCommandOfEncode(c: Command, rest: seq<byte>)
    ensures NextCommand(Encode(c) + rest) == Complete(c, |Encode(c)|)
    ensures (Encode(c) + rest)[|Encode(c)|..] == rest
  {
    var s := Encode(c) + rest;
    match c
    case Exit =>
    case Add(fd, flags, watch) =>
      assert s[1..5] == UintBytes(Int32Bits(fd));
      assert s[5..9] == WordBytes(flags);
      assert s[9..13] == WordBytes(watch);
      Int32RoundTrip(fd);
      WordRoundTrip(flags);
      WordRoundTrip(watch);
    case Remove(fd, flags) =>
      assert s[1..5] == UintBytes(Int32Bits(fd));
      assert s[5..9] == WordBytes(flags);
      Int32RoundTrip(fd);
      WordRoundTrip(flags);
  }

  /**
   * The commands dbusAddWatch writes: for an enabled watch, 13 bytes that
   * read back as ADD(fd, flags, handle); nothing for a disabled one.
   */
  function AddWatchCommands(w: DBusWatch): (cs: seq<Command>)
    ensures var b := EncodeAll(cs);
      && (w.enabled ==> |b| == ADD_SIZE && b[0] == EVENT_LOOP_ADD
                        && NextCommand(b) == Complete(Add(w.fd, w.flags, w.handle), ADD_SIZE))
      && (!w.enabled ==> b == [])
  {
    if w.enabled then
      var c := Add(w.fd, w.flags, w.handle);
      EncodeOne(c);
      [c]
    else []
  }

  /**
   * The commands dbusRemoveWatch writes, whether the watch is enabled or not:
   * 9 bytes with tag 3 that read back as REMOVE(fd, flags).
   */
  function RemoveWatchCommands(w: DBusWatch): (cs: seq<Command>)
    ensures var b := EncodeAll(cs);
      |b| == REMOVE_SIZE && b[0] == EVENT_LOOP_REMOVE && NextCommand(b) == Complete(Remove(w.fd, w.flags), REMOVE_SIZE)
  {
    var c := Remove(w.fd, w.flags);
    EncodeOne(c);
    [c]
  }

  /** The commands dbusToggleWatch writes: exactly one, ADD for an enabled watch and REMOVE otherwise. */
  function ToggleWatchCommands(w: DBusWatch): (cs: seq<Command>)
    ensures |cs| == 1
    ensures w.enabled ==> cs[0] == Add(w.fd, w.flags, w.handle)
    ensures !w.enabled ==> cs[0] == Remove(w.fd, w.flags)
  {
    if w.enabled then AddWatchCommands(w) else RemoveWatchCommands(w)
  }

  lemma {:induction false} EncodeAllAppend(xs: seq<Command>, ys: seq<Command>)
    ensures EncodeAll(xs + ys) == EncodeAll(xs) + EncodeAll(ys)
    decreases |xs|
  {
    if xs == [] {
      assert xs + ys == ys;
    } else {
      assert (xs + ys)[1..] == xs[1..] + ys;
      EncodeAllAppend(xs[1..], ys);
    }
  }
}
