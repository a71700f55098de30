/**
 * The watch table as a value: the live prefix of the parallel arrays
 * `pollData` (struct pollfd) and `watchData` (DBusWatch *), zipped into one
 * sequence of slots. The in-place table of the event loop is specified by
 * these functions.
 */
module WatchTable {
  import opened Basics
  import opened Flags

  /** One `struct pollfd`. */
  datatype PollFd = PollFd(fd: int32, events: bv16, revents: bv16)

  /** One live slot: the pollfd at index i and the watch handle at index i. */
  datatype Slot = Slot(poll: PollFd, watch: WatchRef)

  /**
   * The slots of a table whose arrays hold `polls` and `watches` up to the
   * live count. This is the abstraction map from the two parallel arrays to
   * the table, so its contract spells it out index by index.
   */
  function Zip(polls: seq<PollFd>, watches: seq<WatchRef>): (t: seq<Slot>)
    requires |polls| == |watches|
    ensures |t| == |polls|
    ensures forall i :: 0 <= i < |t| ==> t[i].poll == polls[i] && t[i].watch == watches[i]
  {
    seq(|polls|, i requires 0 <= i < |polls| => Slot(polls[i], watches[i]))
  }

  lemma ZipAppend(polls: seq<PollFd>, watches: seq<WatchRef>, p: PollFd, w: WatchRef)
    requires |polls| == |watches|
    ensures Zip(polls + [p], watches + [w]) == Zip(polls, watches) + [Slot(p, w)]
  {
  }

  lemma ZipUpdate(polls: seq<PollFd>, watches: seq<WatchRef>, k: nat, p: PollFd)
    requires |polls| == |watches| && k < |polls|
    ensures Zip(polls[k := p], watches) == Zip(polls, watches)[k := Slot(p, watches[k])]
  {
  }

  lemma ZipSwapRemove(polls: seq<PollFd>, watches: seq<WatchRef>, y: nat)
    requires |polls| == |watches| && y < |polls|
    ensures var n := |polls| - 1;
      Zip(polls[y := polls[n]][..n], watches[y := watches[n]][..n]) == Zip(polls, watches)[y := Zip(polls, watches)[n]][..n]
  {
  }

  /** The duplicate test of add and the match test of remove: same fd and same interest mask. */
  predicate Matches(s: Slot, fd: int32, events: bv16)
  {
    s.poll.fd == fd && s.poll.events == events
  }

  /** The index the linear scans stop at: the first slot matching (fd, events). */
  function FindEntry(t: seq<Slot>, fd: int32, events: bv16): (r: Option<nat>)
    ensures r.Some? ==> r.value < |t| && Matches(t[r.value], fd, events)
    ensures r.Some? ==> forall k :: 0 <= k < r.value ==> !Matches(t[k], fd, events)
    ensures r.None? <==> forall k :: 0 <= k < |t| ==> !Matches(t[k], fd, events)
    decreases |t|
  {
    if |t| == 0 then None
    else if Matches(t[0], fd, events) then Some(0)
    else match FindEntry(t[1..], fd, events)
      case None => None
      case Some(k) => Some(k + 1)
  }

  /**
   * What handleWatchAdd does to the live slots (when growth, if needed,
   * succeeds): a pair already present is a no-op; a new pair is appended at
   * the end with no pending readiness. Slot 0 is never disturbed.
   */
  function AddEntry(t: seq<Slot>, fd: int32, events: bv16, watch: WatchRef): (r: seq<Slot>)
    ensures (exists k :: 0 <= k < |t| && Matches(t[k], fd, events)) ==> r == t
    ensures (forall k :: 0 <= k < |t| ==> !Matches(t[k], fd, events)) ==>
      |r| == |t| + 1 && r[..|t|] == t && r[|t|] == Slot(PollFd(fd, events, 0), watch)
    ensures |t| > 0 ==> |r| > 0 && r[0] == t[0]
  {
    if FindEntry(t, fd, events).Some? then t
    else t + [Slot(PollFd(fd, events, 0), watch)]
  }

  /**
   * What handleWatchRemove does to the live slots: swap-remove of the first
   * match. With no match nothing changes; otherwise the table loses one slot,
   * the old last slot takes the matched slot's place and every other slot
   * stays where it was. A slot 0 that does not match stays in place.
   */
  function RemoveEntry(t: seq<Slot>, fd: int32, events: bv16): (r: seq<Slot>)
    ensures FindEntry(t, fd, events).None? ==> r == t
    ensures FindEntry(t, fd, events).Some? ==>
      var y := FindEntry(t, fd, events).value;
      && |r| == |t| - 1
      && (y < |r| ==> r[y] == t[|t| - 1])
      && (forall k :: 0 <= k < |r| && k != y ==> r[k] == t[k])
    ensures |t| > 0 && !Matches(t[0], fd, events) ==> |r| > 0 && r[0] == t[0]
  {
    match FindEntry(t, fd, events)
    case None => t
    case Some(y) => t[y := t[|t| - 1]][..|t| - 1]
  }

  /** No two slots poll the same (fd, events) pair. */
  ghost predicate NoDuplicates(t: seq<Slot>)
  {
    forall i, j :: 0 <= i < j < |t| ==> !Matches(t[j], t[i].poll.fd, t[i].poll.events)
  }

  /** Adding the same pair twice leaves exactly what adding it once does. */
  lemma {:induction false} AddEntryIdempotent(t: seq<Slot>, fd: int32, events: bv16, watch: WatchRef, watch': WatchRef)
    ensures AddEntry(AddEntry(t, fd, events, watch), fd, events, watch') == AddEntry(t, fd, events, watch)
  {
    var t1 := AddEntry(t, fd, events, watch);
    if FindEntry(t, fd, events).None? {
      assert Matches(t1[|t|], fd, events);
    }
  }

  /** Adding keeps the table free of duplicate pairs. */
  lemma {:induction false} AddEntryKeepsNoDuplicates(t: seq<Slot>, fd: int32, events: bv16, watch: WatchRef)
    requires NoDuplicates(t)
    ensures NoDuplicates(AddEntry(t, fd, events, watch))
  {
    var r := AddEntry(t, fd, events, watch);
    if FindEntry(t, fd, events).None? {
      forall i, j | 0 <= i < j < |r|
        ensures !Matches(r[j], r[i].poll.fd, r[i].poll.events)
      {
        if j == |t| {
          assert !Matches(t[i], fd, events);
        } else {
          assert r[i] == t[i] && r[j] == t[j];
        }
      }
    }
  }

  /** Removing a present pair takes exactly that slot out of the multiset of slots. */
  lemma {:induction false} RemoveEntryMultiset(t: seq<Slot>, fd: int32, events: bv16)
    ensures FindEntry(t, fd, events).Some? ==>
      multiset(RemoveEntry(t, fd, events)) == multiset(t) - multiset{t[FindEntry(t, fd, events).value]}
  {
    match FindEntry(t, fd, events)
    case None =>
    case Some(y) =>
      assert RemoveEntry(t, fd, events) == t[y := t[|t| - 1]][..|t| - 1];
      SwapRemoveMultiset(t, y);
  }

  /** Overwriting element y by the last one and dropping the last loses exactly t[y]. */
  lemma SwapRemoveMultiset<T>(t: seq<T>, y: nat)
    requires y < |t|
    ensures multiset(t[y := t[|t| - 1]][..|t| - 1]) == multiset(t) - multiset{t[y]}
  {
    var last := |t| - 1;
    var r := t[y := t[last]][..last];
    if y == last {
      assert t == r + [t[y]];
    } else {
      assert t == t[..y] + [t[y]] + t[y + 1..last] + [t[last]];
      assert r == t[..y] + [t[last]] + t[y + 1..last];
    }
  }

  /** After removing from a duplicate-free table the pair is gone, and no duplicates appear. */
  lemma {:induction false} RemoveEntryRetires(t: seq<Slot>, fd: int32, events: bv16)
    requires NoDuplicates(t)
    ensures FindEntry(RemoveEntry(t, fd, events), fd, events).None?
    ensures NoDuplicates(RemoveEntry(t, fd, events))
  {
    match FindEntry(t, fd, events)
    case None =>
    case Some(y) =>
      var r := RemoveEntry(t, fd, events);
      assert forall k :: 0 <= k < |r| ==> r[k] == (if k == y then t[|t| - 1] else t[k]);
      SwapRemovedGone(t, r, y);
      SwapRemovedNoDuplicates(t, r, y);
  }

  /** r is t with slot y overwritten by the last slot and the last slot dropped. */
  ghost predicate SwapRemoved(t: seq<Slot>, r: seq<Slot>, y: nat)
  {
    && y < |t| && |r| == |t| - 1
    && forall k :: 0 <= k < |r| ==> r[k] == (if k == y then t[|t| - 1] else t[k])
  }

  /** The removed slot's pair appears nowhere in a swap-removed duplicate-free table. */
  lemma SwapRemovedGone(t: seq<Slot>, r: seq<Slot>, y: nat)
    requires NoDuplicates(t) && SwapRemoved(t, r, y)
    ensures forall k :: 0 <= k < |r| ==> !Matches(r[k], t[y].poll.fd, t[y].poll.events)
  {
    var last := |t| - 1;
    forall k | 0 <= k < |r|
      ensures !Matches(r[k], t[y].poll.fd, t[y].poll.events)
    {
      if k == y {
        assert !Matches(t[last], t[y].poll.fd, t[y].poll.events);
      } else if y < k {
        assert !Matches(t[k], t[y].poll.fd, t[y].poll.events);
      } else {
        assert !Matches(t[y], t[k].poll.fd, t[k].poll.events);
      }
    }
  }

  /** Swap-removal keeps a table duplicate-free. */
  lemma SwapRemovedNoDuplicates(t: seq<Slot>, r: seq<Slot>, y: nat)
    requires NoDuplicates(t) && SwapRemoved(t, r, y)
    ensures NoDuplicates(r)
  {
    var last := |t| - 1;
    forall i, j | 0 <= i < j < |r|
      ensures !Matches(r[j], r[i].poll.fd, r[i].poll.events)
    {
      var i' := if i == y then last else i;
      var j' := if j == y then last else j;
      assert r[i] == t[i'] && r[j] == t[j'] && i' != j';
      if i' < j' {
        assert !Matches(t[j'], t[i'].poll.fd, t[i'].poll.events);
      } else {
        assert !Matches(t[i'], t[j'].poll.fd, t[j'].poll.events);
      }
    }
  }

  /** Removing a pair that was just added to a table without it gives the table back. */
  lemma {:induction false} RemoveUndoesAdd(t: seq<Slot>, fd: int32, events: bv16, watch: WatchRef)
    requires FindEntry(t, fd, events).None?
    ensures RemoveEntry(AddEntry(t, fd, events, watch), fd, events) == t
  {
    var a := AddEntry(t, fd, events, watch);
    assert a == t + [Slot(PollFd(fd, events, 0), watch)];
    assert Matches(a[|t|], fd, events);
    assert forall k :: 0 <= k < |t| ==> a[k] == t[k];
    assert FindEntry(a, fd, events) == Some(|t|);
    assert a[|t| := a[|t|]][..|t|] == t;
  }

  /**
   * Nothing protects slot 0 from a REMOVE that names its own pair: removing
   * the control socket's (fd, POLLIN) from a two-slot table moves the other
   * watch into slot 0.
   */
  lemma ControlSlotRemovable()
    ensures var ctl := Slot(PollFd(20, POLLIN, 0), NULL_WATCH);
      var w := Slot(PollFd(7, POLLIN, 0), 0x1000);
      RemoveEntry([ctl, w], 20, POLLIN) == [w]
  {
    var ctl := Slot(PollFd(20, POLLIN, 0), NULL_WATCH);
    var w := Slot(PollFd(7, POLLIN, 0), 0x1000);
    assert FindEntry([ctl, w], 20, POLLIN) == Some(0);
  }
}
