/**
 * The rotation, seek and track-buffer timing of nachos64/code/machine/disk.cc. Times are ticks of the simulated clock.
 */
module DiskTiming {
  import opened Storage

  const SECTORS_PER_TRACK := 32
  const SEEK_TIME := 500
  const ROTATION_TIME := 500

  predicate IsSector(sector: int) {
    0 <= sector < NUM_SECTORS
  }

  function Abs(x: int): int {
    if x < 0 then -x else x
  }

  function Seek(newSector: int, lastSector: int): int {
    Abs(newSector / SECTORS_PER_TRACK - lastSector / SECTORS_PER_TRACK) * SEEK_TIME
  }

  /** From `time` to the next sector boundary. */
  function Rotation(time: int): (r: int)
    ensures 0 <= r < ROTATION_TIME && (time + r) % ROTATION_TIME == 0
  {
    var over := time % ROTATION_TIME;
    if over > 0 then ROTATION_TIME - over else 0
  }

  /** Sector `from + ModuloDiff(to, from)` is the first from `from` on at the place of `to` on its track. */
  function ModuloDiff(to: int, from: int): (d: int)
    ensures 0 <= d < SECTORS_PER_TRACK && Under(from + d, to)
  {
    (to % SECTORS_PER_TRACK - from % SECTORS_PER_TRACK + SECTORS_PER_TRACK) % SECTORS_PER_TRACK
  }

  /** In the slot of that number, counted in sector times from zero, the sector passes under a head on its track. */
  predicate Under(slot: int, sector: int) {
    slot % SECTORS_PER_TRACK == sector % SECTORS_PER_TRACK
  }

  /** The sector passed under the head from end to end between two sector boundaries. */
  ghost predicate Passed(sector: int, from: int, to: int) {
    exists slot :: Under(slot, sector) && from <= slot * ROTATION_TIME && (slot + 1) * ROTATION_TIME <= to
  }

  /** When the head is on the new track and at a sector boundary. */
  function Settled(newSector: int, lastSector: int, now: int): (t: int)
    ensures t % ROTATION_TIME == 0
    ensures 0 <= t - now - Seek(newSector, lastSector) < ROTATION_TIME
  {
    now + Seek(newSector, lastSector) + Rotation(now + Seek(newSector, lastSector))
  }

  /** The code's track-buffer test. */
  predicate Buffered(newSector: int, lastSector: int, bufferInit: int, now: int) {
    && Seek(newSector, lastSector) == 0
    && (Settled(newSector, lastSector, now) - bufferInit) / ROTATION_TIME
       > ModuloDiff(newSector, bufferInit / ROTATION_TIME)
  }

  function Latency(newSector: int, writing: bool, lastSector: int, bufferInit: int, now: int): int {
    if !writing && Buffered(newSector, lastSector, bufferInit, now) then ROTATION_TIME
    else
      var timeAfter := Settled(newSector, lastSector, now);
      (timeAfter - now) + ModuloDiff(newSector, timeAfter / ROTATION_TIME) * ROTATION_TIME + ROTATION_TIME
  }

  /** No slot before that one will do. */
  lemma ModuloDiffIsFirst(to: int, from: int, slot: int)
    requires from <= slot && Under(slot, to)
    ensures from + ModuloDiff(to, from) <= slot
  {
  }

  /**
   * The code's test of the track buffer holds exactly when the head is on the sector's track and the whole sector has
   * passed, or will have by the next sector boundary, since the buffer was started.
   */
  lemma BufferTest(newSector: int, lastSector: int, bufferInit: int, now: int)
    requires 0 <= bufferInit <= now && bufferInit % ROTATION_TIME == 0
    ensures Buffered(newSector, lastSector, bufferInit, now) <==>
            && newSector / SECTORS_PER_TRACK == lastSector / SECTORS_PER_TRACK
            && Passed(newSector, bufferInit, Settled(newSector, lastSector, now))
  {
    var from, to := bufferInit / ROTATION_TIME, Settled(newSector, lastSector, now) / ROTATION_TIME;
    var first := from + ModuloDiff(newSector, from);
    if Buffered(newSector, lastSector, bufferInit, now) {
      assert Under(first, newSector) && bufferInit <= first * ROTATION_TIME;
    }
    if Passed(newSector, bufferInit, Settled(newSector, lastSector, now)) {
      var slot :| Under(slot, newSector) && bufferInit <= slot * ROTATION_TIME
                  && (slot + 1) * ROTATION_TIME <= Settled(newSector, lastSector, now);
      ModuloDiffIsFirst(newSector, from, slot);
    }
  }

  lemma SeekBound(newSector: int, lastSector: int)
    requires IsSector(newSector) && IsSector(lastSector)
    ensures 0 <= Seek(newSector, lastSector) <= 31 * SEEK_TIME
  {
  }

  /** Seek 15500, less than 500 to a boundary, 15500 of rotation, 500 for the transfer. */
  lemma LatencyBounds(newSector: int, writing: bool, lastSector: int, bufferInit: int, now: int)
    requires IsSector(newSector) && IsSector(lastSector)
    ensures ROTATION_TIME <= Latency(newSector, writing, lastSector, bufferInit, now) <= 31999
  {
    SeekBound(newSector, lastSector);
  }

  /** The slot in which the sector first passes once the head has settled. */
  function NextSlot(newSector: int, lastSector: int, now: int): int {
    var from := Settled(newSector, lastSector, now) / ROTATION_TIME;
    from + ModuloDiff(newSector, from)
  }

  lemma NextSlotIsFirst(newSector: int, lastSector: int, now: int, k: int)
    requires Settled(newSector, lastSector, now) <= k * ROTATION_TIME && Under(k, newSector)
    ensures NextSlot(newSector, lastSector, now) <= k
  {
    ModuloDiffIsFirst(newSector, Settled(newSector, lastSector, now) / ROTATION_TIME, k);
  }

  /** A request that the buffer does not serve ends at the first moment at which the sector has passed in full. */
  lemma LatencyEnds(newSector: int, writing: bool, lastSector: int, bufferInit: int, now: int)
    requires writing || !Buffered(newSector, lastSector, bufferInit, now)
    ensures var slot := NextSlot(newSector, lastSector, now);
            && now + Latency(newSector, writing, lastSector, bufferInit, now) == (slot + 1) * ROTATION_TIME
            && Under(slot, newSector) && slot * ROTATION_TIME >= Settled(newSector, lastSector, now)
  {
  }

  lemma SlotEnd(time: int, slot: int, sector: int)
    requires time == (slot + 1) * ROTATION_TIME && Under(slot, sector)
    ensures time / ROTATION_TIME % SECTORS_PER_TRACK == (sector + 1) % SECTORS_PER_TRACK
  {
    assert time / ROTATION_TIME == slot + 1;
  }

  /**
   * The head takes 500 ticks for each track it crosses and is then at the next sector boundary at time `settled`. A
   * read on the same track of a sector that passed in full since the buffer was started takes 500 ticks. Every other
   * request ends as the head leaves the sector for the first time after settling.
   */
  lemma RequestTiming(newSector: int, writing: bool, lastSector: int, bufferInit: int, now: int) returns (settled: int)
    requires IsSector(newSector) && IsSector(lastSector) && 0 <= bufferInit <= now && bufferInit % 500 == 0
    ensures var (from, to) := (lastSector / 32, newSector / 32);
            settled % 500 == 0 && 0 <= settled - (now + 500 * if from < to then to - from else from - to) < 500
    ensures var ticks := Latency(newSector, writing, lastSector, bufferInit, now);
            && 500 <= ticks <= 31999
            && if !writing && newSector / 32 == lastSector / 32 && Passed(newSector, bufferInit, settled)
               then ticks == 500
               else && (now + ticks) % 500 == 0 && (now + ticks) / 500 % 32 == (newSector + 1) % 32
                    && settled + 500 <= now + ticks <= settled + 32 * 500
  {
    settled := Settled(newSector, lastSector, now);
    LatencyBounds(newSector, writing, lastSector, bufferInit, now);
    BufferTest(newSector, lastSector, bufferInit, now);
    if writing || !Buffered(newSector, lastSector, bufferInit, now) {
      LatencyEnds(newSector, writing, lastSector, bufferInit, now);
      SlotEnd(now + Latency(newSector, writing, lastSector, bufferInit, now), NextSlot(newSector, lastSector, now),
        newSector);
    }
  }

  /**
   * The disk unit. `doneAt` is when the interrupt of the request under way is due, and `seen` the time of the last
   * call.
   */
  class Disk {
    var active: bool
    var lastSector: int
    var bufferInit: int
    ghost var doneAt: int
    ghost var seen: int

    /** The track buffer was started at a sector boundary in the past, or before the request under way is done. */
    ghost predicate Valid()
      reads this
    {
      && IsSector(lastSector) && 0 <= bufferInit && bufferInit % ROTATION_TIME == 0
      && bufferInit <= (if active then doneAt else seen) && 0 <= seen
    }

    constructor ()
      ensures Valid() && !active && lastSector == 0 && bufferInit == 0 && seen == 0
    {
      active, lastSector, bufferInit, doneAt, seen := false, 0, 0, 0, 0;
    }

    method ComputeLatency(newSector: int, writing: bool, now: int) returns (ticks: int)
      requires Valid() && IsSector(newSector) && now >= 0
      ensures ticks == Latency(newSector, writing, lastSector, bufferInit, now)
    {
      var seek := Seek(newSector, lastSector);
      var rotation := Rotation(now + seek);
      var timeAfter := now + seek + rotation;
      var slots, ahead := (timeAfter - bufferInit) / ROTATION_TIME, ModuloDiff(newSector, bufferInit / ROTATION_TIME);
      if !writing && seek == 0 && slots > ahead {
        return ROTATION_TIME;
      }
      rotation := rotation + ModuloDiff(newSector, timeAfter / ROTATION_TIME) * ROTATION_TIME;
      return seek + rotation + ROTATION_TIME;
    }

    method UpdateLast(newSector: int, now: int)
      requires IsSector(newSector) && now >= 0
      modifies this`bufferInit, this`lastSector
      ensures lastSector == newSector
      ensures bufferInit == if Seek(newSector, old(lastSector)) != 0
                            then Settled(newSector, old(lastSector), now) else old(bufferInit)
    {
      var seek := Seek(newSector, lastSector);
      if seek != 0 {
        bufferInit := now + seek + Rotation(now + seek);
      }
      lastSector := newSector;
    }

    /** ReadRequest and WriteRequest: what they schedule. */
    method Request(newSector: int, writing: bool, now: int) returns (ticks: int)
      requires Valid() && !active && IsSector(newSector) && seen <= now
      modifies this
      ensures Valid() && active && lastSector == newSector && seen == now && doneAt == now + ticks
      ensures ticks == Latency(newSector, writing, old(lastSector), old(bufferInit), now)
      ensures bufferInit == if Seek(newSector, old(lastSector)) != 0
                            then Settled(newSector, old(lastSector), now) else old(bufferInit)
    {
      LatencyBounds(newSector, writing, lastSector, bufferInit, now);
      ticks := ComputeLatency(newSector, writing, now);
      active := true;
      UpdateLast(newSector, now);
      doneAt, seen := now + ticks, now;
    }

    method HandleInterrupt(now: int)
      requires Valid() && active && seen <= now && doneAt <= now
      modifies this
      ensures Valid() && !active && lastSector == old(lastSector) && bufferInit == old(bufferInit) && seen == now
    {
      active := false;
      seen := now;
    }
  }
}
