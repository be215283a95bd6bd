/** The shared region and one process's handle on it, updated in place. */
module SharedRegion {
  import opened Common
  import opened Sums
  import opened ProcSlots

  /** The mapped region; the array of slots and proc_num are shared by all processes. */
  class Region {
    const procs: array<ProcSlot>
    var procNum: int
    var limit: seq<nat>

    ghost predicate Valid()
      reads this, procs
    {
      && TableInv(procs[..], procNum)
      && |limit| == DEVICE_MAX_COUNT
    }

    constructor (procs: array<ProcSlot>, limit: seq<nat>)
      requires procs.Length == MAX_PROCESS_NUM && |limit| == DEVICE_MAX_COUNT
      ensures Valid() && procNum == 0 && this.procs == procs && this.limit == limit
    {
      this.procs, this.limit, procNum := procs, limit, 0;
    }
  }

  /** What one update of the counters adds to one device of a slot. */
  function Book(u: DeviceMemory, amount: int, kind: int): DeviceMemory {
    DeviceMemory(u.contextSize + OfKind(0, kind, amount), u.moduleSize + OfKind(1, kind, amount),
                 u.dataSize + OfKind(2, kind, amount), u.offset, u.total + amount)
  }

  function Charge(s: ProcSlot, dev: nat, amount: int, kind: int): ProcSlot
    requires dev < DEVICE_MAX_COUNT
  {
    s.(seqlock := s.seqlock + 2, used := s.used[dev := Book(s.used[dev], amount, kind)])
  }

  /** One slot before and after an update of any kind: the total of device m moves, with the one
      part of the kind if there is such a part, and nothing else but the seqlock. */
  ghost predicate Moved(was: ProcSlot, now: ProcSlot, m: nat, amount: int, kind: int)
    requires m < DEVICE_MAX_COUNT
  {
    && now.used[m].total == was.used[m].total + amount
    && now.used[m].contextSize == was.used[m].contextSize + (if kind == 0 then amount else 0)
    && now.used[m].moduleSize == was.used[m].moduleSize + (if kind == 1 then amount else 0)
    && now.used[m].dataSize == was.used[m].dataSize + (if kind == 2 then amount else 0)
    && now.used[m].offset == was.used[m].offset
    && (forall d | 0 <= d < DEVICE_MAX_COUNT && d != m :: now.used[d] == was.used[d])
    && now.seqlock == was.seqlock + 2
    && (now.pid, now.hostPid, now.status) == (was.pid, was.hostPid, was.status)
    && now.monitorUsed == was.monitorUsed && now.deviceUtil == was.deviceUtil
  }

  /** The usage scanned on device m moves by the amount, whatever the kind, and on no other. */
  lemma ChargeScanned(s: Table, i: nat, m: nat, amount: int, kind: int)
    requires i < |s| && m < DEVICE_MAX_COUNT
    ensures Moved(s[i], Charge(s[i], m, amount, kind), m, amount, kind)
    ensures forall d: nat | d < DEVICE_MAX_COUNT ::
              Tally(s[i := Charge(s[i], m, amount, kind)], Usage(d)) == Tally(s, Usage(d)) + if d == m then amount else 0
  {
    var x := Charge(s[i], m, amount, kind);
    forall d: nat | d < DEVICE_MAX_COUNT
      ensures Tally(s[i := x], Usage(d)) == Tally(s, Usage(d)) + if d == m then amount else 0
    {
      SumUpdate(Weights(s, Usage(d)), i, Weight(x, Usage(d)));
      assert Weights(s[i := x], Usage(d)) == Weights(s, Usage(d))[i := Weight(x, Usage(d))];
    }
  }

  ghost predicate NonNegative(s: Table) {
    forall i, d | 0 <= i < |s| && 0 <= d < DEVICE_MAX_COUNT :: 0 <= s[i].used[d].total
  }

  /** Slots of exited and dead processes only ever add to the usage; without them it is the live usage. */
  lemma UsageOverLive(s: Table, dev: nat, dead: set<int>)
    requires NonNegative(s) && dev < DEVICE_MAX_COUNT
    ensures Tally(s, LiveUsage(dev, dead)) <= Tally(s, Usage(dev))
    ensures (forall i | 0 <= i < |s| :: Live(s[i], dead)) ==> Tally(s, LiveUsage(dev, dead)) == Tally(s, Usage(dev))
  {
    SumAtMost(Weights(s, LiveUsage(dev, dead)), Weights(s, Usage(dev)));
    if forall i | 0 <= i < |s| :: Live(s[i], dead) {
      assert Weights(s, LiveUsage(dev, dead)) == Weights(s, Usage(dev));
    }
  }

  lemma MultisetNonNegative(s: Table, t: Table)
    requires NonNegative(s) && multiset(t) <= multiset(s)
    ensures NonNegative(t)
  {
    forall i | 0 <= i < |t| ensures t[i] in s {
      assert t[i] in multiset(t);
    }
  }

  /** A reader of this slot waits for its update to be finished. */
  ghost predicate Jammed(s: Table) {
    exists i :: 0 <= i < |s| && s[i].seqlock % 2 == 1
  }

  lemma MultisetJammed(s: Table, t: Table)
    requires Jammed(t) && multiset(t) <= multiset(s)
    ensures Jammed(s)
  {
    var i :| 0 <= i < |t| && t[i].seqlock % 2 == 1;
    assert t[i] in multiset(t);
    var k :| 0 <= k < |s| && s[k] == t[i];
  }

  /** A pass that removed nothing found every slot alive. */
  lemma {:induction false} CompactUntouched(procs: Table, num: nat, my: int, slot: nat, dead: set<int>)
    requires slot <= num <= |procs| && Compact(procs, num, my, slot, 0, true, dead).num == num
    requires forall j | 0 <= j < slot :: Live(procs[j], dead)
    ensures Compact(procs, num, my, slot, 0, true, dead).procs == procs
    ensures forall j | 0 <= j < num :: Live(procs[j], dead)
    decreases num - slot
  {
    if slot < num { CompactUntouched(procs, num, my, slot + 1, dead); }
  }

  /** What one pass of the cleaner, asked to remove dead slots, leaves of the table. */
  lemma CleanerFacts(procs: Table, num: int, my: int, dead: set<int>)
    requires TableInv(procs, num) && 0 !in dead && NonNegative(procs[..num])
    ensures var c := Clean(procs, num, my, true, dead);
            && NonNegative(c.procs[..c.num])
            && (Jammed(c.procs[..c.num]) ==> Jammed(procs[..num]))
            && (forall v: nat | v < DEVICE_MAX_COUNT ::
                  Tally(c.procs[..c.num], LiveUsage(v, dead)) == Tally(procs[..num], LiveUsage(v, dead)))
            && (forall x: ProcSlot | Live(x, dead) :: multiset(c.procs[..c.num])[x] == multiset(procs[..num])[x])
            && (0 <= my < num && Live(procs[my], dead) ==> 0 <= c.my < c.num && c.procs[c.my] == procs[my])
            && (c.num == num ==> forall j | 0 <= j < num :: Live(procs[j], dead))
  {
    var c := Clean(procs, num, my, true, dead);
    CleanCorrect(procs, num, my, true, dead);
    MultisetNonNegative(procs[..num], c.procs[..c.num]);
    if Jammed(c.procs[..c.num]) { MultisetJammed(procs[..num], c.procs[..c.num]); }
    forall v: nat | v < DEVICE_MAX_COUNT {
      CompactKeepsLiveUsage(procs, num, my, 0, 0, true, dead, v);
    }
    forall x: ProcSlot | Live(x, dead) ensures multiset(c.procs[..c.num])[x] == multiset(procs[..num])[x] {
      CompactKeeps(procs, num, my, 0, 0, true, dead, x);
    }
    if c.num == num { CompactUntouched(procs, num, my, 0, dead); }
  }

  /** The slot of a live process is odd. */
  ghost predicate LiveOdd(s: Table, dead: set<int>) {
    exists i :: 0 <= i < |s| && Live(s[i], dead) && s[i].seqlock % 2 == 1
  }

  lemma SameLive(s: Table, t: Table, dead: set<int>)
    requires forall x: ProcSlot | Live(x, dead) :: multiset(t)[x] == multiset(s)[x]
    ensures LiveOdd(s, dead) ==> LiveOdd(t, dead)
  {
    if LiveOdd(s, dead) {
      var i :| 0 <= i < |s| && Live(s[i], dead) && s[i].seqlock % 2 == 1;
      assert s[i] in multiset(s);
      assert s[i] in multiset(t);
      var k :| 0 <= k < |t| && t[k] == s[i];
    }
  }

  /** A pass removes up to ten dead slots; when fewer are left than that, only live ones stay. */
  lemma PassUnjams(procs: Table, num: nat, my: int, dead: set<int>)
    requires num <= |procs| && 0 !in dead
    ensures var c, n := Clean(procs, num, my, true, dead), Tally(procs[..num], PidIn(dead));
            && Tally(c.procs[..c.num], PidIn(dead)) == (if n < MAX_KILLED then 0 else n - MAX_KILLED)
            && (LiveOdd(c.procs[..c.num], dead) <==> LiveOdd(procs[..num], dead))
            && (n < MAX_KILLED ==> (Jammed(c.procs[..c.num]) <==> LiveOdd(c.procs[..c.num], dead)))
  {
    var c := Clean(procs, num, my, true, dead);
    CleanCorrect(procs, num, my, true, dead);
    CompactCounts(procs, num, my, 0, 0, true, dead);
    forall x: ProcSlot | Live(x, dead) ensures multiset(c.procs[..c.num])[x] == multiset(procs[..num])[x] {
      CompactKeeps(procs, num, my, 0, 0, true, dead, x);
    }
    SameLive(procs[..num], c.procs[..c.num], dead);
    SameLive(c.procs[..c.num], procs[..num], dead);
  }

  function Passes(procs: Table, num: nat, my: int, dead: set<int>, k: nat): (c: Cleaned)
    requires num <= |procs|
    ensures c.num <= |c.procs|
    decreases k
  {
    if k == 0 then Cleaned(procs, num, my, 0)
    else
      var c := Clean(procs, num, my, true, dead);
      Passes(c.procs, c.num, c.my, dead, k - 1)
  }

  /** Enough passes to remove every dead record let all readers go on exactly when no live
      process has an odd slot. */
  lemma {:induction false} CleaningUnjams(procs: Table, num: nat, my: int, dead: set<int>, k: nat)
    requires num <= |procs| && 0 !in dead && Tally(procs[..num], PidIn(dead)) < MAX_KILLED * k
    ensures var c := Passes(procs, num, my, dead, k);
            Jammed(c.procs[..c.num]) <==> LiveOdd(procs[..num], dead)
    decreases k
  {
    if k == 0 {
      SumAtMost(seq(num, _ => 0), Weights(procs[..num], PidIn(dead)));
      SumZero(seq(num, _ => 0));
      assert false;
    } else {
      PassUnjams(procs, num, my, dead);
      var c := Clean(procs, num, my, true, dead);
      if k > 1 {
        CleaningUnjams(c.procs, c.num, c.my, dead, k - 1);
      }
    }
  }

  lemma RegisterOdd(procs: Table, num: nat, pid: int, dead: set<int>)
    requires TableInv(procs, num) && num < MAX_PROCESS_NUM && pid != 0 && pid !in dead
    ensures var r := Register(procs, num, pid); LiveOdd(r.procs[..r.num], dead) <==> LiveOdd(procs[..num], dead + {pid})
  {
    var r := Register(procs, num, pid);
    var was, now := procs[..num], r.procs[..r.num];
    assert now[r.my].seqlock == 0;
    forall j | 0 <= j < num && j != r.my ensures now[j] == was[j] && was[j].pid != pid {
      assert now[j] == r.procs[j] == procs[j];
    }
    if LiveOdd(was, dead + {pid}) {
      var j :| 0 <= j < |was| && Live(was[j], dead + {pid}) && was[j].seqlock % 2 == 1;
      assert Live(now[j], dead) && now[j].seqlock % 2 == 1;
    }
    if LiveOdd(now, dead) {
      var j :| 0 <= j < |now| && Live(now[j], dead) && now[j].seqlock % 2 == 1;
      assert Live(was[j], dead + {pid}) && was[j].seqlock % 2 == 1;
    }
  }

  /** A registration, with fewer than ten dead records about, lets all readers go on exactly
      when no other live process has an odd slot. */
  lemma InitUnjams(procs: Table, num: nat, pid: int, dead: set<int>)
    requires TableInv(procs, num) && num < MAX_PROCESS_NUM && pid != 0 && pid !in dead && 0 !in dead
    requires Tally(procs[..num], PidIn(dead)) < 10
    ensures var c := InitProc(procs, num, pid, dead);
            Jammed(c.procs[..c.num]) <==> LiveOdd(procs[..num], dead + {pid})
  {
    var r := Register(procs, num, pid);
    RegisterKeeps(procs, num, pid, dead, procs[0], 0);
    RegisterOdd(procs, num, pid, dead);
    PassUnjams(r.procs, r.num, r.my, dead);
  }

  /** A usage scan, and a limit check: both wait for ever at a slot whose update stays unfinished. */
  datatype Reading = Total(bytes: int) | Waits

  datatype Answer = Room | OutOfMemory | Spins

  /** One process's region_info: the region, its pid and the cached position of its slot. */
  class RegionInfo {
    const region: Region
    const pid: int
    const initialOffset: nat
    const cudaToNvml: seq<nat>
    var mySlot: int   // -1 stands for NULL

    ghost predicate Valid()
      reads this, region, region.procs
    {
      && region.Valid()
      && pid != 0
      && -1 <= mySlot < MAX_PROCESS_NUM
      && |cudaToNvml| == DEVICE_MAX_COUNT && forall d | 0 <= d < DEVICE_MAX_COUNT :: cudaToNvml[d] < DEVICE_MAX_COUNT
    }

    /** The cached pointer is on this process's own record in the live range. */
    ghost predicate Registered()
      reads this, region, region.procs
    {
      && Valid()
      && 0 <= mySlot < region.procNum && region.procs[mySlot].pid == pid
    }

    ghost function LiveRange(): Table
      requires Valid()
      reads this, region, region.procs
    {
      region.procs[..region.procNum]
    }

    constructor (region: Region, pid: int, initialOffset: nat, cudaToNvml: seq<nat>)
      requires region.Valid() && pid != 0
      requires |cudaToNvml| == DEVICE_MAX_COUNT && forall d | 0 <= d < DEVICE_MAX_COUNT :: cudaToNvml[d] < DEVICE_MAX_COUNT
      ensures Valid() && mySlot == -1 && this.region == region && this.pid == pid
      ensures this.initialOffset == initialOffset && this.cudaToNvml == cudaToNvml
    {
      this.region, this.pid, this.initialOffset, this.cudaToNvml := region, pid, initialOffset, cudaToNvml;
      mySlot := -1;
    }

    /** Removes slots with pid 0 and, when asked, slots of processes found dead. */
    method ClearProcSlotNolock(doClear: int, dead: set<int>) returns (res: int)
      requires Valid() && 0 !in dead
      modifies this`mySlot, region`procNum, region.procs
      ensures var c := Clean(old(region.procs[..]), old(region.procNum), old(mySlot), doClear > 0, dead);
              region.procs[..] == c.procs && region.procNum == c.num && mySlot == c.my
      ensures Valid()
      ensures (res == 1 <==> region.procNum < old(region.procNum)) && (res == 0 || res == 1)
    {
      var slot, cleanedDead := 0, 0;
      res := 0;
      while slot < region.procNum
        invariant 0 <= slot <= region.procNum <= old(region.procNum)
        invariant 0 <= cleanedDead && -1 <= mySlot < MAX_PROCESS_NUM
        invariant Compact(region.procs[..], region.procNum, mySlot, slot, cleanedDead, doClear > 0, dead)
               == Clean(old(region.procs[..]), old(region.procNum), old(mySlot), doClear > 0, dead)
        invariant (res == 1 <==> region.procNum < old(region.procNum)) && (res == 0 || res == 1)
        decreases region.procNum - slot
      {
        var slotPid := region.procs[slot].pid;
        if slotPid == 0 {
          RemoveSlot(slot);
          res := 1;
          continue;
        }
        if doClear > 0 && cleanedDead < MAX_KILLED && slotPid in dead {
          cleanedDead := cleanedDead + 1;
          RemoveSlot(slot);
          res := 1;
          continue;
        }
        slot := slot + 1;
      }
      CompactKeepsDistinct(old(region.procs[..]), old(region.procNum), old(mySlot), 0, 0, doClear > 0, dead);
    }

    /** Swap-with-last removal, keeping the cached pointer of this process on its record. */
    method RemoveSlot(slot: int)
      requires region.procs.Length == MAX_PROCESS_NUM && 0 <= slot < region.procNum <= MAX_PROCESS_NUM
      requires -1 <= mySlot < MAX_PROCESS_NUM
      modifies this`mySlot, region`procNum, region.procs
      ensures var c := Drop(old(region.procs[..]), old(region.procNum), old(mySlot), slot);
              region.procs[..] == c.procs && region.procNum == c.num && mySlot == c.my
      ensures -1 <= mySlot < MAX_PROCESS_NUM
    {
      region.procNum := region.procNum - 1;
      region.procs[slot] := region.procs[region.procNum];
      if mySlot == region.procNum {
        mySlot := slot;
        region.procs[region.procNum] := Vacated(region.procs[region.procNum]);
      }
    }

    /** Adds up all slots below proc_num, dead or alive. The slots stand for a moment at which
        every update that can still finish has: an odd one keeps the scan waiting. */
    method GetGpuMemoryUsage(dev: nat) returns (r: Reading)
      requires Valid() && dev < DEVICE_MAX_COUNT
      ensures r == if Jammed(LiveRange()) then Waits else Total(Tally(LiveRange(), Usage(dev)) + initialOffset)
    {
      var total := 0;
      ghost var w := Weights(LiveRange(), Usage(dev));
      for i := 0 to region.procNum
        invariant total == Sum(w[..i])
        invariant forall j | 0 <= j < i :: region.procs[j].seqlock % 2 == 0
      {
        if region.procs[i].seqlock % 2 == 1 {
          assert LiveRange()[i].seqlock % 2 == 1;
          return Waits;
        }
        assert w[..i + 1][..i] == w[..i];
        total := total + region.procs[i].used[dev].total;
      }
      assert w[..region.procNum] == w;
      return Total(total + initialOffset);
    }

    /** The cleaner asked to remove dead slots: no live record and no live usage is lost, and
        when nothing was removed every record is live. */
    method Reclaim(dead: set<int>) returns (res: int)
      requires Valid() && 0 !in dead && NonNegative(LiveRange())
      modifies this`mySlot, region`procNum, region.procs
      ensures Valid() && NonNegative(LiveRange()) && (Jammed(LiveRange()) ==> old(Jammed(LiveRange())))
      ensures forall x: ProcSlot | Live(x, dead) :: multiset(LiveRange())[x] == multiset(old(LiveRange()))[x]
      ensures forall v: nat | v < DEVICE_MAX_COUNT ::
                Tally(LiveRange(), LiveUsage(v, dead)) == old(Tally(LiveRange(), LiveUsage(v, dead)))
      ensures if res > 0 then region.procNum < old(region.procNum) else
                && region.procNum == old(region.procNum)
                && forall v: nat | v < DEVICE_MAX_COUNT ::
                     Tally(LiveRange(), LiveUsage(v, dead)) == old(Tally(LiveRange(), Usage(v)))
      ensures old(Registered()) && pid !in dead ==>
                Registered() && region.procs[mySlot] == old(region.procs[mySlot])
    {
      ghost var procs, num, my := region.procs[..], region.procNum, mySlot;
      res := ClearProcSlotNolock(1, dead);
      CleanerFacts(procs, num, my, dead);
      if res == 0 {
        forall v: nat | v < DEVICE_MAX_COUNT {
          UsageOverLive(procs[..num], v, dead);
        }
      }
    }

    /** Rejects a request exactly when it does not fit beside the live processes, however
        many records of exited or killed ones are still in the table; but never answers while
        a slot is odd, for the scan comes before the cleaner. */
    method OomCheck(dev: int, currentDev: nat, addon: nat, dead: set<int>) returns (answer: Answer)
      requires Valid() && 0 !in dead && NonNegative(LiveRange())
      requires dev == -1 || 0 <= dev < DEVICE_MAX_COUNT
      requires currentDev < DEVICE_MAX_COUNT
      modifies this`mySlot, region`procNum, region.procs
      ensures Valid() && NonNegative(LiveRange())
      ensures answer == Spins <==> old(Jammed(LiveRange()))
      ensures answer == Spins ==> region.procs[..] == old(region.procs[..]) && region.procNum == old(region.procNum) && mySlot == old(mySlot)
      ensures Jammed(LiveRange()) <==> old(Jammed(LiveRange()))
      ensures var d := if dev == -1 then currentDev else dev;
              answer != Spins ==>
                (answer == OutOfMemory <==>
                   && region.limit[d] != 0
                   && old(Tally(LiveRange(), LiveUsage(d, dead))) + initialOffset + addon > region.limit[d])
      ensures forall x: ProcSlot | Live(x, dead) :: multiset(LiveRange())[x] == multiset(old(LiveRange()))[x]
      ensures forall v: nat | v < DEVICE_MAX_COUNT ::
                Tally(LiveRange(), LiveUsage(v, dead)) == old(Tally(LiveRange(), LiveUsage(v, dead)))
      ensures region.procNum <= old(region.procNum)
      ensures old(Registered()) && pid !in dead ==>
                Registered() && region.procs[mySlot] == old(region.procs[mySlot])
      decreases region.procNum
    {
      var d := if dev == -1 then currentDev else dev;
      var limit := region.limit[d];
      var usage := GetGpuMemoryUsage(d);
      if usage.Waits? {
        return Spins;
      }
      if limit == 0 {
        return Room;
      }
      var newAllocated := usage.bytes + addon;
      UsageOverLive(LiveRange(), d, dead);
      if newAllocated > limit {
        var cleaned := Reclaim(dead);
        if cleaned > 0 {
          answer := OomCheck(dev, currentDev, addon, dead);
          return;
        }
        return OutOfMemory;
      }
      return Room;
    }

    lemma InitFacts(procs: Table, num: nat, dead: set<int>)
      requires TableInv(procs, num) && num < MAX_PROCESS_NUM && pid != 0 && pid !in dead && 0 !in dead
      ensures var c, n := InitProc(procs, num, pid, dead), Tally(procs[..num], PidIn(dead));
              && TableInv(c.procs, c.num)
              && 0 <= c.my < c.num && c.procs[c.my].pid == pid && NoUsage(c.procs[c.my]) && c.procs[c.my].status == 1
              && Tally(c.procs[..c.num], PidIn(dead)) == (if n < 10 then 0 else n - 10)
              && (n < 10 ==> (Jammed(c.procs[..c.num]) <==> LiveOdd(procs[..num], dead + {pid})))
              && (forall x: ProcSlot | Live(x, dead) && x.pid != pid ::
                    multiset(c.procs[..c.num])[x] == multiset(procs[..num])[x])
              && (forall d: nat | d < DEVICE_MAX_COUNT ::
                    Tally(c.procs[..c.num], LiveUsage(d, dead)) == Tally(procs[..num], LiveUsage(d, dead + {pid})))
    {
      var c := InitProc(procs, num, pid, dead);
      InitProcCorrect(procs, num, pid, dead);
      InitProcCleans(procs, num, pid, dead, procs[0], 0);
      if Tally(procs[..num], PidIn(dead)) < 10 { InitUnjams(procs, num, pid, dead); }
      forall x: ProcSlot | Live(x, dead) && x.pid != pid
        ensures multiset(c.procs[..c.num])[x] == multiset(procs[..num])[x]
      {
        InitProcCleans(procs, num, pid, dead, x, 0);
      }
      forall d: nat | d < DEVICE_MAX_COUNT
        ensures Tally(c.procs[..c.num], LiveUsage(d, dead)) == Tally(procs[..num], LiveUsage(d, dead + {pid}))
      {
        InitProcCleans(procs, num, pid, dead, procs[0], d);
      }
    }

    /** Registers this process, taking over a record left by an earlier one with its pid. */
    method InitProcSlotWithlock(dead: set<int>) returns (ok: bool)
      requires Valid() && 0 !in dead && pid !in dead
      modifies this`mySlot, region`procNum, region.procs
      ensures ok == (old(region.procNum) < MAX_PROCESS_NUM)
      ensures !ok ==> region.procs[..] == ExitProc(old(region.procs[..]), pid) && region.procNum == old(region.procNum)
      ensures ok ==>
                var c := InitProc(old(region.procs[..]), old(region.procNum), pid, dead);
                region.procs[..] == c.procs && region.procNum == c.num && mySlot == c.my
      ensures Valid()
      ensures ok ==> Registered() && NoUsage(region.procs[mySlot]) && region.procs[mySlot].status == 1
      ensures ok ==>
                var n := old(Tally(LiveRange(), PidIn(dead)));
                && Tally(LiveRange(), PidIn(dead)) == (if n < 10 then 0 else n - 10)
                && (n < 10 ==> (Jammed(LiveRange()) <==> old(LiveOdd(LiveRange(), dead + {pid}))))
      ensures ok ==>
                && (forall x: ProcSlot | Live(x, dead) && x.pid != pid :: multiset(LiveRange())[x] == multiset(old(LiveRange()))[x])
                && forall d: nat | d < DEVICE_MAX_COUNT ::
                     Tally(LiveRange(), LiveUsage(d, dead)) == old(Tally(LiveRange(), LiveUsage(d, dead + {pid})))
    {
      var procNum := region.procNum;
      if procNum >= MAX_PROCESS_NUM {
        ExitHandler();
        return false;
      }
      InitFacts(region.procs[..], procNum, dead);
      ghost var before := region.procs[..];
      var found := false;
      var i := 0;
      while i < procNum && !found
        invariant 0 <= i <= procNum && !found
        invariant Find(before, 0, procNum, pid) == Find(before, i, procNum, pid)
        invariant region.procs[..] == before
      {
        if region.procs[i].pid == pid {
          region.procs[i] := Reset(region.procs[i]);
          mySlot := i;
          found := true;
          break;
        }
        i := i + 1;
      }
      if !found {
        region.procs[procNum] := Fresh(region.procs[procNum], pid);
        mySlot := procNum;
        region.procNum := procNum + 1;
      }
      ghost var r := Register(before, procNum, pid);
      assert region.procs[..] == r.procs && region.procNum == r.num && mySlot == r.my;
      var _ := ClearProcSlotNolock(1, dead);
      return true;
    }

    /** Marks this process's record as exited: the first one found in the whole array. */
    method ExitHandler()
      requires Valid()
      modifies region.procs
      ensures region.procs[..] == ExitProc(old(region.procs[..]), pid)
      ensures Valid()
    {
      ghost var before := region.procs[..];
      for slot := 0 to MAX_PROCESS_NUM
        invariant region.procs[..] == before
        invariant Find(before, 0, MAX_PROCESS_NUM, pid) == Find(before, slot, MAX_PROCESS_NUM, pid)
      {
        if region.procs[slot].pid == pid {
          region.procs[slot] := Exited(region.procs[slot]);
          break;
        }
      }
    }

    /** The slot that an update for aPid goes to: the cached one for this process, else the first match. */
    ghost function Target(aPid: int): (t: nat)
      requires Valid()
      reads this, region, region.procs
      ensures if aPid == pid && mySlot != -1 then t == mySlot
              else t <= region.procNum && (t < region.procNum ==> region.procs[t].pid == aPid)
                   && forall j | 0 <= j < t :: region.procs[j].pid != aPid
    {
      if aPid == pid && mySlot != -1 then mySlot else Find(region.procs[..], 0, region.procNum, aPid)
    }

    method AddGpuDeviceMemoryUsage(aPid: int, cudaDev: nat, usage: nat, kind: int) returns (res: int)
      requires Valid() && cudaDev < DEVICE_MAX_COUNT
      modifies region.procs
      ensures Valid()
      ensures var i := old(Target(aPid));
              if res == 0 then
                && i < MAX_PROCESS_NUM
                && region.procs[..] == old(region.procs[..])[i := Charge(old(region.procs[..])[i], cudaToNvml[cudaDev], usage, kind)]
              else
                res == -1 && i == region.procNum && region.procs[..] == old(region.procs[..])
      ensures var i, m := old(Target(aPid)), cudaToNvml[cudaDev];
              res == 0 ==>
                && Moved(old(region.procs[..])[i], region.procs[i], m, usage, kind)
                && (i < region.procNum ==>
                      forall d: nat | d < DEVICE_MAX_COUNT ::
                        Tally(LiveRange(), Usage(d)) == old(Tally(LiveRange(), Usage(d))) + if d == m then usage else 0)
      ensures old(Registered()) && aPid == pid ==> res == 0
    {
      res := Update(aPid, cudaDev, usage, kind);
    }

    method RmGpuDeviceMemoryUsage(aPid: int, cudaDev: nat, usage: nat, kind: int) returns (res: int)
      requires Valid() && cudaDev < DEVICE_MAX_COUNT
      modifies region.procs
      ensures Valid()
      ensures var i := old(Target(aPid));
              if res == 0 then
                && i < MAX_PROCESS_NUM
                && region.procs[..] == old(region.procs[..])[i := Charge(old(region.procs[..])[i], cudaToNvml[cudaDev], 0 - usage, kind)]
              else
                res == -1 && i == region.procNum && region.procs[..] == old(region.procs[..])
      ensures var i, m := old(Target(aPid)), cudaToNvml[cudaDev];
              res == 0 ==>
                && Moved(old(region.procs[..])[i], region.procs[i], m, 0 - usage, kind)
                && (i < region.procNum ==>
                      forall d: nat | d < DEVICE_MAX_COUNT ::
                        Tally(LiveRange(), Usage(d)) == old(Tally(LiveRange(), Usage(d))) + if d == m then 0 - usage else 0)
      ensures old(Registered()) && aPid == pid ==> res == 0
    {
      res := Update(aPid, cudaDev, 0 - usage, kind);
    }

    /** The body the two directions share: the fast path on the cached slot, else a scan. */
    method Update(aPid: int, cudaDev: nat, amount: int, kind: int) returns (res: int)
      requires Valid() && cudaDev < DEVICE_MAX_COUNT
      modifies region.procs
      ensures Valid()
      ensures var i := old(Target(aPid));
              if res == 0 then
                && i < MAX_PROCESS_NUM
                && region.procs[..] == old(region.procs[..])[i := Charge(old(region.procs[..])[i], cudaToNvml[cudaDev], amount, kind)]
              else
                res == -1 && i == region.procNum && region.procs[..] == old(region.procs[..])
      ensures var i, m := old(Target(aPid)), cudaToNvml[cudaDev];
              res == 0 ==>
                && Moved(old(region.procs[..])[i], region.procs[i], m, amount, kind)
                && (i < region.procNum ==>
                      forall d: nat | d < DEVICE_MAX_COUNT ::
                        Tally(LiveRange(), Usage(d)) == old(Tally(LiveRange(), Usage(d))) + if d == m then amount else 0)
      ensures old(Registered()) && aPid == pid ==> res == 0
    {
      var dev := cudaToNvml[cudaDev];
      if aPid == pid && mySlot != -1 {
        UpdateAt(mySlot, dev, amount, kind);
        return 0;
      }
      ghost var before := region.procs[..];
      for i := 0 to region.procNum
        invariant region.procs[..] == before
        invariant Find(before, 0, region.procNum, aPid) == Find(before, i, region.procNum, aPid)
      {
        if region.procs[i].pid == aPid {
          UpdateAt(i, dev, amount, kind);
          return 0;
        }
      }
      return -1;
    }

    /** One slot updated, and what that does to the usage scanned. */
    method UpdateAt(i: int, dev: nat, amount: int, kind: int)
      requires Valid() && 0 <= i < MAX_PROCESS_NUM && dev < DEVICE_MAX_COUNT
      modifies region.procs
      ensures Valid()
      ensures region.procs[..] == old(region.procs[..])[i := Charge(old(region.procs[i]), dev, amount, kind)]
      ensures Moved(old(region.procs[i]), region.procs[i], dev, amount, kind)
      ensures i < region.procNum ==>
                forall d: nat | d < DEVICE_MAX_COUNT ::
                  Tally(LiveRange(), Usage(d)) == old(Tally(LiveRange(), Usage(d))) + if d == dev then amount else 0
    {
      ghost var live := LiveRange();
      if i < region.procNum { ChargeScanned(live, i, dev, amount, kind); }
      UpdateSlot(i, dev, amount, kind);
      assert i < region.procNum ==> LiveRange() == live[i := Charge(live[i], dev, amount, kind)];
    }

    /** Seqlock to odd, total, one component, seqlock to even. */
    method UpdateSlot(i: int, dev: nat, amount: int, kind: int)
      requires region.procs.Length == MAX_PROCESS_NUM && 0 <= i < MAX_PROCESS_NUM && dev < DEVICE_MAX_COUNT
      modifies region.procs
      ensures region.procs[..] == old(region.procs[..])[i := Charge(old(region.procs[i]), dev, amount, kind)]
      ensures Moved(old(region.procs[i]), region.procs[i], dev, amount, kind)
    {
      var s := region.procs[i];
      region.procs[i] := s.(seqlock := s.seqlock + 1);
      var u := s.used[dev];
      u := u.(total := u.total + amount);
      match kind {
        case 0 => u := u.(contextSize := u.contextSize + amount);
        case 1 => u := u.(moduleSize := u.moduleSize + amount);
        case 2 => u := u.(dataSize := u.dataSize + amount);
        case _ =>
      }
      s := region.procs[i];
      region.procs[i] := s.(used := s.used[dev := u]);
      s := region.procs[i];
      region.procs[i] := s.(seqlock := s.seqlock + 1);
    }
  }
}
