/** The process-slot table of the shared region as values: what one pass of the cleaner,
    one registration and one exit do to it, and what they keep. */
module ProcSlots {
  import opened Common
  import opened Sums

  const MAX_PROCESS_NUM := 1024
  const MAX_KILLED := 10

  datatype DeviceMemory = DeviceMemory(contextSize: int, moduleSize: int, dataSize: int, offset: int, total: int)

  datatype DeviceUtil = DeviceUtil(decUtil: int, encUtil: int, smUtil: int)

  datatype Slot = Slot(pid: int, hostPid: int, seqlock: int, status: int,
                       used: seq<DeviceMemory>, monitorUsed: seq<int>, deviceUtil: seq<DeviceUtil>)

  /** A slot with its fixed-size per-device arrays. */
  type ProcSlot = s: Slot |
      |s.used| == DEVICE_MAX_COUNT && |s.monitorUsed| == DEVICE_MAX_COUNT && |s.deviceUtil| == DEVICE_MAX_COUNT
    witness Slot(0, 0, 0, 0, seq(DEVICE_MAX_COUNT, _ => DeviceMemory(0, 0, 0, 0, 0)),
                 seq(DEVICE_MAX_COUNT, _ => 0), seq(DEVICE_MAX_COUNT, _ => DeviceUtil(0, 0, 0)))

  type Table = seq<ProcSlot>

  // ----- What is stored into a slot

  /** Zeroes what the source zeroes per device; offset, dec_util and enc_util are left. */
  function ZeroCounters(s: ProcSlot): ProcSlot {
    s.(used := seq(DEVICE_MAX_COUNT, d requires 0 <= d < DEVICE_MAX_COUNT => DeviceMemory(0, 0, 0, s.used[d].offset, 0)),
       monitorUsed := seq(DEVICE_MAX_COUNT, _ => 0),
       deviceUtil := seq(DEVICE_MAX_COUNT, d requires 0 <= d < DEVICE_MAX_COUNT => s.deviceUtil[d].(smUtil := 0)))
  }

  function Vacated(s: ProcSlot): ProcSlot {
    ZeroCounters(s).(seqlock := 0, pid := 0, hostPid := 0, status := 0)
  }

  function Reset(s: ProcSlot): ProcSlot {
    ZeroCounters(s).(seqlock := 0, status := 1)
  }

  function Fresh(s: ProcSlot, pid: int): ProcSlot {
    ZeroCounters(s).(seqlock := 0, pid := pid, hostPid := 0, status := 1)
  }

  function Exited(s: ProcSlot): ProcSlot {
    s.(pid := 0, status := 0)
  }

  ghost predicate NoUsage(s: ProcSlot) {
    && s.seqlock == 0
    && forall d | 0 <= d < DEVICE_MAX_COUNT ::
         && s.used[d].total == s.used[d].contextSize == s.used[d].moduleSize == s.used[d].dataSize == 0
         && s.monitorUsed[d] == 0 && s.deviceUtil[d].smUtil == 0
  }

  /** What none of the stores above touches. */
  ghost predicate Kept(s: ProcSlot, t: ProcSlot) {
    forall d | 0 <= d < DEVICE_MAX_COUNT ::
      && t.used[d].offset == s.used[d].offset
      && t.deviceUtil[d].decUtil == s.deviceUtil[d].decUtil && t.deviceUtil[d].encUtil == s.deviceUtil[d].encUtil
  }

  /** A place that its record has left. */
  ghost predicate Cleared(s: ProcSlot, t: ProcSlot) {
    t.pid == t.hostPid == t.status == 0 && NoUsage(t) && Kept(s, t)
  }

  /** A record out of use: its pid and status are zero, the rest waits for the cleaner. */
  ghost predicate OutOfUse(s: ProcSlot, t: ProcSlot) {
    && t.pid == t.status == 0
    && (t.hostPid, t.seqlock, t.used, t.monitorUsed, t.deviceUtil) == (s.hostPid, s.seqlock, s.used, s.monitorUsed, s.deviceUtil)
  }

  // ----- The cleaner

  datatype Cleaned = Cleaned(procs: Table, num: nat, my: int, killed: nat)

  /** One removal: proc_num falls, the last record is copied over the slot, and a cached
      pointer of the running process follows its record and vacates the old place. */
  function Drop(procs: Table, num: nat, my: int, slot: nat): Cleaned
    requires slot < num <= |procs|
  {
    var last := num - 1;
    var moved := procs[slot := procs[last]];
    if my == last then Cleaned(moved[last := Vacated(moved[last])], last, slot, 0)
    else Cleaned(moved, last, my, 0)
  }

  /** The cleaner from position slot on, having removed killed dead processes so far. */
  function Compact(procs: Table, num: nat, my: int, slot: nat, killed: nat, doClear: bool, dead: set<int>): (c: Cleaned)
    requires slot <= num <= |procs|
    ensures slot <= c.num <= num && |c.procs| == |procs|
    decreases num - slot
  {
    if slot == num then Cleaned(procs, num, my, killed)
    else if procs[slot].pid == 0 then
      var c := Drop(procs, num, my, slot);
      Compact(c.procs, c.num, c.my, slot, killed, doClear, dead)
    else if doClear && killed < MAX_KILLED && procs[slot].pid in dead then
      var c := Drop(procs, num, my, slot);
      Compact(c.procs, c.num, c.my, slot, killed + 1, doClear, dead)
    else Compact(procs, num, my, slot + 1, killed, doClear, dead)
  }

  function Clean(procs: Table, num: nat, my: int, doClear: bool, dead: set<int>): Cleaned
    requires num <= |procs|
  {
    Compact(procs, num, my, 0, 0, doClear, dead)
  }

  predicate Live(s: ProcSlot, dead: set<int>) { s.pid != 0 && s.pid !in dead }

  /** What is added up over slots. */
  datatype Measure =
    | PidIn(pids: set<int>)
    | Usage(dev: nat)
    | LiveUsage(dev: nat, dead: set<int>)

  function Weight(s: ProcSlot, m: Measure): int {
    match m
    case PidIn(pids) => if s.pid in pids then 1 else 0
    case Usage(dev) => if dev < DEVICE_MAX_COUNT then s.used[dev].total else 0
    case LiveUsage(dev, dead) => if Live(s, dead) && dev < DEVICE_MAX_COUNT then s.used[dev].total else 0
  }

  function Weights(s: Table, m: Measure): (w: seq<int>)
    ensures |w| == |s| && forall i | 0 <= i < |s| :: w[i] == Weight(s[i], m)
  {
    seq(|s|, i requires 0 <= i < |s| => Weight(s[i], m))
  }

  function Tally(s: Table, m: Measure): int { Sum(Weights(s, m)) }

  function SwapOut(s: Table, i: nat): Table
    requires i < |s|
  {
    s[i := s[|s| - 1]][..|s| - 1]
  }

  lemma SwapOutMultiset(s: Table, i: nat)
    requires i < |s|
    ensures multiset(SwapOut(s, i)) == multiset(s) - multiset{s[i]}
  {
    var front, last := s[..|s| - 1], s[|s| - 1];
    assert s == front + [last];
    if i < |front| {
      assert SwapOut(s, i) == front[i := last];
    } else {
      assert SwapOut(s, i) == front;
    }
  }

  lemma SwapOutTally(s: Table, i: nat, m: Measure)
    requires i < |s|
    ensures Tally(SwapOut(s, i), m) == Tally(s, m) - Weight(s[i], m)
  {
    var w := Weights(s, m);
    SumSwapOut(w, i);
    assert Weights(SwapOut(s, i), m) == w[i := w[|s| - 1]][..|s| - 1];
  }

  lemma DropKeeps(procs: Table, num: nat, my: int, slot: nat, m: Measure)
    requires slot < num <= |procs|
    ensures var c := Drop(procs, num, my, slot);
            && c.num == num - 1 && |c.procs| == |procs|
            && multiset(c.procs[..c.num]) == multiset(procs[..num]) - multiset{procs[slot]}
            && Tally(c.procs[..c.num], m) == Tally(procs[..num], m) - Weight(procs[slot], m)
            && forall j | 0 <= j < slot :: c.procs[j] == procs[j]
  {
    var c := Drop(procs, num, my, slot);
    assert c.procs[..c.num] == SwapOut(procs[..num], slot);
    SwapOutMultiset(procs[..num], slot);
    SwapOutTally(procs[..num], slot, m);
  }

  predicate Removable(s: ProcSlot, doClear: bool, dead: set<int>) {
    s.pid == 0 || (doClear && s.pid in dead)
  }

  /** No slot value gets more copies, and only removable ones can get fewer. */
  lemma {:induction false} CompactKeeps(procs: Table, num: nat, my: int, slot: nat, killed: nat, doClear: bool, dead: set<int>, x: ProcSlot)
    requires slot <= num <= |procs|
    ensures var c := Compact(procs, num, my, slot, killed, doClear, dead);
            var before, after := multiset(procs[..num])[x], multiset(c.procs[..c.num])[x];
            after <= before && (!Removable(x, doClear, dead) ==> after == before)
    decreases num - slot
  {
    if slot < num {
      if procs[slot].pid == 0 || (doClear && killed < MAX_KILLED && procs[slot].pid in dead) {
        DropKeeps(procs, num, my, slot, PidIn({}));
        var d := Drop(procs, num, my, slot);
        CompactKeeps(d.procs, d.num, d.my, slot, if procs[slot].pid == 0 then killed else killed + 1, doClear, dead, x);
      } else {
        CompactKeeps(procs, num, my, slot + 1, killed, doClear, dead, x);
      }
    }
  }

  /** Every slot lost is accounted for: by a pid of 0 or by one of the kills. */
  lemma {:induction false} CompactCounts(procs: Table, num: nat, my: int, slot: nat, killed: nat, doClear: bool, dead: set<int>)
    requires slot <= num <= |procs| && killed <= MAX_KILLED && 0 !in dead
    ensures var c := Compact(procs, num, my, slot, killed, doClear, dead);
            && killed <= c.killed <= MAX_KILLED && (!doClear ==> c.killed == killed)
            && c.killed + Tally(c.procs[..c.num], PidIn(dead)) == killed + Tally(procs[..num], PidIn(dead))
            && c.num - Tally(c.procs[..c.num], PidIn({0})) + c.killed == num - Tally(procs[..num], PidIn({0})) + killed
    decreases num - slot
  {
    if slot < num {
      if procs[slot].pid == 0 || (doClear && killed < MAX_KILLED && procs[slot].pid in dead) {
        DropKeeps(procs, num, my, slot, PidIn(dead));
        DropKeeps(procs, num, my, slot, PidIn({0}));
        var d := Drop(procs, num, my, slot);
        CompactCounts(d.procs, d.num, d.my, slot, if procs[slot].pid == 0 then killed else killed + 1, doClear, dead);
      } else {
        CompactCounts(procs, num, my, slot + 1, killed, doClear, dead);
      }
    }
  }

  /** What the pass has gone by stays, and is clean while the kill budget lasts. */
  lemma {:induction false} CompactCleans(procs: Table, num: nat, my: int, slot: nat, killed: nat, doClear: bool, dead: set<int>)
    requires slot <= num <= |procs|
    requires forall j | 0 <= j < slot :: procs[j].pid != 0
    requires doClear && killed < MAX_KILLED ==> forall j | 0 <= j < slot :: procs[j].pid !in dead
    ensures var c := Compact(procs, num, my, slot, killed, doClear, dead);
            && killed <= c.killed
            && (forall j | 0 <= j < slot :: c.procs[j] == procs[j])
            && (forall j | 0 <= j < c.num :: c.procs[j].pid != 0)
            && (doClear && c.killed < MAX_KILLED ==> forall j | 0 <= j < c.num :: c.procs[j].pid !in dead)
    decreases num - slot
  {
    if slot < num {
      if procs[slot].pid == 0 || (doClear && killed < MAX_KILLED && procs[slot].pid in dead) {
        DropKeeps(procs, num, my, slot, PidIn({}));
        var d := Drop(procs, num, my, slot);
        CompactCleans(d.procs, d.num, d.my, slot, if procs[slot].pid == 0 then killed else killed + 1, doClear, dead);
      } else {
        CompactCleans(procs, num, my, slot + 1, killed, doClear, dead);
      }
    }
  }

  /** The running process's cached pointer stays on its record, even when that was the one
      moved; the place it left is vacated, so its pid gets no second copy anywhere. */
  lemma {:induction false} CompactFollows(procs: Table, num: nat, my: int, slot: nat, killed: nat, doClear: bool, dead: set<int>)
    requires slot <= num <= |procs|
    requires 0 <= my < num && Live(procs[my], dead)
    ensures var c := Compact(procs, num, my, slot, killed, doClear, dead);
            && 0 <= c.my < c.num && c.procs[c.my] == procs[my]
            && (my <= slot ==> c.my == my)
            && (c.my != my ==> c.procs[my] == Vacated(procs[my]))
            && (forall j | num <= j < |procs| :: c.procs[j] == procs[j])
    ensures var c := Compact(procs, num, my, slot, killed, doClear, dead);
            (forall j | 0 <= j < |procs| && j != my :: procs[j].pid != procs[my].pid) ==>
              forall j | 0 <= j < |procs| && j != c.my :: c.procs[j].pid != procs[my].pid
    decreases num - slot
  {
    if slot < num {
      if procs[slot].pid == 0 || (doClear && killed < MAX_KILLED && procs[slot].pid in dead) {
        var d := Drop(procs, num, my, slot);
        CompactFollows(d.procs, d.num, d.my, slot, if procs[slot].pid == 0 then killed else killed + 1, doClear, dead);
      } else {
        CompactFollows(procs, num, my, slot + 1, killed, doClear, dead);
      }
    }
  }

  lemma {:induction false} CompactKeepsLiveUsage(procs: Table, num: nat, my: int, slot: nat, killed: nat, doClear: bool, dead: set<int>, dev: nat)
    requires slot <= num <= |procs|
    ensures var c := Compact(procs, num, my, slot, killed, doClear, dead);
            Tally(c.procs[..c.num], LiveUsage(dev, dead)) == Tally(procs[..num], LiveUsage(dev, dead))
    decreases num - slot
  {
    if slot < num {
      if procs[slot].pid == 0 || (doClear && killed < MAX_KILLED && procs[slot].pid in dead) {
        DropKeeps(procs, num, my, slot, LiveUsage(dev, dead));
        var d := Drop(procs, num, my, slot);
        CompactKeepsLiveUsage(d.procs, d.num, d.my, slot, if procs[slot].pid == 0 then killed else killed + 1, doClear, dead, dev);
      } else {
        CompactKeepsLiveUsage(procs, num, my, slot + 1, killed, doClear, dead, dev);
      }
    }
  }

  lemma TallyZero(s: Table, pids: set<int>)
    requires forall i | 0 <= i < |s| :: s[i].pid !in pids
    ensures Tally(s, PidIn(pids)) == 0
  {
    SumZero(Weights(s, PidIn(pids)));
  }

  lemma VacatedClears(s: ProcSlot)
    ensures Cleared(s, Vacated(s))
  {}

  /** At most ten dead ones go, and the count falls by them and by the slots with pid 0. */
  lemma CleanCounts(procs: Table, num: nat, my: int, doClear: bool, dead: set<int>)
    requires num <= |procs| && 0 !in dead
    ensures var c := Clean(procs, num, my, doClear, dead);
            var deadOnes := Tally(procs[..num], PidIn(dead));
            && c.killed == (if !doClear then 0 else if deadOnes < MAX_KILLED then deadOnes else MAX_KILLED)
            && c.num == num - Tally(procs[..num], PidIn({0})) - c.killed
  {
    var c := Clean(procs, num, my, doClear, dead);
    CompactCounts(procs, num, my, 0, 0, doClear, dead);
    CompactCleans(procs, num, my, 0, 0, doClear, dead);
    TallyZero(c.procs[..c.num], {0});
    if doClear && c.killed < MAX_KILLED { TallyZero(c.procs[..c.num], dead); }
    SumAtMost(seq(c.num, _ => 0), Weights(c.procs[..c.num], PidIn(dead)));
    SumZero(seq(c.num, _ => 0));
  }

  /** The cleaner, whole: exactly the slots with pid 0 and the first ten dead ones go, the
      others stay as they were, and the running process keeps its own. */
  lemma CleanCorrect(procs: Table, num: nat, my: int, doClear: bool, dead: set<int>)
    requires num <= |procs| && 0 !in dead
    ensures var c := Clean(procs, num, my, doClear, dead);
            && |c.procs| == |procs| && c.num <= num
            && multiset(c.procs[..c.num]) <= multiset(procs[..num])
            && (forall x: ProcSlot | x in multiset(procs[..num]) - multiset(c.procs[..c.num]) :: Removable(x, doClear, dead))
            && (forall j | 0 <= j < c.num :: c.procs[j].pid != 0)
            && (doClear && c.killed < MAX_KILLED ==> forall j | 0 <= j < c.num :: c.procs[j].pid !in dead)
    ensures var c := Clean(procs, num, my, doClear, dead);
            var deadOnes := Tally(procs[..num], PidIn(dead));
            && c.killed == (if !doClear then 0 else if deadOnes < MAX_KILLED then deadOnes else MAX_KILLED)
            && c.num == num - Tally(procs[..num], PidIn({0})) - c.killed
    ensures var c := Clean(procs, num, my, doClear, dead);
            0 <= my < num && Live(procs[my], dead) ==>
              && 0 <= c.my < c.num && c.procs[c.my] == procs[my]
              && (c.my != my ==> Cleared(procs[my], c.procs[my]))
  {
    forall x: ProcSlot {
      CompactKeeps(procs, num, my, 0, 0, doClear, dead, x);
    }
    CleanCounts(procs, num, my, doClear, dead);
    CompactCleans(procs, num, my, 0, 0, doClear, dead);
    if 0 <= my < num && Live(procs[my], dead) {
      CompactFollows(procs, num, my, 0, 0, doClear, dead);
      VacatedClears(procs[my]);
    }
  }

  // ----- Registration and exit

  /** The first position in start..end holding pid, or end. */
  function Find(procs: Table, start: nat, end: nat, pid: int): (i: nat)
    requires start <= end <= |procs|
    ensures start <= i <= end && (i < end ==> procs[i].pid == pid)
    ensures forall j | start <= j < i :: procs[j].pid != pid
    decreases end - start
  {
    if start == end || procs[start].pid == pid then start else Find(procs, start + 1, end, pid)
  }

  /** A record with the caller's pid is taken over, or a new one opened at proc_num. */
  function Register(procs: Table, num: nat, pid: int): Cleaned
    requires num < |procs|
  {
    var i := Find(procs, 0, num, pid);
    if i < num then Cleaned(procs[i := Reset(procs[i])], num, i, 0)
    else Cleaned(procs[num := Fresh(procs[num], pid)], num + 1, num, 0)
  }

  function InitProc(procs: Table, num: nat, pid: int, dead: set<int>): Cleaned
    requires num < |procs|
  {
    var r := Register(procs, num, pid);
    Clean(r.procs, r.num, r.my, true, dead)
  }

  /** The exit handler scans the whole array, not only the live range. */
  function ExitProc(procs: Table, pid: int): (r: Table)
    ensures |r| == |procs|
    ensures forall j | 0 <= j < |procs| ::
              if procs[j].pid == pid && forall k | 0 <= k < j :: procs[k].pid != pid
              then OutOfUse(procs[j], r[j]) else r[j] == procs[j]
  {
    var i := Find(procs, 0, |procs|, pid);
    if i < |procs| then procs[i := Exited(procs[i])] else procs
  }

  ghost predicate DistinctPids(procs: Table, num: nat)
    requires num <= |procs|
  {
    forall i, j | 0 <= i < j < num && procs[i].pid != 0 :: procs[i].pid != procs[j].pid
  }

  ghost predicate TableInv(procs: Table, num: int) {
    |procs| == MAX_PROCESS_NUM && 0 <= num <= MAX_PROCESS_NUM && DistinctPids(procs, num)
  }

  lemma {:induction false} CompactKeepsDistinct(procs: Table, num: nat, my: int, slot: nat, killed: nat, doClear: bool, dead: set<int>)
    requires slot <= num <= |procs| && DistinctPids(procs, num)
    ensures var c := Compact(procs, num, my, slot, killed, doClear, dead);
            DistinctPids(c.procs, c.num)
    decreases num - slot
  {
    if slot < num {
      if procs[slot].pid == 0 || (doClear && killed < MAX_KILLED && procs[slot].pid in dead) {
        var d := Drop(procs, num, my, slot);
        assert forall j | 0 <= j < d.num :: d.procs[j] == if j == slot then procs[num - 1] else procs[j];
        CompactKeepsDistinct(d.procs, d.num, d.my, slot, if procs[slot].pid == 0 then killed else killed + 1, doClear, dead);
      } else {
        CompactKeepsDistinct(procs, num, my, slot + 1, killed, doClear, dead);
      }
    }
  }

  /** After init exactly one live-range slot has the caller's pid; it carries no usage and is the
      cached one. A record taken over keeps its host pid, a new one has none yet. */
  lemma InitProcCorrect(procs: Table, num: nat, pid: int, dead: set<int>)
    requires TableInv(procs, num) && num < MAX_PROCESS_NUM && pid != 0 && pid !in dead
    ensures var c := InitProc(procs, num, pid, dead);
            && TableInv(c.procs, c.num)
            && 0 <= c.my < c.num && c.procs[c.my].pid == pid && c.procs[c.my].status == 1 && NoUsage(c.procs[c.my])
            && (forall j | 0 <= j < c.num && j != c.my :: c.procs[j].pid != pid)
            && (forall j | 0 <= j < c.num :: c.procs[j].pid != 0)
    ensures var c, i := InitProc(procs, num, pid, dead), Find(procs, 0, num, pid);
            Kept(procs[i], c.procs[c.my]) && c.procs[c.my].hostPid == if i < num then procs[i].hostPid else 0
  {
    var r := Register(procs, num, pid);
    assert DistinctPids(r.procs, r.num);
    CompactKeepsDistinct(r.procs, r.num, r.my, 0, 0, true, dead);
    CompactCleans(r.procs, r.num, r.my, 0, 0, true, dead);
    CompactFollows(r.procs, r.num, r.my, 0, 0, true, dead);
  }

  /** A record without usage taken over or opened for pid: the other records stay, and no tally
      but that of the pid itself moves. */
  lemma TakeOverKeeps(was: Table, i: nat, mine: ProcSlot, pid: int, dead: set<int>, dev: nat)
    requires i < |was| && was[i].pid == mine.pid == pid && pid !in dead && NoUsage(mine)
    requires forall j | 0 <= j < |was| && j != i :: was[j].pid != pid
    ensures Tally(was[i := mine], PidIn(dead)) == Tally(was, PidIn(dead))
    ensures Tally(was[i := mine], LiveUsage(dev, dead)) == Tally(was, LiveUsage(dev, dead + {pid}))
  {
    assert Weights(was[i := mine], PidIn(dead)) == Weights(was, PidIn(dead));
    assert Weights(was[i := mine], LiveUsage(dev, dead)) == Weights(was, LiveUsage(dev, dead + {pid}));
  }

  lemma OpenKeeps(was: Table, mine: ProcSlot, pid: int, dead: set<int>, dev: nat)
    requires mine.pid == pid && pid !in dead && NoUsage(mine)
    requires forall j | 0 <= j < |was| :: was[j].pid != pid
    ensures Tally(was + [mine], PidIn(dead)) == Tally(was, PidIn(dead))
    ensures Tally(was + [mine], LiveUsage(dev, dead)) == Tally(was, LiveUsage(dev, dead + {pid}))
  {
    var n, d := |was|, Weights(was, PidIn(dead));
    var u := Weights(was, LiveUsage(dev, dead + {pid}));
    assert Weights(was + [mine], PidIn(dead)) == d + [0] && (d + [0])[..n] == d;
    assert Weights(was + [mine], LiveUsage(dev, dead)) == u + [0] && (u + [0])[..n] == u;
  }

  lemma RegisterKeeps(procs: Table, num: nat, pid: int, dead: set<int>, x: ProcSlot, dev: nat)
    requires TableInv(procs, num) && num < MAX_PROCESS_NUM && pid != 0 && pid !in dead
    ensures var r := Register(procs, num, pid);
            && Tally(r.procs[..r.num], PidIn(dead)) == Tally(procs[..num], PidIn(dead))
            && (x.pid != pid ==> multiset(r.procs[..r.num])[x] == multiset(procs[..num])[x])
            && Tally(r.procs[..r.num], LiveUsage(dev, dead)) == Tally(procs[..num], LiveUsage(dev, dead + {pid}))
  {
    var r, i, was := Register(procs, num, pid), Find(procs, 0, num, pid), procs[..num];
    if i < num {
      assert r.procs[..r.num] == was[i := Reset(procs[i])];
      TakeOverKeeps(was, i, Reset(procs[i]), pid, dead, dev);
    } else {
      assert r.procs[..r.num] == was + [Fresh(procs[num], pid)];
      OpenKeeps(was, Fresh(procs[num], pid), pid, dead, dev);
    }
  }

  /** Registration cleans: of n dead records ten go, or all of them; the live records of other
      processes stay, and so does their usage on every device. */
  lemma InitProcCleans(procs: Table, num: nat, pid: int, dead: set<int>, x: ProcSlot, dev: nat)
    requires TableInv(procs, num) && num < MAX_PROCESS_NUM && pid != 0 && pid !in dead && 0 !in dead
    ensures var c, n := InitProc(procs, num, pid, dead), Tally(procs[..num], PidIn(dead));
            && Tally(c.procs[..c.num], PidIn(dead)) == (if n < 10 then 0 else n - 10)
            && (Live(x, dead) && x.pid != pid ==> multiset(c.procs[..c.num])[x] == multiset(procs[..num])[x])
            && Tally(c.procs[..c.num], LiveUsage(dev, dead)) == Tally(procs[..num], LiveUsage(dev, dead + {pid}))
  {
    var r := Register(procs, num, pid);
    RegisterKeeps(procs, num, pid, dead, x, dev);
    CleanCorrect(r.procs, r.num, r.my, true, dead);
    CompactCounts(r.procs, r.num, r.my, 0, 0, true, dead);
    CompactKeeps(r.procs, r.num, r.my, 0, 0, true, dead, x);
    CompactKeepsLiveUsage(r.procs, r.num, r.my, 0, 0, true, dead, dev);
  }

  /** A process with a record in the live range loses exactly that one on exit, and copies
      above proc_num that earlier moves left behind stay untouched. */
  lemma ExitProcCorrect(procs: Table, num: nat, pid: int, i: nat)
    requires TableInv(procs, num) && pid != 0 && i < num && procs[i].pid == pid
    ensures ExitProc(procs, pid) == procs[i := Exited(procs[i])] && OutOfUse(procs[i], ExitProc(procs, pid)[i])
    ensures TableInv(ExitProc(procs, pid), num)
    ensures forall j | 0 <= j < num :: ExitProc(procs, pid)[j].pid != pid
  {
    assert Find(procs, 0, |procs|, pid) == i;
  }

  /** The exit handler touches the array above proc_num only for a process that has a copy
      there and no record in the live range. */
  lemma ExitTouchesStale(procs: Table, num: nat, pid: int)
    requires num <= |procs| && pid != 0
    ensures ExitProc(procs, pid)[num..] == procs[num..] <==>
            (exists j | 0 <= j < num :: procs[j].pid == pid) || (forall j | num <= j < |procs| :: procs[j].pid != pid)
  {
    var i := Find(procs, 0, |procs|, pid);
    if num <= i < |procs| {
      assert ExitProc(procs, pid)[num..][i - num] != procs[num..][i - num];
    }
  }

  // ----- Runs of operations by any processes

  datatype Op =
    | Init(pid: int, dead: set<int>)
    | Exit(pid: int)                                      // a registered process exits
    | Quit(pid: int)                                      // one exits that has not registered
    | Kill(pid: int)
    | Clear(my: int, doClear: bool, dead: set<int>)

  /** The table, the pids of the processes now registered, and of all that ever were. */
  datatype World = World(procs: Table, num: int, registered: set<int>, seen: set<int>)

  /** Processes found dead are not registered ones. A pid may come back after its process died. */
  predicate Allowed(w: World, op: Op) {
    match op
    case Init(pid, dead) => pid != 0 && pid !in w.registered && 0 !in dead && dead !! w.registered + {pid}
    case Exit(pid) => pid in w.registered
    case Quit(pid) => pid != 0 && pid !in w.registered
    case Kill(pid) => pid in w.registered
    case Clear(_, _, dead) => 0 !in dead && dead !! w.registered
  }

  /** With a full table a new process gives up: it only runs its exit handler. */
  function Apply(w: World, op: Op): World
    requires 0 <= w.num <= |w.procs|
  {
    match op
    case Init(pid, dead) =>
      if w.num >= MAX_PROCESS_NUM || w.num == |w.procs| then w.(procs := ExitProc(w.procs, pid))
      else
        var c := InitProc(w.procs, w.num, pid, dead);
        World(c.procs, c.num, w.registered + {pid}, w.seen + {pid})
    case Exit(pid) => w.(procs := ExitProc(w.procs, pid), registered := w.registered - {pid})
    case Quit(pid) => w.(procs := ExitProc(w.procs, pid))
    case Kill(pid) => w.(registered := w.registered - {pid})
    case Clear(my, doClear, dead) =>
      var c := Clean(w.procs, w.num, my, doClear, dead);
      w.(procs := c.procs, num := c.num)
  }

  ghost predicate Run(w: World, ops: seq<Op>, v: World)
    decreases |ops|
  {
    if ops == [] then w == v
    else Allowed(w, ops[0]) && 0 <= w.num <= |w.procs| && Run(Apply(w, ops[0]), ops[1..], v)
  }

  /** The region as it is created. */
  ghost predicate Start(w: World) {
    && |w.procs| == MAX_PROCESS_NUM && w.num == 0 && w.registered == {} && w.seen == {}
    && forall j | 0 <= j < |w.procs| :: w.procs[j].pid == 0
  }

  ghost predicate HasRecord(procs: Table, num: int, pid: int) {
    exists i :: 0 <= i < num <= |procs| && procs[i].pid == pid
  }

  ghost predicate PidsAmong(procs: Table, pids: set<int>) {
    forall j | 0 <= j < |procs| :: procs[j].pid == 0 || procs[j].pid in pids
  }

  ghost predicate Inv(w: World) {
    && TableInv(w.procs, w.num)
    && w.registered <= w.seen && 0 !in w.seen
    && (forall pid | pid in w.registered :: HasRecord(w.procs, w.num, pid))
    && PidsAmong(w.procs, w.seen)
  }

  /** A pass brings no pid into the array that was not there. */
  lemma {:induction false} CompactPids(procs: Table, num: nat, my: int, slot: nat, killed: nat, doClear: bool, dead: set<int>, pids: set<int>)
    requires slot <= num <= |procs| && PidsAmong(procs, pids)
    ensures PidsAmong(Compact(procs, num, my, slot, killed, doClear, dead).procs, pids)
    decreases num - slot
  {
    if slot < num {
      if procs[slot].pid == 0 || (doClear && killed < MAX_KILLED && procs[slot].pid in dead) {
        var d := Drop(procs, num, my, slot);
        forall j | 0 <= j < |d.procs| ensures d.procs[j].pid == 0 || d.procs[j].pid in pids {
          assert procs[j].pid == 0 || procs[j].pid in pids;
        }
        CompactPids(d.procs, d.num, d.my, slot, if procs[slot].pid == 0 then killed else killed + 1, doClear, dead, pids);
      } else {
        CompactPids(procs, num, my, slot + 1, killed, doClear, dead, pids);
      }
    }
  }

  lemma CleanKeepsRecord(procs: Table, num: nat, my: int, doClear: bool, dead: set<int>, pid: int)
    requires num <= |procs| && HasRecord(procs, num, pid) && pid != 0 && pid !in dead
    ensures var c := Clean(procs, num, my, doClear, dead); HasRecord(c.procs, c.num, pid)
  {
    var i :| 0 <= i < num && procs[i].pid == pid;
    var c := Clean(procs, num, my, doClear, dead);
    assert procs[..num][i] == procs[i];
    CompactKeeps(procs, num, my, 0, 0, doClear, dead, procs[i]);
    assert procs[i] in multiset(c.procs[..c.num]);
    var k :| 0 <= k < c.num && c.procs[..c.num][k] == procs[i];
    assert c.procs[k].pid == pid;
  }

  lemma RegisterKeepsRecord(procs: Table, num: nat, pid: int, q: int)
    requires num < |procs| && (q == pid || HasRecord(procs, num, q))
    ensures var r := Register(procs, num, pid); HasRecord(r.procs, r.num, q)
  {
    var r := Register(procs, num, pid);
    if q == pid {
      assert r.procs[r.my].pid == pid;
    } else {
      var i :| 0 <= i < num && procs[i].pid == q;
      assert r.procs[i].pid == q;
    }
  }

  lemma ExitKeepsRecord(procs: Table, num: nat, pid: int, q: int)
    requires num <= |procs| && HasRecord(procs, num, q) && q != pid
    ensures HasRecord(ExitProc(procs, pid), num, q)
  {
    var i :| 0 <= i < num && procs[i].pid == q;
    assert ExitProc(procs, pid)[i].pid == q;
  }

  lemma InitKeepsInv(w: World, pid: int, dead: set<int>)
    requires Inv(w) && Allowed(w, Init(pid, dead)) && w.num < MAX_PROCESS_NUM
    ensures Inv(Apply(w, Init(pid, dead)))
  {
    var v := Apply(w, Init(pid, dead));
    InitProcCorrect(w.procs, w.num, pid, dead);
    var r := Register(w.procs, w.num, pid);
    assert PidsAmong(r.procs, v.seen);
    CompactPids(r.procs, r.num, r.my, 0, 0, true, dead, v.seen);
    forall q | q in v.registered ensures HasRecord(v.procs, v.num, q) {
      RegisterKeepsRecord(w.procs, w.num, pid, q);
      CleanKeepsRecord(r.procs, r.num, r.my, true, dead, q);
    }
  }

  lemma ClearKeepsInv(w: World, my: int, doClear: bool, dead: set<int>)
    requires Inv(w) && Allowed(w, Clear(my, doClear, dead))
    ensures Inv(Apply(w, Clear(my, doClear, dead)))
  {
    var v := Apply(w, Clear(my, doClear, dead));
    CompactKeepsDistinct(w.procs, w.num, my, 0, 0, doClear, dead);
    CompactPids(w.procs, w.num, my, 0, 0, doClear, dead, w.seen);
    forall q | q in v.registered ensures HasRecord(v.procs, v.num, q) {
      CleanKeepsRecord(w.procs, w.num, my, doClear, dead, q);
    }
  }

  lemma OpKeepsInv(w: World, op: Op)
    requires Inv(w) && Allowed(w, op)
    ensures Inv(Apply(w, op))
  {
    match op
    case Clear(my, doClear, dead) => ClearKeepsInv(w, my, doClear, dead);
    case Kill(_) =>
    case Init(pid, dead) =>
      if w.num < MAX_PROCESS_NUM {
        InitKeepsInv(w, pid, dead);
      } else {
        forall q | q in w.registered { ExitKeepsRecord(w.procs, w.num, pid, q); }
      }
    case Exit(pid) => forall q | q in w.registered && q != pid { ExitKeepsRecord(w.procs, w.num, pid, q); }
    case Quit(pid) => forall q | q in w.registered { ExitKeepsRecord(w.procs, w.num, pid, q); }
  }

  lemma {:induction false} RunKeepsInv(w: World, ops: seq<Op>, v: World)
    requires Inv(w) && Run(w, ops, v)
    ensures Inv(v)
    decreases |ops|
  {
    if ops != [] {
      OpKeepsInv(w, ops[0]);
      RunKeepsInv(Apply(w, ops[0]), ops[1..], v);
    }
  }

  /** In every run each registered process has exactly one record in the live range. */
  lemma RegisteredHaveOneRecord(w0: World, ops: seq<Op>, w: World, pid: int) returns (i: nat)
    requires Start(w0) && Run(w0, ops, w) && pid in w.registered
    ensures TableInv(w.procs, w.num) && pid != 0
    ensures i < w.num && forall j | 0 <= j < w.num :: w.procs[j].pid == pid <==> j == i
  {
    RunKeepsInv(w0, ops, w);
    i :| 0 <= i < w.num && w.procs[i].pid == pid;
  }

  /** In every run the exit of a registered process takes that record out of use and changes
      nothing else, in particular no stale copy above proc_num. */
  lemma ExitInRun(w0: World, ops: seq<Op>, w: World, pid: int) returns (i: nat)
    requires Start(w0) && Run(w0, ops, w) && pid in w.registered
    ensures i < w.num <= |w.procs| && w.procs[i].pid == pid
    ensures var v := Apply(w, Exit(pid));
            && v.procs == w.procs[i := v.procs[i]] && OutOfUse(w.procs[i], v.procs[i]) && v.procs[w.num..] == w.procs[w.num..]
            && forall j | 0 <= j < v.num :: v.procs[j].pid != pid
  {
    i := RegisteredHaveOneRecord(w0, ops, w, pid);
    ExitProcCorrect(w.procs, w.num, pid, i);
  }

  /** In every run the exit of a process whose pid never registered changes nothing at all;
      one that has not registered itself touches a stale copy exactly when an earlier process
      with its pid left one and no live-range record. */
  lemma QuitInRun(w0: World, ops: seq<Op>, w: World, pid: int)
    requires Start(w0) && Run(w0, ops, w) && Allowed(w, Quit(pid))
    ensures 0 <= w.num <= |w.procs|
    ensures var v := Apply(w, Quit(pid));
            && (pid !in w.seen ==> v == w)
            && (v.procs[w.num..] != w.procs[w.num..] <==>
                  && pid in w.seen && !HasRecord(w.procs, w.num, pid)
                  && exists j :: w.num <= j < |w.procs| && w.procs[j].pid == pid)
  {
    RunKeepsInv(w0, ops, w);
    ExitTouchesStale(w.procs, w.num, pid);
  }

  // ----- A stale copy is hit

  lemma {:induction false} CompactIdle(procs: Table, num: nat, my: int, slot: nat)
    requires slot <= num <= |procs| && forall j | slot <= j < num :: procs[j].pid != 0
    ensures Compact(procs, num, my, slot, 0, true, {}) == Cleaned(procs, num, my, 0)
    decreases num - slot
  {
    if slot < num { CompactIdle(procs, num, my, slot + 1); }
  }

  lemma InitAppends(w: World, pid: int)
    requires 0 <= w.num < MAX_PROCESS_NUM == |w.procs| && pid != 0
    requires forall j | 0 <= j < w.num :: w.procs[j].pid != 0 && w.procs[j].pid != pid
    ensures Apply(w, Init(pid, {})) ==
            World(w.procs[w.num := Fresh(w.procs[w.num], pid)], w.num + 1, w.registered + {pid}, w.seen + {pid})
  {
    var r := Register(w.procs, w.num, pid);
    CompactIdle(r.procs, r.num, r.my, 0);
  }

  lemma {:induction false} RunMore(w0: World, ops: seq<Op>, w: World, op: Op) returns (more: seq<Op>, v: World)
    requires Run(w0, ops, w) && Allowed(w, op) && 0 <= w.num <= |w.procs|
    ensures v == Apply(w, op) && Run(w0, more, v)
    decreases |ops|
  {
    if ops == [] {
      more, v := [op], Apply(w, op);
      assert more[1..] == [];
    } else {
      var rest;
      rest, v := RunMore(Apply(w0, ops[0]), ops[1..], w, op);
      more := [ops[0]] + rest;
      assert more[1..] == rest;
    }
  }

  /** Three processes register, the second exits, and the first cleans up: the third's record
      moves down, and a copy of it stays above proc_num. */
  lemma CopyLeft(w0: World) returns (ops: seq<Op>, w: World)
    requires Start(w0)
    ensures Run(w0, ops, w) && |w.procs| == MAX_PROCESS_NUM && w.num == 2 && w.registered == {1, 3} && 3 in w.seen
    ensures w.procs[0].pid == 1 && w.procs[1].pid == w.procs[2].pid == 3
  {
    InitAppends(w0, 1);
    ops, w := RunMore(w0, [], w0, Init(1, {}));
    InitAppends(w, 2);
    ops, w := RunMore(w0, ops, w, Init(2, {}));
    InitAppends(w, 3);
    ops, w := RunMore(w0, ops, w, Init(3, {}));
    assert w.procs[0].pid == 1 && w.procs[1].pid == 2 && w.procs[2].pid == 3 && w.num == 3;
    ops, w := RunMore(w0, ops, w, Exit(2));
    assert w.procs[0].pid == 1 && w.procs[1].pid == 0 && w.procs[2].pid == 3 && w.num == 3;
    var d := Drop(w.procs, 3, 0, 1);
    CompactIdle(d.procs, 2, 0, 1);
    assert Clean(w.procs, 3, 0, true, {}) == Compact(w.procs, 3, 0, 1, 0, true, {});
    ops, w := RunMore(w0, ops, w, Clear(0, true, {}));
  }

  /** If the third then exits, and its pid comes back in a process that exits before it has
      registered, that one's exit handler finds the stale copy. */
  lemma StaleCopyReachable(w0: World) returns (ops: seq<Op>, w: World)
    requires Start(w0)
    ensures Run(w0, ops, w) && Allowed(w, Quit(3)) && 0 <= w.num <= |w.procs|
    ensures Apply(w, Quit(3)).procs[w.num..] != w.procs[w.num..]
  {
    ops, w := CopyLeft(w0);
    ops, w := RunMore(w0, ops, w, Exit(3));
    assert w.procs[1].pid == 0 && w.procs[2].pid == 3;
    QuitInRun(w0, ops, w, 3);
  }
}
