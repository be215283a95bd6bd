/** What other processes leave of the slot table when they run: any records of their own around
    the record of the process at hand, which stays where it is. */
module Interference {
  import opened Common
  import opened Sums
  import opened ProcSlots
  import opened SharedRegion

  /** A slot that nobody uses. */
  function Blank(): ProcSlot {
    Slot(0, 0, 0, 0, seq(DEVICE_MAX_COUNT, _ => DeviceMemory(0, 0, 0, 0, 0)),
         seq(DEVICE_MAX_COUNT, _ => 0), seq(DEVICE_MAX_COUNT, _ => DeviceUtil(0, 0, 0)))
  }

  /** The live range with the records of the others around this process's own at position my. */
  function Around(others: Table, mine: ProcSlot, my: nat): (t: Table)
    ensures |t| == (if my < |others| then |others| else my) + 1 && t[my] == mine
  {
    var filled := if my < |others| then others else others + seq(my - |others|, _ => Blank());
    filled[..my] + [mine] + filled[my..]
  }

  /** Records that processes other than pid may have. */
  ghost predicate Foreign(others: Table, pid: int) {
    && |others| < MAX_PROCESS_NUM && NonNegative(others) && DistinctPids(others, |others|)
    && forall i | 0 <= i < |others| :: others[i].pid != pid
  }

  /** The usage on a device of the live processes among others and of mine. */
  function UsageBeside(others: Table, mine: ProcSlot, dev: nat, dead: set<int>): int {
    Tally(others, LiveUsage(dev, dead)) + Weight(mine, LiveUsage(dev, dead))
  }

  lemma TallyConcat(s: Table, t: Table, m: Measure)
    ensures Tally(s + t, m) == Tally(s, m) + Tally(t, m)
  {
    assert Weights(s + t, m) == Weights(s, m) + Weights(t, m);
    SumConcat(Weights(s, m), Weights(t, m));
  }

  lemma TallyOne(x: ProcSlot, m: Measure)
    ensures Tally([x], m) == Weight(x, m)
  {
    var v := Weight(x, m);
    assert [v][..|[v]| - 1] == [] && Sum([v]) == v;
    assert Weights([x], m) == [v];
  }

  lemma TallyBlanks(n: nat, dev: nat, dead: set<int>)
    ensures Tally(seq(n, _ => Blank()), LiveUsage(dev, dead)) == 0
  {
    SumZero(Weights(seq(n, _ => Blank()), LiveUsage(dev, dead)));
  }

  /** Where the others' records stand has no bearing on the usage. */
  lemma AroundUsage(others: Table, mine: ProcSlot, my: nat, dev: nat, dead: set<int>)
    ensures Tally(Around(others, mine, my), LiveUsage(dev, dead)) == UsageBeside(others, mine, dev, dead)
  {
    var m, blanks := LiveUsage(dev, dead), seq(if my < |others| then 0 else my - |others|, _ => Blank());
    var filled := others + blanks;
    assert my < |others| ==> filled == others;
    assert filled == filled[..my] + filled[my..];
    TallyConcat(filled[..my], filled[my..], m);
    TallyConcat(filled[..my], [mine], m);
    TallyConcat(filled[..my] + [mine], filled[my..], m);
    TallyOne(mine, m);
    TallyConcat(others, blanks, m);
    TallyBlanks(|blanks|, dev, dead);
  }

  lemma AroundAt(others: Table, mine: ProcSlot, my: nat, i: nat)
    requires i < |Around(others, mine, my)|
    ensures var x := Around(others, mine, my)[i];
            x == if i == my then mine
                 else if i < my then (if i < |others| then others[i] else Blank())
                 else others[i - 1]
  {}

  /** It keeps readers waiting exactly when one of the records does. */
  lemma AroundJammed(others: Table, mine: ProcSlot, my: nat)
    ensures Jammed(Around(others, mine, my)) <==> Jammed(others) || mine.seqlock % 2 == 1
  {
    var t := Around(others, mine, my);
    if Jammed(others) {
      var i :| 0 <= i < |others| && others[i].seqlock % 2 == 1;
      var k := if i < my then i else i + 1;
      AroundAt(others, mine, my, k);
      assert t[k].seqlock % 2 == 1;
    }
    if mine.seqlock % 2 == 1 { assert t[my].seqlock % 2 == 1; }
    if Jammed(t) {
      var k :| 0 <= k < |t| && t[k].seqlock % 2 == 1;
      AroundAt(others, mine, my, k);
    }
  }

  lemma AroundValid(others: Table, mine: ProcSlot, my: nat)
    requires Foreign(others, mine.pid) && forall d | 0 <= d < DEVICE_MAX_COUNT :: 0 <= mine.used[d].total
    ensures var t := Around(others, mine, my); NonNegative(t) && DistinctPids(t, |t|)
  {
    var t := Around(others, mine, my);
    forall i | 0 <= i < |t|
      ensures forall d | 0 <= d < DEVICE_MAX_COUNT :: 0 <= t[i].used[d].total
      ensures forall j | i < j < |t| && t[i].pid != 0 :: t[i].pid != t[j].pid
    {
      AroundAt(others, mine, my, i);
      forall j | i < j < |t| && t[i].pid != 0 ensures t[i].pid != t[j].pid {
        AroundAt(others, mine, my, j);
      }
    }
  }

  /** Other processes run: their records are now the given ones. */
  method OthersRun(info: RegionInfo, others: Table)
    requires info.Registered() && NonNegative(info.LiveRange()) && Foreign(others, info.pid)
    modifies info.region`procNum, info.region.procs
    ensures info.Registered() && NonNegative(info.LiveRange())
    ensures info.LiveRange() == Around(others, old(info.region.procs[info.mySlot]), info.mySlot)
  {
    var t := Around(others, info.region.procs[info.mySlot], info.mySlot);
    assert info.LiveRange()[info.mySlot] == info.region.procs[info.mySlot];
    AroundValid(others, info.region.procs[info.mySlot], info.mySlot);
    forall i | 0 <= i < |t| {
      info.region.procs[i] := t[i];
    }
    info.region.procNum := |t|;
    assert info.region.procs[..|t|] == t;
    assert forall i | 0 <= i < |t| :: info.region.procs[..][i] == t[i];
  }
}
