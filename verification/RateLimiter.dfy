/** The token bucket that throttles kernel launches, and the controller that refills it.

    Launching threads and the watcher thread race on the per-device token counts: every
    load and every compare-and-swap is one step. */
module RateLimiter {
  import opened Common
  import opened Sums

  const MIN_DIFF := 5

  /** What setspec and the limit cache fix for a device once. */
  datatype Gpu = Gpu(smNum: nat, maxThreadPerSm: nat, upLimit: nat)

  predicate Throttled(g: Gpu) { 0 < g.upLimit < 100 }

  // ----- The controller

  function UtilizationDiff(upLimit: int, user: int): (d: nat)
    ensures d >= MIN_DIFF
  {
    var d := if upLimit < user then user - upLimit else upLimit - user;
    if d < MIN_DIFF then MIN_DIFF else d
  }

  function BaseIncrement(g: Gpu, diff: nat): nat {
    g.smNum * g.smNum * g.maxThreadPerSm * diff / 2560
  }

  function Increment(g: Gpu, user: int): nat {
    var diff := UtilizationDiff(g.upLimit, user);
    var increment := BaseIncrement(g, diff);
    if diff > g.upLimit / 2 then increment * diff * 2 / (g.upLimit + 1) else increment
  }

  function Delta(g: Gpu, user: int, share: int, total: int): int {
    var increment := Increment(g, user);
    if user <= g.upLimit then if share + increment > total then total else share + increment
    else if share - increment < 0 then 0 else share - increment
  }

  lemma PositiveFactor(x: int, n: int)
    requires n > 0 && x * n > 0
    ensures x > 0
  {}

  lemma DivAtLeast(a: int, b: int, n: int)
    requires n > 0 && a >= b * n
    ensures a / n >= b
  {
    var q, r := a / n, a % n;
    assert a == q * n + r && r < n;
    assert (q - b + 1) * n == q * n - b * n + n;
    PositiveFactor(q - b + 1, n);
  }

  lemma ProductMonotone(c: nat, x: nat, y: nat)
    requires x <= y
    ensures c * x <= c * y
  {}

  lemma BaseMonotone(g: Gpu, d: nat, e: nat)
    requires d <= e
    ensures BaseIncrement(g, d) <= BaseIncrement(g, e)
  {
    ProductMonotone(g.smNum * g.smNum * g.maxThreadPerSm, d, e);
  }

  /** The acceleration never shrinks the increment, which is at least the one for the least difference. */
  lemma IncrementAtLeast(g: Gpu, user: int)
    ensures Increment(g, user) >= BaseIncrement(g, UtilizationDiff(g.upLimit, user)) >= BaseIncrement(g, MIN_DIFF)
  {
    var diff := UtilizationDiff(g.upLimit, user);
    var increment := BaseIncrement(g, diff);
    BaseMonotone(g, MIN_DIFF, diff);
    if diff > g.upLimit / 2 {
      ProductMonotone(increment, g.upLimit + 1, diff * 2);
      assert increment * diff * 2 == increment * (diff * 2);
      DivAtLeast(increment * diff * 2, increment, g.upLimit + 1);
    }
  }

  /** One controller step stays in range, moves the right way, and by a full increment unless it hits the end. */
  lemma DeltaMoves(g: Gpu, user: int, share: int, total: int)
    requires 0 <= share <= total
    ensures var next, least := Delta(g, user, share, total), BaseIncrement(g, MIN_DIFF);
            && 0 <= next <= total
            && (user <= g.upLimit ==> share <= next && (next == total || next >= share + least))
            && (user > g.upLimit ==> next <= share && (next == 0 || next <= share - least))
  {
    IncrementAtLeast(g, user);
  }

  lemma DivExact(a: nat, n: nat)
    requires n > 0
    ensures n * (a / n) <= a < n * (a / n) + n
  {
    assert a == (a / n) * n + a % n;
  }

  /** The distance from the limit, which counts as five at least. */
  lemma DiffExact(upLimit: nat, user: int)
    ensures var diff := UtilizationDiff(upLimit, user);
            && (0 - 5 < upLimit - user < 5 ==> diff == 5)
            && (upLimit - user >= 5 ==> diff == upLimit - user)
            && (user - upLimit >= 5 ==> diff == user - upLimit)
  {}

  lemma BaseExact(g: Gpu, diff: nat)
    ensures var product, base := g.smNum * g.smNum * g.maxThreadPerSm * diff, BaseIncrement(g, diff);
            2560 * base <= product < 2560 * base + 2560
  {
    DivExact(g.smNum * g.smNum * g.maxThreadPerSm * diff, 2560);
  }

  /** The increment is the base one near the limit; far from it, it is stretched by twice the
      distance over the limit and one, rounded down. */
  lemma IncrementExact(g: Gpu, user: int)
    ensures var diff, inc := UtilizationDiff(g.upLimit, user), Increment(g, user);
            var base, n := BaseIncrement(g, diff), g.upLimit + 1;
            && (diff <= g.upLimit / 2 ==> inc == base)
            && (diff > g.upLimit / 2 ==> n * inc <= base * diff * 2 < n * inc + n)
  {
    var diff := UtilizationDiff(g.upLimit, user);
    if diff > g.upLimit / 2 { DivExact(BaseIncrement(g, diff) * diff * 2, g.upLimit + 1); }
  }

  /** A step of the controller moves the share by the increment, as far as zero and total allow. */
  lemma DeltaExact(g: Gpu, user: int, share: int, total: int)
    requires 0 <= share <= total
    ensures var next, inc := Delta(g, user, share, total), Increment(g, user);
            && (user <= g.upLimit ==> next == share + inc || (next == total && total < share + inc))
            && (user > g.upLimit ==> next == share - inc || (next == 0 && share < inc))
  {}

  /** The share after the controller has seen the readings one after the other. */
  function Shares(g: Gpu, users: seq<int>, share: int, total: int): int {
    if users == [] then share
    else Delta(g, users[|users| - 1], Shares(g, users[..|users| - 1], share, total), total)
  }

  lemma OneMore(n: nat, least: nat)
    ensures (n + 1) * least == n * least + least
  {}

  lemma {:induction false} SharesGrow(g: Gpu, users: seq<int>, share: int, total: int, least: nat)
    requires 0 <= share <= total && forall i | 0 <= i < |users| :: users[i] <= g.upLimit
    requires least == BaseIncrement(g, MIN_DIFF)
    ensures var s := Shares(g, users, share, total);
            0 <= s <= total && (s == total || s >= share + |users| * least)
  {
    if users != [] {
      var front := users[..|users| - 1];
      SharesGrow(g, front, share, total, least);
      DeltaMoves(g, users[|users| - 1], Shares(g, front, share, total), total);
      OneMore(|front|, least);
    }
  }

  lemma {:induction false} SharesShrink(g: Gpu, users: seq<int>, share: int, total: int, least: nat)
    requires 0 <= share <= total && forall i | 0 <= i < |users| :: users[i] > g.upLimit
    requires least == BaseIncrement(g, MIN_DIFF)
    ensures var s := Shares(g, users, share, total);
            0 <= s <= total && (s == 0 || s <= share - |users| * least)
  {
    if users != [] {
      var front := users[..|users| - 1];
      SharesShrink(g, front, share, total, least);
      DeltaMoves(g, users[|users| - 1], Shares(g, front, share, total), total);
      OneMore(|front|, least);
    }
  }

  function TicksToEnd(total: nat, least: nat): nat
    requires least > 0
  {
    (total + least - 1) / least
  }

  lemma EnoughTicks(total: nat, least: nat, n: nat)
    requires least > 0 && n >= TicksToEnd(total, least)
    ensures n * least >= total
  {
    var q := TicksToEnd(total, least);
    assert total + least - 1 == q * least + (total + least - 1) % least;
    ProductMonotone(least, q, n);
  }

  /** From any share, readings at or under the limit bring it to the total, and readings over
      it to zero, within the total divided by the least increment, rounded up. */
  lemma {:induction false} ShareConverges(g: Gpu, users: seq<int>, share: int, total: nat)
    requires BaseIncrement(g, MIN_DIFF) >= 1 && 0 <= share <= total
    requires |users| >= TicksToEnd(total, BaseIncrement(g, MIN_DIFF))
    ensures (forall i | 0 <= i < |users| :: users[i] <= g.upLimit) ==> Shares(g, users, share, total) == total
    ensures (forall i | 0 <= i < |users| :: users[i] > g.upLimit) ==> Shares(g, users, share, total) == 0
  {
    EnoughTicks(total, BaseIncrement(g, MIN_DIFF), |users|);
    if forall i | 0 <= i < |users| :: users[i] <= g.upLimit { SharesGrow(g, users, share, total, BaseIncrement(g, MIN_DIFF)); }
    if forall i | 0 <= i < |users| :: users[i] > g.upLimit { SharesShrink(g, users, share, total, BaseIncrement(g, MIN_DIFF)); }
  }

  // ----- The race on the tokens

  /** A device, with what has been admitted and what has been handed out so far. */
  datatype Device = Device(gpu: Gpu, cur: int, total: int, share: int, admitted: int, refilled: int)

  datatype Launcher =
    | Outside
    | Entering(dev: nat, size: nat)               // about to load the tokens
    | Charging(dev: nat, size: nat, before: int)  // about to compare and swap

  datatype Watcher =
    | Resting
    | Checked(dev: nat, user: int)                // total doubled if exhausted
    | Refilling(dev: nat)                         // share updated, about to load the tokens
    | Adding(dev: nat, before: int)               // about to compare and swap

  datatype State = State(devices: seq<Device>, launchers: seq<Launcher>, watcher: Watcher)

  datatype Step =
    | Launch(t: nat, dev: nat, size: nat)
    | LauncherGo(t: nat)
    | Tick(dev: nat, user: int)
    | WatcherGo

  function Doubled(d: Device): Device {
    if d.share == d.total && d.cur < 0 then d.(total := d.total * 2, share := d.total * 2) else d
  }

  function Capped(d: Device, before: int): int {
    if before + d.share > d.total then d.total else before + d.share
  }

  function Next(s: State, step: Step, maxKernel: nat): Option<State> {
    match step
    case Launch(t, dev, size) =>
      if t < |s.launchers| && s.launchers[t].Outside? && dev < |s.devices| && Throttled(s.devices[dev].gpu) && size <= maxKernel
      then Some(s.(launchers := s.launchers[t := Entering(dev, size)])) else None
    case LauncherGo(t) =>
      if t >= |s.launchers| then None
      else (
        match s.launchers[t]
        case Outside => None
        case Entering(dev, size) =>
          if dev >= |s.devices| then None
          else if s.devices[dev].cur < 0 then Some(s)
          else Some(s.(launchers := s.launchers[t := Charging(dev, size, s.devices[dev].cur)]))
        case Charging(dev, size, before) =>
          if dev >= |s.devices| then None
          else
            var d := s.devices[dev];
            if d.cur == before then
              Some(s.(devices := s.devices[dev := d.(cur := before - size, admitted := d.admitted + size)],
                      launchers := s.launchers[t := Outside]))
            else Some(s.(launchers := s.launchers[t := Entering(dev, size)])))
    case Tick(dev, user) =>
      if s.watcher.Resting? && dev < |s.devices| && Throttled(s.devices[dev].gpu)
      then Some(s.(devices := s.devices[dev := Doubled(s.devices[dev])], watcher := Checked(dev, user))) else None
    case WatcherGo =>
      match s.watcher
      case Resting => None
      case Checked(dev, user) =>
        if dev >= |s.devices| then None
        else if 0 <= user <= 100 then
          var d := s.devices[dev];
          Some(s.(devices := s.devices[dev := d.(share := Delta(d.gpu, user, d.share, d.total))], watcher := Refilling(dev)))
        else Some(s.(watcher := Resting))
      case Refilling(dev) =>
        if dev >= |s.devices| then None else Some(s.(watcher := Adding(dev, s.devices[dev].cur)))
      case Adding(dev, before) =>
        if dev >= |s.devices| then None
        else
          var d := s.devices[dev];
          if d.cur == before then
            Some(s.(devices := s.devices[dev := d.(cur := Capped(d, before), refilled := d.refilled + d.share)],
                    watcher := Resting))
          else Some(s.(watcher := Refilling(dev)))
  }

  ghost predicate Run(s: State, steps: seq<Step>, t: State, maxKernel: nat)
    decreases |steps|
  {
    if steps == [] then s == t
    else Next(s, steps[0], maxKernel).Some? && Run(Next(s, steps[0], maxKernel).value, steps[1..], t, maxKernel)
  }

  ghost predicate DeviceOk(d: Device, initial: int, maxKernel: nat) {
    && 0 <= d.share <= d.total
    && 0 - maxKernel <= d.cur <= d.total
    && d.cur + d.admitted <= initial + d.refilled
  }

  ghost predicate Inv(s: State, initial: seq<int>, maxKernel: nat) {
    && |initial| == |s.devices|
    && (forall d | 0 <= d < |s.devices| :: DeviceOk(s.devices[d], initial[d], maxKernel))
    && forall t | 0 <= t < |s.launchers| ::
         match s.launchers[t]
         case Outside => true
         case Entering(_, size) => size <= maxKernel
         case Charging(_, size, before) => size <= maxKernel && 0 <= before
  }

  ghost predicate Init(s: State, maxKernel: nat) {
    && s.watcher.Resting?
    && (forall t | 0 <= t < |s.launchers| :: s.launchers[t].Outside?)
    && forall d | 0 <= d < |s.devices| ::
         var v := s.devices[d]; 0 <= v.share <= v.total && 0 - maxKernel <= v.cur <= v.total && v.admitted == v.refilled == 0
  }

  lemma StepKeepsInv(s: State, step: Step, initial: seq<int>, maxKernel: nat)
    requires Inv(s, initial, maxKernel) && Next(s, step, maxKernel).Some?
    ensures Inv(Next(s, step, maxKernel).value, initial, maxKernel)
  {
    if step.WatcherGo? && s.watcher.Checked? && s.watcher.dev < |s.devices| {
      var d := s.devices[s.watcher.dev];
      DeltaMoves(d.gpu, s.watcher.user, d.share, d.total);
    }
  }

  lemma {:induction false} RunKeepsInv(s: State, steps: seq<Step>, t: State, initial: seq<int>, maxKernel: nat)
    requires Inv(s, initial, maxKernel) && Run(s, steps, t, maxKernel)
    ensures Inv(t, initial, maxKernel)
    decreases |steps|
  {
    if steps != [] {
      StepKeepsInv(s, steps[0], initial, maxKernel);
      RunKeepsInv(Next(s, steps[0], maxKernel).value, steps[1..], t, initial, maxKernel);
    }
  }

  /** Over every run each device's tokens stay between minus the largest kernel and its total,
      and what it admits is covered by its initial tokens, its own refills and one largest
      kernel, whatever the launchers and refills of other devices do. */
  lemma AdmissionBounded(s0: State, steps: seq<Step>, s: State, maxKernel: nat, d: nat)
    requires Init(s0, maxKernel) && Run(s0, steps, s, maxKernel) && d < |s0.devices|
    ensures d < |s.devices|
    ensures 0 - maxKernel <= s.devices[d].cur <= s.devices[d].total && 0 <= s.devices[d].share <= s.devices[d].total
    ensures s.devices[d].admitted <= s0.devices[d].cur + s.devices[d].refilled + maxKernel
  {
    var initial := seq(|s0.devices|, i requires 0 <= i < |s0.devices| => s0.devices[i].cur);
    RunKeepsInv(s0, steps, s, initial, maxKernel);
  }

  // ----- What a step does to a device

  /** Only a tick on an exhausted device moves a total: it doubles it, and the share with it. */
  lemma TotalsOnlyDouble(s: State, step: Step, maxKernel: nat, d: nat)
    requires Next(s, step, maxKernel).Some? && d < |s.devices|
    ensures |Next(s, step, maxKernel).value.devices| == |s.devices|
    ensures var was, now := s.devices[d], Next(s, step, maxKernel).value.devices[d];
            && now.gpu == was.gpu
            && (step.Tick? && step.dev == d && was.share == was.total && was.cur < 0 ==>
                  && now.total == now.share == was.total + was.total
                  && (now.cur, now.admitted, now.refilled) == (was.cur, was.admitted, was.refilled))
            && (step.Tick? && (step.dev != d || was.share != was.total || was.cur >= 0) ==> now == was)
            && (!step.Tick? ==> now.total == was.total)
  {}

  /** Tokens move in two ways: a launcher that finds them as it read them takes exactly its size,
      and a refill that does adds the share, up to the total. The share itself moves only after
      a reading of 0 to 100. */
  lemma TokensMove(s: State, step: Step, maxKernel: nat, d: nat)
    requires Next(s, step, maxKernel).Some? && d < |s.devices| == |Next(s, step, maxKernel).value.devices|
    ensures var was, now := s.devices[d], Next(s, step, maxKernel).value.devices[d];
            var launcher := if step.LauncherGo? && step.t < |s.launchers| then s.launchers[step.t] else Outside;
            && (launcher.Charging? && launcher.dev == d && launcher.before == was.cur ==>
                  now == was.(cur := was.cur - launcher.size, admitted := was.admitted + launcher.size))
            && (step.WatcherGo? && s.watcher == Adding(d, was.cur) ==>
                  && now == was.(cur := now.cur, refilled := was.refilled + was.share)
                  && (now.cur == was.cur + was.share || (now.cur == was.total && was.total < was.cur + was.share)))
            && (step.WatcherGo? && s.watcher.Checked? && s.watcher.dev == d && 0 <= s.watcher.user <= 100 ==>
                  now == was.(share := Delta(was.gpu, s.watcher.user, was.share, was.total)))
            && (now.cur != was.cur || now.admitted != was.admitted || now.refilled != was.refilled ==>
                  (launcher.Charging? && launcher.dev == d && launcher.before == was.cur)
                  || (step.WatcherGo? && s.watcher == Adding(d, was.cur)))
            && (now.share != was.share ==> step.Tick? || (step.WatcherGo? && s.watcher.Checked? && 0 <= s.watcher.user <= 100))
  {}

  /** A launcher is let in exactly where tokens are not negative: undisturbed, in two steps. */
  lemma LaunchAdmitted(s: State, t: nat, maxKernel: nat)
    requires t < |s.launchers| && s.launchers[t].Entering? && s.launchers[t].dev < |s.devices|
    ensures var d, size := s.launchers[t].dev, s.launchers[t].size;
            var v := s.devices[d];
            && (v.cur < 0 ==> Next(s, LauncherGo(t), maxKernel) == Some(s))
            && (v.cur >= 0 ==>
                  Run(s, [LauncherGo(t), LauncherGo(t)],
                      s.(devices := s.devices[d := v.(cur := v.cur - size, admitted := v.admitted + size)],
                         launchers := s.launchers[t := Outside]), maxKernel))
  {
    var d, size := s.launchers[t].dev, s.launchers[t].size;
    if s.devices[d].cur >= 0 {
      var steps := [LauncherGo(t), LauncherGo(t)];
      var s1 := Next(s, LauncherGo(t), maxKernel).value;
      var s2 := Next(s1, LauncherGo(t), maxKernel).value;
      assert s2.launchers == s.launchers[t := Outside];
      assert steps[1..] == [LauncherGo(t)] && steps[1..][1..] == [];
      assert Run(s1, steps[1..], s2, maxKernel);
    }
  }

  // ----- Every kernel launched is waiting or admitted

  function Waiting(l: Launcher, d: nat): nat {
    if !l.Outside? && l.dev == d then l.size else 0
  }

  function Sizes(ls: seq<Launcher>, d: nat): (w: seq<int>)
    ensures |w| == |ls| && forall i | 0 <= i < |ls| :: w[i] == Waiting(ls[i], d)
  {
    seq(|ls|, i requires 0 <= i < |ls| => Waiting(ls[i], d))
  }

  function Launched(steps: seq<Step>, d: nat): nat {
    if steps == [] then 0
    else
      var last := steps[|steps| - 1];
      Launched(steps[..|steps| - 1], d) + if last.Launch? && last.dev == d then last.size else 0
  }

  lemma StepConserves(s: State, steps: seq<Step>, step: Step, maxKernel: nat, d: nat)
    requires Next(s, step, maxKernel).Some? && d < |s.devices|
    requires s.devices[d].admitted + Sum(Sizes(s.launchers, d)) == Launched(steps, d)
    ensures var u := Next(s, step, maxKernel).value;
            |u.devices| == |s.devices| && u.devices[d].admitted + Sum(Sizes(u.launchers, d)) == Launched(steps + [step], d)
  {
    var u := Next(s, step, maxKernel).value;
    assert (steps + [step])[..|steps|] == steps;
    if step.Launch? || step.LauncherGo? {
      assert u.launchers == s.launchers[step.t := u.launchers[step.t]];
      SumUpdate(Sizes(s.launchers, d), step.t, Waiting(u.launchers[step.t], d));
      assert Sizes(u.launchers, d) == Sizes(s.launchers, d)[step.t := Waiting(u.launchers[step.t], d)];
    } else {
      assert u.launchers == s.launchers;
    }
  }

  lemma {:induction false} RunConserves(s: State, done: seq<Step>, steps: seq<Step>, u: State, maxKernel: nat, d: nat)
    requires Run(s, steps, u, maxKernel) && d < |s.devices|
    requires s.devices[d].admitted + Sum(Sizes(s.launchers, d)) == Launched(done, d)
    ensures d < |u.devices| && u.devices[d].admitted + Sum(Sizes(u.launchers, d)) == Launched(done + steps, d)
    decreases |steps|
  {
    if steps == [] {
      assert done + steps == done;
    } else {
      StepConserves(s, done, steps[0], maxKernel, d);
      RunConserves(Next(s, steps[0], maxKernel).value, done + [steps[0]], steps[1..], u, maxKernel, d);
      assert done + [steps[0]] + steps[1..] == done + steps;
    }
  }

  /** Over every run, what a device has admitted and what waits for it is exactly what was
      launched on it. */
  lemma AdmissionConserved(s0: State, steps: seq<Step>, s: State, maxKernel: nat, d: nat)
    requires Init(s0, maxKernel) && Run(s0, steps, s, maxKernel) && d < |s0.devices|
    ensures d < |s.devices| && s.devices[d].admitted + Sum(Sizes(s.launchers, d)) == Launched(steps, d)
  {
    SumZero(Sizes(s0.launchers, d));
    RunConserves(s0, [], steps, s, maxKernel, d);
    assert [] + steps == steps;
  }

  // ----- An exhausted device comes back

  /** One undisturbed round of the watcher on a device. */
  function Round(d: Device, user: int): Device {
    var e := Doubled(d);
    var f := e.(share := Delta(e.gpu, user, e.share, e.total));
    f.(cur := Capped(f, f.cur), refilled := f.refilled + f.share)
  }

  /** The first round of an exhausted device gives it twice its old total. */
  lemma ExhaustedRound(d: Device, user: int)
    requires d.share == d.total >= 0 > d.cur && user <= d.gpu.upLimit
    ensures var e := Round(d, user);
            e.cur == d.cur + 2 * d.total && e.total == e.share == 2 * d.total && e.refilled == d.refilled + 2 * d.total
  {}

  lemma {:induction false} RoundIsRun(s: State, dev: nat, user: int, maxKernel: nat)
    requires s.watcher.Resting? && dev < |s.devices| && Throttled(s.devices[dev].gpu) && 0 <= user <= 100
    ensures Run(s, [Tick(dev, user), WatcherGo, WatcherGo, WatcherGo],
                s.(devices := s.devices[dev := Round(s.devices[dev], user)]), maxKernel)
  {
    var steps := [Tick(dev, user), WatcherGo, WatcherGo, WatcherGo];
    var s1 := Next(s, steps[0], maxKernel).value;
    var s2 := Next(s1, steps[1], maxKernel).value;
    var s3 := Next(s2, steps[2], maxKernel).value;
    var s4 := Next(s3, steps[3], maxKernel).value;
    var f := s3.devices[dev];
    assert s4.devices == s.devices[dev := Round(s.devices[dev], user)];
    assert steps[3..] == [WatcherGo] && steps[3..][1..] == [];
    assert Run(s3, steps[3..], s4, maxKernel);
    assert steps[2..][1..] == steps[3..] && Run(s2, steps[2..], s4, maxKernel);
    assert steps[1..][1..] == steps[2..] && Run(s1, steps[1..], s4, maxKernel);
  }

  function Rounds(d: Device, users: seq<int>): Device {
    if users == [] then d else Round(Rounds(d, users[..|users| - 1]), users[|users| - 1])
  }

  /** While nothing is launched and utilisation is at or under the limit, an exhausted device
      is worth at least one least increment more per round, until launches pass again. */
  lemma {:induction false} ExhaustedRecovers(d: Device, users: seq<int>, least: nat)
    requires 0 <= d.share <= d.total && d.cur <= d.total
    requires least == BaseIncrement(d.gpu, MIN_DIFF) <= d.total
    requires forall i | 0 <= i < |users| :: users[i] <= d.gpu.upLimit
    ensures var e := Rounds(d, users);
            && e.gpu == d.gpu && 0 <= e.share <= e.total && e.cur <= e.total && e.total >= d.total
            && (e.cur >= 0 || e.cur >= d.cur + |users| * least)
  {
    if users != [] {
      var front, user := users[..|users| - 1], users[|users| - 1];
      ExhaustedRecovers(d, front, least);
      var e := Doubled(Rounds(d, front));
      DeltaMoves(e.gpu, user, e.share, e.total);
      OneMore(|front|, least);
    }
  }
}
