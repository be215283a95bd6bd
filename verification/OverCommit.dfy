/** How far concurrent allocators can overshoot the memory limit.

    Process p owns slot p. Under its own mutex it rechecks the limit by reading the slots
    one at a time, and commits if the sum it saw leaves room; other processes commit and
    free between any two of these steps. Frees may come at any time, also from another
    thread of a process that is rechecking. */
module OverCommit {
  import opened Common
  import opened Sums

  datatype Phase =
    | Idle
    | Scanning(request: nat, next: nat, seen: int)
    | Passed(request: nat)

  datatype State = State(usage: seq<nat>, phases: seq<Phase>)

  datatype Step =
    | Begin(p: nat, request: nat)
    | Read(p: nat)
    | Decide(p: nat)
    | Commit(p: nat)
    | Free(p: nat, bytes: nat)

  datatype Config = Config(limit: nat, maxRequest: nat)

  function Next(c: Config, s: State, step: Step): Option<State>
    requires |s.usage| == |s.phases|
  {
    if step.p >= |s.phases| then None
    else
      var p := step.p;
      match step
      case Begin(_, request) =>
        if s.phases[p].Idle? && request <= c.maxRequest
        then Some(s.(phases := s.phases[p := Scanning(request, 0, 0)])) else None
      case Read(_) =>
        if s.phases[p].Scanning? && s.phases[p].next < |s.usage| then
          var f := s.phases[p];
          Some(s.(phases := s.phases[p := Scanning(f.request, f.next + 1, f.seen + s.usage[f.next])]))
        else None
      case Decide(_) =>
        if s.phases[p].Scanning? && s.phases[p].next == |s.usage| then
          var f := s.phases[p];
          Some(s.(phases := s.phases[p := if c.limit != 0 && f.seen + f.request > c.limit then Idle else Passed(f.request)]))
        else None
      case Commit(_) =>
        if s.phases[p].Passed?
        then Some(State(s.usage[p := s.usage[p] + s.phases[p].request], s.phases[p := Idle])) else None
      case Free(_, bytes) =>
        if bytes <= s.usage[p] then Some(s.(usage := s.usage[p := s.usage[p] - bytes])) else None
  }

  ghost predicate Init(c: Config, s: State) {
    && |s.usage| == |s.phases|
    && Sum(s.usage) <= c.limit
    && forall p | 0 <= p < |s.phases| :: s.phases[p].Idle?
  }

  ghost predicate Run(c: Config, s: State, steps: seq<Step>, t: State)
    decreases |steps|
  {
    && |s.usage| == |s.phases|
    && if steps == [] then s == t
       else Next(c, s, steps[0]).Some? && Run(c, Next(c, s, steps[0]).value, steps[1..], t)
  }

  // ----- History used only by the proof

  /** One recheck: when it began, its request, and for each slot the least usage since then. */
  datatype Check = Check(start: nat, request: nat, low: seq<nat>)

  /** checks[p] is the last committed recheck of p, checks[k + p] the one in flight, or the
      committed one again when none is. */
  datatype History = History(clock: nat, checks: seq<Check>)

  function Min(a: nat, b: nat): nat { if a < b then a else b }

  ghost function Lowered(checks: seq<Check>, p: nat, v: nat): (r: seq<Check>)
    requires forall i | 0 <= i < |checks| :: p < |checks[i].low|
    ensures |r| == |checks|
  {
    seq(|checks|, i requires 0 <= i < |checks| => checks[i].(low := checks[i].low[p := Min(checks[i].low[p], v)]))
  }

  ghost function Record(c: Config, s: State, h: History, step: Step): History
    requires |s.usage| == |s.phases| && Next(c, s, step).Some?
    requires |h.checks| == 2 * |s.phases| && forall i | 0 <= i < |h.checks| :: |h.checks[i].low| == |s.usage|
  {
    var k, p := |s.phases|, step.p;
    match step
    case Begin(_, request) => History(h.clock + 1, h.checks[k + p := Check(h.clock + 1, request, s.usage)])
    case Read(_) => h
    case Decide(_) =>
      if Next(c, s, step).value.phases[p].Idle? then h.(checks := h.checks[k + p := h.checks[p]]) else h
    case Commit(_) => h.(checks := h.checks[p := h.checks[k + p]])
    case Free(_, bytes) => h.(checks := Lowered(h.checks, p, s.usage[p] - bytes))
  }

  /** What a recheck knows about slot j: it saw at most what is there less the last commit of
      j if that recheck began earlier, and nothing at all is hidden while a check of j in
      flight began earlier. */
  ghost predicate Sees(s: State, h: History, g: Check, j: nat)
    requires |h.checks| == 2 * |s.phases| && j < |s.phases| == |s.usage| == |g.low|
  {
    var k := |s.phases|;
    && g.low[j] <= s.usage[j]
    && (h.checks[j].start <= g.start ==> s.usage[j] <= g.low[j] + h.checks[j].request)
    && (!s.phases[j].Idle? && h.checks[k + j].start <= g.start ==> s.usage[j] <= g.low[j])
  }

  ghost predicate Shape(s: State, h: History) {
    && |s.usage| == |s.phases| && |h.checks| == 2 * |s.phases|
    && forall i | 0 <= i < |h.checks| :: |h.checks[i].low| == |s.usage| && h.checks[i].start <= h.clock
  }

  ghost predicate Fits(c: Config, g: Check) {
    g.request <= c.maxRequest && Sum(g.low) + g.request <= c.limit
  }

  /** The part of the invariant about the sums rechecks have seen, for one process. */
  ghost predicate Seen(c: Config, s: State, h: History, p: nat)
    requires Shape(s, h) && p < |s.phases|
  {
    var k := |s.phases|;
    && Fits(c, h.checks[p])
    && match s.phases[p]
       case Idle => Fits(c, h.checks[k + p])
       case Scanning(request, next, seen) =>
         && request == h.checks[k + p].request <= c.maxRequest
         && next <= k && Sum(h.checks[k + p].low[..next]) <= seen
       case Passed(request) => request == h.checks[k + p].request && Fits(c, h.checks[k + p])
  }

  ghost predicate Inv(c: Config, s: State, h: History) {
    var k := |s.phases|;
    && Shape(s, h)
    && (forall i, j | 0 <= i < 2 * k && 0 <= j < k :: Sees(s, h, h.checks[i], j))
    && forall p | 0 <= p < k :: Seen(c, s, h, p)
  }

  lemma StepKeepsShape(c: Config, s: State, h: History, step: Step)
    requires Shape(s, h) && Next(c, s, step).Some?
    ensures Shape(Next(c, s, step).value, Record(c, s, h, step)) && |Next(c, s, step).value.phases| == |s.phases|
  {}

  /** What check i has missed of slot j stays within the last commit of j. */
  lemma StepKeepsSees(c: Config, s: State, h: History, step: Step, i: nat, j: nat)
    requires c.limit != 0 && Inv(c, s, h) && Next(c, s, step).Some? && i < 2 * |s.phases| && j < |s.phases|
    requires Shape(Next(c, s, step).value, Record(c, s, h, step)) && |Next(c, s, step).value.phases| == |s.phases|
    ensures var t, h' := Next(c, s, step).value, Record(c, s, h, step); Sees(t, h', h'.checks[i], j)
  {
    var k, p := |s.phases|, step.p;
    assert Sees(s, h, h.checks[i], j) && Seen(c, s, h, p);
    assert Sees(s, h, h.checks[p], j) && Sees(s, h, h.checks[k + p], j);
  }

  lemma LoweredSums(g: Check, p: nat, v: nat, n: nat)
    requires p < |g.low| && n <= |g.low|
    ensures var l := g.low[p := Min(g.low[p], v)]; Sum(l) <= Sum(g.low) && Sum(l[..n]) <= Sum(g.low[..n])
  {
    var l := g.low[p := Min(g.low[p], v)];
    SumAtMost(l, g.low);
    SumAtMost(l[..n], g.low[..n]);
  }

  lemma FreeKeepsSeen(c: Config, s: State, h: History, step: Step, q: nat)
    requires Inv(c, s, h) && step.Free? && Next(c, s, step).Some? && q < |s.phases|
    requires Shape(Next(c, s, step).value, Record(c, s, h, step))
    ensures Seen(c, Next(c, s, step).value, Record(c, s, h, step), q)
  {
    var k, p, v := |s.phases|, step.p, s.usage[step.p] - step.bytes;
    var h' := Record(c, s, h, step);
    assert Seen(c, s, h, q);
    var g, f := h.checks[q], h.checks[k + q];
    assert h'.checks[q] == g.(low := g.low[p := Min(g.low[p], v)]);
    assert h'.checks[k + q] == f.(low := f.low[p := Min(f.low[p], v)]);
    LoweredSums(g, p, v, 0);
    LoweredSums(f, p, v, if s.phases[q].Scanning? then s.phases[q].next else 0);
  }

  /** The rechecking process's own steps: a slot read adds at least its low mark to the sum seen. */
  lemma OwnStepKeepsSeen(c: Config, s: State, h: History, step: Step)
    requires c.limit != 0 && Inv(c, s, h) && !step.Free? && Next(c, s, step).Some?
    requires Shape(Next(c, s, step).value, Record(c, s, h, step))
    ensures Seen(c, Next(c, s, step).value, Record(c, s, h, step), step.p)
  {
    var k, q := |s.phases|, step.p;
    assert Seen(c, s, h, q);
    match step
    case Read(_) =>
      var low, n := h.checks[k + q].low, s.phases[q].next;
      assert Sees(s, h, h.checks[k + q], n);
      assert low[..n + 1][..n] == low[..n];
    case Decide(_) =>
      assert h.checks[k + q].low[..k] == h.checks[k + q].low;
    case Begin(_, _) =>
      assert s.usage[..0] == [];
    case _ =>
  }

  lemma StepKeepsSeen(c: Config, s: State, h: History, step: Step, q: nat)
    requires c.limit != 0 && Inv(c, s, h) && Next(c, s, step).Some? && q < |s.phases|
    requires Shape(Next(c, s, step).value, Record(c, s, h, step))
    ensures Seen(c, Next(c, s, step).value, Record(c, s, h, step), q)
  {
    assert Seen(c, s, h, q);
    if step.Free? {
      FreeKeepsSeen(c, s, h, step, q);
    } else if step.p == q {
      OwnStepKeepsSeen(c, s, h, step);
    } else {
      var k, h' := |s.phases|, Record(c, s, h, step);
      assert h'.checks[q] == h.checks[q] && h'.checks[k + q] == h.checks[k + q];
    }
  }

  lemma StepKeepsInv(c: Config, s: State, h: History, step: Step)
    requires c.limit != 0 && Inv(c, s, h) && Next(c, s, step).Some?
    ensures Inv(c, Next(c, s, step).value, Record(c, s, h, step))
  {
    StepKeepsShape(c, s, h, step);
    var t, h' := Next(c, s, step).value, Record(c, s, h, step);
    forall i, j | 0 <= i < 2 * |t.phases| && 0 <= j < |t.phases| ensures Sees(t, h', h'.checks[i], j) {
      StepKeepsSees(c, s, h, step, i, j);
    }
    forall q | 0 <= q < |s.phases| ensures Seen(c, Next(c, s, step).value, Record(c, s, h, step), q) {
      StepKeepsSeen(c, s, h, step, q);
    }
  }

  lemma {:induction false} RunKeepsInv(c: Config, s: State, h: History, steps: seq<Step>, t: State) returns (h': History)
    requires c.limit != 0 && Inv(c, s, h) && Run(c, s, steps, t)
    ensures Inv(c, t, h') && |t.usage| == |s.usage|
    decreases |steps|
  {
    if steps == [] {
      h' := h;
    } else {
      StepKeepsInv(c, s, h, steps[0]);
      h' := RunKeepsInv(c, Next(c, s, steps[0]).value, Record(c, s, h, steps[0]), steps[1..], t);
    }
  }

  /** The committed recheck that began last. */
  lemma {:induction false} LatestCheck(h: History, k: nat) returns (m: nat)
    requires 0 < k <= |h.checks|
    ensures m < k && forall j | 0 <= j < k :: h.checks[j].start <= h.checks[m].start
  {
    if k == 1 {
      m := 0;
    } else {
      m := LatestCheck(h, k - 1);
      if h.checks[m].start < h.checks[k - 1].start { m := k - 1; }
    }
  }

  lemma {:induction false} SumTimes(s: seq<int>, bound: nat)
    requires forall i | 0 <= i < |s| :: s[i] <= bound
    ensures Sum(s) <= |s| * bound
  {
    if s != [] { SumTimes(s[..|s| - 1], bound); }
  }

  lemma {:induction false} SumPointwise(a: seq<int>, b: seq<int>)
    requires |a| == |b|
    ensures Sum(seq(|a|, i requires 0 <= i < |a| => a[i] + b[i])) == Sum(a) + Sum(b)
  {
    var f := seq(|a|, i requires 0 <= i < |a| => a[i] + b[i]);
    if a != [] {
      var n := |a| - 1;
      SumPointwise(a[..n], b[..n]);
      assert f[..n] == seq(n, i requires 0 <= i < n => a[..n][i] + b[..n][i]);
    }
  }

  lemma InvBounds(c: Config, s: State, h: History)
    requires Inv(c, s, h) && s.phases != []
    ensures Sum(s.usage) <= c.limit + (|s.phases| - 1) * c.maxRequest
  {
    var k := |s.phases|;
    var m := LatestCheck(h, k);
    var g := h.checks[m];
    assert Seen(c, s, h, m);
    var requests := seq(k, j requires 0 <= j < k => h.checks[j].request);
    var low: seq<int> := seq(k, j requires 0 <= j < k => g.low[j]);
    var ceiling := seq(k, j requires 0 <= j < k => low[j] + requests[j]);
    forall j | 0 <= j < k ensures s.usage[j] <= ceiling[j] && requests[j] <= c.maxRequest {
      assert Sees(s, h, g, j) && Seen(c, s, h, j);
    }
    SumAtMost(s.usage, ceiling);
    SumPointwise(low, requests);
    assert low == g.low;
    SumSwapOut(requests, m);
    SumTimes(requests[m := requests[k - 1]][..k - 1], c.maxRequest);
  }

  /** In every interleaving of slot reads, decisions, commits and frees of k processes the
      usage stays within the limit plus the largest request of every process but one. */
  lemma OverCommitBounded(c: Config, s0: State, steps: seq<Step>, s: State)
    requires c.limit != 0 && Init(c, s0) && s0.phases != [] && Run(c, s0, steps, s)
    ensures Sum(s.usage) <= c.limit + (|s0.phases| - 1) * c.maxRequest
  {
    var k := |s0.phases|;
    var h := History(0, seq(2 * k, _ => Check(0, 0, s0.usage)));
    assert forall i, j | 0 <= i < 2 * k && 0 <= j < k :: Sees(s0, h, h.checks[i], j);
    var h' := RunKeepsInv(c, s0, h, steps, s);
    InvBounds(c, s, h');
  }

  // ----- The usage is what was committed less what was freed

  /** The request that process p last began with. */
  function LastBegun(steps: seq<Step>, p: nat): nat {
    if steps == [] then 0
    else
      var last := steps[|steps| - 1];
      if last.Begin? && last.p == p then last.request else LastBegun(steps[..|steps| - 1], p)
  }

  /** The bytes process p committed, each commit being of the request last begun, less those it freed. */
  function Ledger(steps: seq<Step>, p: nat): int {
    if steps == [] then 0
    else
      var front, last := steps[..|steps| - 1], steps[|steps| - 1];
      Ledger(front, p)
      + (if last.Commit? && last.p == p then LastBegun(front, p) else 0)
      - (if last.Free? && last.p == p then last.bytes else 0)
  }

  ghost predicate Kept(s0: State, steps: seq<Step>, s: State, p: nat) {
    && p < |s.usage| == |s.phases| == |s0.usage|
    && s.usage[p] == s0.usage[p] + Ledger(steps, p)
    && match s.phases[p]
       case Idle => true
       case Scanning(request, _, _) => request == LastBegun(steps, p)
       case Passed(request) => request == LastBegun(steps, p)
  }

  lemma StepKeepsLedger(c: Config, s0: State, steps: seq<Step>, s: State, step: Step, p: nat)
    requires Kept(s0, steps, s, p) && Next(c, s, step).Some?
    ensures Kept(s0, steps + [step], Next(c, s, step).value, p)
  {
    assert (steps + [step])[..|steps|] == steps;
  }

  lemma {:induction false} RunKeepsLedger(c: Config, s0: State, done: seq<Step>, s: State, steps: seq<Step>, t: State, p: nat)
    requires Kept(s0, done, s, p) && Run(c, s, steps, t)
    ensures Kept(s0, done + steps, t, p)
    decreases |steps|
  {
    if steps == [] {
      assert done + steps == done;
    } else {
      StepKeepsLedger(c, s0, done, s, steps[0], p);
      RunKeepsLedger(c, s0, done + [steps[0]], Next(c, s, steps[0]).value, steps[1..], t, p);
      assert done + [steps[0]] + steps[1..] == done + steps;
    }
  }

  /** In every run the usage of each process is its initial one, plus each request it began and
      committed, minus what it freed. */
  lemma UsageIsLedger(c: Config, s0: State, steps: seq<Step>, s: State, p: nat)
    requires Init(c, s0) && p < |s0.usage| && Run(c, s0, steps, s)
    ensures p < |s.usage| && s.usage[p] == s0.usage[p] + Ledger(steps, p)
  {
    RunKeepsLedger(c, s0, [], s0, steps, s, p);
    assert [] + steps == steps;
  }

  /** A process may free what it has at any time, and commit once its recheck has passed. */
  lemma FreesAndCommits(c: Config, s: State, p: nat, bytes: nat)
    requires p < |s.phases| == |s.usage|
    ensures Next(c, s, Free(p, bytes)).Some? <==> bytes <= s.usage[p]
    ensures Next(c, s, Commit(p)).Some? <==> s.phases[p].Passed?
  {}

  // ----- What one recheck is worth

  /** The bytes that processes other than p commit over a run. */
  ghost function OthersCommit(c: Config, s: State, steps: seq<Step>, p: nat): nat
    decreases |steps|
  {
    if steps == [] || |s.usage| != |s.phases| || Next(c, s, steps[0]).None? then 0
    else
      (if steps[0].Commit? && steps[0].p != p then s.phases[steps[0].p].request else 0)
      + OthersCommit(c, Next(c, s, steps[0]).value, steps[1..], p)
  }

  /** Since process p began its recheck: low are the least usages since, and others what the
      other processes have committed. */
  ghost predicate Rechecking(c: Config, s: State, p: nat, request: nat, low: seq<nat>, others: nat) {
    && |s.usage| == |s.phases| == |low| && p < |low|
    && (forall j | 0 <= j < |low| :: low[j] <= s.usage[j])
    && Sum(s.usage) <= Sum(low) + others
    && match s.phases[p]
       case Idle => true
       case Scanning(r, next, seen) => r == request && next <= |low| && Sum(low[..next]) <= seen
       case Passed(r) => r == request && Sum(low) + request <= c.limit
  }

  ghost function LowAfter(s: State, low: seq<nat>, step: Step): (l: seq<nat>)
    requires |s.usage| == |low|
    ensures |l| == |low|
  {
    if step.Free? && step.p < |low| && step.bytes <= s.usage[step.p]
    then low[step.p := Min(low[step.p], s.usage[step.p] - step.bytes)] else low
  }

  /** A free lowers usage at least as much as the low mark. */
  lemma FreeKeepsRechecking(c: Config, s: State, p: nat, request: nat, low: seq<nat>, others: nat, step: Step)
    requires Rechecking(c, s, p, request, low, others) && step.Free? && Next(c, s, step).Some?
    ensures Rechecking(c, Next(c, s, step).value, p, request, LowAfter(s, low, step), others)
  {
    var q, v := step.p, s.usage[step.p] - step.bytes;
    var l := LowAfter(s, low, step);
    SumUpdate(s.usage, q, v);
    SumUpdate(low, q, l[q]);
    var n := if s.phases[p].Scanning? then s.phases[p].next else 0;
    SumAtMost(l[..n], low[..n]);
  }

  lemma CommitKeepsRechecking(c: Config, s: State, p: nat, request: nat, low: seq<nat>, others: nat, step: Step)
    requires Rechecking(c, s, p, request, low, others) && step.Commit? && step.p != p && Next(c, s, step).Some?
    ensures Rechecking(c, Next(c, s, step).value, p, request, low, others + s.phases[step.p].request)
  {
    SumUpdate(s.usage, step.p, s.usage[step.p] + s.phases[step.p].request);
  }

  lemma ScanKeepsRechecking(c: Config, s: State, p: nat, request: nat, low: seq<nat>, others: nat, step: Step)
    requires c.limit != 0 && Rechecking(c, s, p, request, low, others) && Next(c, s, step).Some?
    requires step.Read? || step.Decide? || (step.Begin? && step.p != p)
    ensures Rechecking(c, Next(c, s, step).value, p, request, low, others)
  {
    if step.p == p && step.Read? {
      var n := s.phases[p].next;
      assert low[..n + 1][..n] == low[..n];
    } else if step.p == p && step.Decide? {
      assert low[..|low|] == low;
    }
  }

  lemma StepKeepsRechecking(c: Config, s: State, p: nat, request: nat, low: seq<nat>, others: nat, step: Step)
    requires c.limit != 0 && Rechecking(c, s, p, request, low, others) && Next(c, s, step).Some?
    requires step.p == p ==> !step.Begin? && !step.Commit?
    ensures var more := if step.Commit? then s.phases[step.p].request else 0;
            Rechecking(c, Next(c, s, step).value, p, request, LowAfter(s, low, step), others + more)
  {
    match step
    case Free(_, _) => FreeKeepsRechecking(c, s, p, request, low, others, step);
    case Commit(_) => CommitKeepsRechecking(c, s, p, request, low, others, step);
    case _ => ScanKeepsRechecking(c, s, p, request, low, others, step);
  }

  /** No step in between is another recheck of p, so none is a commit of p before the last. */
  lemma {:induction false} RecheckHolds(c: Config, s: State, during: seq<Step>, t: State, p: nat, request: nat,
                                        low: seq<nat>, others: nat) returns (low': seq<nat>)
    requires c.limit != 0 && Rechecking(c, s, p, request, low, others) && Run(c, s, during, t)
    requires forall i | 0 <= i < |during| && during[i].p == p :: !during[i].Begin?
    requires !s.phases[p].Idle? && p < |t.phases| && t.phases[p].Passed?
    ensures Rechecking(c, t, p, request, low', others + OthersCommit(c, s, during, p))
    decreases |during|
  {
    if during == [] {
      low' := low;
    } else {
      var step, u := during[0], Next(c, s, during[0]).value;
      if step.p == p && (step.Commit? || u.phases[p].Idle?) {
        StaysIdle(c, u, during[1..], t, p);
        low' := low;
      } else {
        StepKeepsRechecking(c, s, p, request, low, others, step);
        var more := if step.Commit? then s.phases[step.p].request else 0;
        low' := RecheckHolds(c, u, during[1..], t, p, request, LowAfter(s, low, step), others + more);
      }
    }
  }

  lemma {:induction false} StaysIdle(c: Config, s: State, steps: seq<Step>, t: State, p: nat)
    requires Run(c, s, steps, t) && p < |s.phases| && s.phases[p].Idle?
    requires forall i | 0 <= i < |steps| && steps[i].p == p :: !steps[i].Begin?
    ensures p < |t.phases| && t.phases[p].Idle?
    decreases |steps|
  {
    if steps != [] { StaysIdle(c, Next(c, s, steps[0]).value, steps[1..], t, p); }
  }

  /** In every run, as process p commits after a recheck the usage is within the limit but for
      the bytes that other processes have committed since that recheck began. */
  lemma CommitWithinLimit(c: Config, m: State, p: nat, request: nat, during: seq<Step>, s: State)
    requires c.limit != 0 && |m.usage| == |m.phases|
    requires var b := Next(c, m, Begin(p, request));
             b.Some? && Run(c, b.value, during, s) && p < |s.phases| && s.phases[p].Passed?
    requires forall i | 0 <= i < |during| && during[i].p == p :: !during[i].Begin?
    ensures |s.usage| == |s.phases|
    ensures Sum(Next(c, s, Commit(p)).value.usage)
            <= c.limit + OthersCommit(c, Next(c, m, Begin(p, request)).value, during, p)
  {
    var b := Next(c, m, Begin(p, request)).value;
    assert m.usage[..0] == [];
    assert Rechecking(c, b, p, request, m.usage, 0);
    var low := RecheckHolds(c, b, during, s, p, request, m.usage, 0);
    SumUpdate(s.usage, p, s.usage[p] + request);
  }

  // ----- The bound is reached

  lemma {:induction false} RunConcat(c: Config, s: State, a: seq<Step>, t: State, b: seq<Step>, u: State)
    requires Run(c, s, a, t) && Run(c, t, b, u)
    ensures Run(c, s, a + b, u)
    decreases |a|
  {
    if a == [] {
      assert a + b == b;
    } else {
      assert (a + b)[0] == a[0] && (a + b)[1..] == a[1..] + b;
      RunConcat(c, Next(c, s, a[0]).value, a[1..], t, b, u);
    }
  }

  lemma {:induction false} ReadRest(c: Config, s: State, p: nat, request: nat, n: nat) returns (steps: seq<Step>, t: State)
    requires |s.usage| == |s.phases| && p < |s.phases| && n <= |s.usage|
    requires s.phases[p] == Scanning(request, n, Sum(s.usage[..n]))
    ensures t == s.(phases := s.phases[p := Scanning(request, |s.usage|, Sum(s.usage))]) && Run(c, s, steps, t)
    decreases |s.usage| - n
  {
    if n == |s.usage| {
      assert s.usage[..n] == s.usage;
      assert s.phases == s.phases[p := s.phases[p]];
      steps, t := [], s;
    } else {
      assert s.usage[..n + 1][..n] == s.usage[..n];
      var rest;
      rest, t := ReadRest(c, Next(c, s, Read(p)).value, p, request, n + 1);
      steps := [Read(p)] + rest;
      assert steps[1..] == rest;
      assert t.phases == s.phases[p := Scanning(request, |s.usage|, Sum(s.usage))];
    }
  }

  /** An undisturbed recheck passes exactly what fits beside the usage of all, or anything
      where no limit is set. */
  lemma Undisturbed(c: Config, s: State, p: nat, request: nat) returns (steps: seq<Step>, t: State)
    requires |s.usage| == |s.phases| && p < |s.phases| && s.phases[p].Idle? && request <= c.maxRequest
    ensures Run(c, s, steps, t)
    ensures t == s.(phases := s.phases[p := if c.limit == 0 || Sum(s.usage) + request <= c.limit then Passed(request) else Idle])
  {
    var s1 := Next(c, s, Begin(p, request)).value;
    assert s1.usage[..0] == [];
    var scans, s2 := ReadRest(c, s1, p, request, 0);
    t := Next(c, s2, Decide(p)).value;
    assert t.phases == s.phases[p := t.phases[p]];
    assert [Decide(p)][1..] == [] && Run(c, s2, [Decide(p)], t);
    RunConcat(c, s1, scans, s2, [Decide(p)], t);
    steps := [Begin(p, request)] + (scans + [Decide(p)]);
    assert steps[1..] == scans + [Decide(p)];
  }

  lemma {:induction false} PassAll(c: Config, s: State, n: nat) returns (steps: seq<Step>, t: State)
    requires |s.usage| == |s.phases| && n <= |s.phases| && Sum(s.usage) + c.maxRequest <= c.limit
    requires forall p | 0 <= p < n :: s.phases[p].Idle?
    ensures t.usage == s.usage && |t.phases| == |s.phases| && Run(c, s, steps, t)
    ensures forall p | 0 <= p < |s.phases| :: t.phases[p] == if p < n then Passed(c.maxRequest) else s.phases[p]
    decreases n
  {
    if n == 0 {
      steps, t := [], s;
    } else {
      var a, s1 := Undisturbed(c, s, n - 1, c.maxRequest);
      var b;
      b, t := PassAll(c, s1, n - 1);
      RunConcat(c, s, a, s1, b, t);
      steps := a + b;
    }
  }

  lemma {:induction false} CommitAll(c: Config, s: State, n: nat) returns (steps: seq<Step>, t: State)
    requires |s.usage| == |s.phases| && n <= |s.phases|
    requires forall p | 0 <= p < n :: s.phases[p] == Passed(c.maxRequest)
    ensures |t.usage| == |t.phases| == |s.phases| && Sum(t.usage) == Sum(s.usage) + n * c.maxRequest && Run(c, s, steps, t)
    decreases n
  {
    if n == 0 {
      steps, t := [], s;
    } else {
      var s1 := State(s.usage[n - 1 := s.usage[n - 1] + c.maxRequest], s.phases[n - 1 := Idle]);
      assert Next(c, s, Commit(n - 1)) == Some(s1);
      var rest;
      rest, t := CommitAll(c, s1, n - 1);
      steps := [Commit(n - 1)] + rest;
      assert steps[1..] == rest;
      assert Sum(s1.usage) == Sum(s.usage) + c.maxRequest by {
        SumUpdate(s.usage, n - 1, s1.usage[n - 1]);
      }
      assert (n - 1) * c.maxRequest + c.maxRequest == n * c.maxRequest;
    }
  }

  /** From any usage that leaves room for exactly one largest request, k processes can be driven to the bound. */
  lemma BoundReached(c: Config, s0: State) returns (steps: seq<Step>, s: State)
    requires Init(c, s0) && s0.phases != [] && Sum(s0.usage) + c.maxRequest == c.limit
    ensures Run(c, s0, steps, s) && Sum(s.usage) == c.limit + (|s0.phases| - 1) * c.maxRequest
  {
    var a, s1 := PassAll(c, s0, |s0.phases|);
    var b;
    b, s := CommitAll(c, s1, |s0.phases|);
    RunConcat(c, s0, a, s1, b, s);
    steps := a + b;
    AllButOne(|s0.phases|, c.maxRequest);
  }

  lemma AllButOne(k: nat, bytes: nat)
    ensures k * bytes == (k - 1) * bytes + bytes
  {}
}
