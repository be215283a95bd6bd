/** The counters of one slot under concurrent lock-free updates and seqlock readers.

    Each atomic fetch-add and each atomic load is one step. Any number of threads of the
    process that owns the slot update it, threads of any process read it, and the owner may be
    killed at any step. A removal is an update with a negative amount. */
module UsageSeqlock {
  import opened Common
  import opened Sums

  datatype Counters = Counters(total: int, contextSize: int, moduleSize: int, dataSize: int)

  datatype Update = Update(dev: nat, amount: int, kind: int)

  datatype Thread =
    | Idle
    | Marked(op: Update)                         // seqlock made odd
    | Totalled(op: Update)                       // total updated
    | Booked(op: Update)                         // component updated, seqlock increment due
    | Begun(dev: nat)                            // reader about to load the seqlock
    | Sampled(dev: nat, seq1: nat)               // loaded an even seqlock
    | Loaded(dev: nat, seq1: nat, value: int)    // loaded total
    | Accepted(dev: nat, value: int)             // seqlock unchanged, the value is used

  /** owner holds the threads of the process the slot belongs to. */
  datatype State = State(seqlock: nat, used: seq<Counters>, threads: seq<Thread>, owner: set<nat>, killed: bool)

  /** Go runs the next atomic operation of a thread; Kill ends all threads of the owner. */
  datatype Step =
    | Start(t: nat, op: Update)
    | Query(t: nat, dev: nat)
    | Go(t: nat)
    | Kill

  function AddPart(c: Counters, amount: int, kind: int): Counters {
    Counters(c.total, c.contextSize + OfKind(0, kind, amount), c.moduleSize + OfKind(1, kind, amount),
             c.dataSize + OfKind(2, kind, amount))
  }

  function Next(s: State, step: Step): Option<State> {
    if step.Kill? then Some(s.(killed := true))
    else if step.t >= |s.threads| || (s.killed && step.t in s.owner) then None
    else
      var th := s.threads[step.t];
      match step
      case Start(t, op) =>
        if th.Idle? && op.dev < |s.used| && t in s.owner
        then Some(s.(seqlock := s.seqlock + 1, threads := s.threads[t := Marked(op)])) else None
      case Query(t, dev) =>
        if th.Idle? && dev < |s.used| then Some(s.(threads := s.threads[t := Begun(dev)])) else None
      case Go(t) =>
        match th
        case Idle => None
        case Marked(op) =>
          if op.dev < |s.used| then
            var c := s.used[op.dev];
            Some(s.(used := s.used[op.dev := c.(total := c.total + op.amount)], threads := s.threads[t := Totalled(op)]))
          else None
        case Totalled(op) =>
          if op.dev < |s.used| then
            Some(s.(used := s.used[op.dev := AddPart(s.used[op.dev], op.amount, op.kind)], threads := s.threads[t := Booked(op)]))
          else None
        case Booked(op) => Some(s.(seqlock := s.seqlock + 1, threads := s.threads[t := Idle]))
        case Begun(dev) =>
          Some(if s.seqlock % 2 == 1 then s else s.(threads := s.threads[t := Sampled(dev, s.seqlock)]))
        case Sampled(dev, seq1) =>
          if dev < |s.used| then Some(s.(threads := s.threads[t := Loaded(dev, seq1, s.used[dev].total)])) else None
        case Loaded(dev, seq1, value) =>
          Some(s.(threads := s.threads[t := if s.seqlock == seq1 then Accepted(dev, value) else Begun(dev)]))
        case Accepted(_, _) => Some(s.(threads := s.threads[t := Idle]))
  }

  ghost predicate Init(s: State) {
    && s.seqlock == 0 && !s.killed
    && (forall d | 0 <= d < |s.used| :: s.used[d] == Counters(0, 0, 0, 0))
    && forall t | 0 <= t < |s.threads| :: s.threads[t].Idle?
  }

  ghost predicate Run(s: State, steps: seq<Step>, t: State)
    decreases |steps|
  {
    if steps == [] then s == t
    else Next(s, steps[0]).Some? && Run(Next(s, steps[0]).value, steps[1..], t)
  }

  // ----- What is in flight, and what a run has booked

  datatype Kinds = All | Only(kind: int) | Unclassified

  predicate InKinds(op: Update, ks: Kinds) {
    match ks
    case All => true
    case Only(k) => op.kind == k
    case Unclassified => op.kind < 0 || 2 < op.kind
  }

  datatype Pending =
    | Flights
    | TotalOf(dev: nat)
    | PartOf(dev: nat, kind: int)

  function Weight(th: Thread, m: Pending): int {
    match m
    case Flights => if Writing(th) then 1 else 0
    case TotalOf(dev) => if th.Marked? && th.op.dev == dev then th.op.amount else 0
    case PartOf(dev, kind) =>
      if (th.Marked? || th.Totalled?) && th.op.dev == dev && th.op.kind == kind then th.op.amount else 0
  }

  function Weights(ths: seq<Thread>, m: Pending): (w: seq<int>)
    ensures |w| == |ths| && forall i | 0 <= i < |ths| :: w[i] == Weight(ths[i], m)
  {
    seq(|ths|, i requires 0 <= i < |ths| => Weight(ths[i], m))
  }

  function InFlight(s: State, m: Pending): int { Sum(Weights(s.threads, m)) }

  lemma ThreadMoves(ths: seq<Thread>, t: nat, th: Thread, m: Pending)
    requires t < |ths|
    ensures Sum(Weights(ths[t := th], m)) == Sum(Weights(ths, m)) - Weight(ths[t], m) + Weight(th, m)
  {
    SumUpdate(Weights(ths, m), t, Weight(th, m));
    assert Weights(ths[t := th], m) == Weights(ths, m)[t := Weight(th, m)];
  }

  /** Updates begun, and bytes added minus bytes removed by them. */
  function Begins(steps: seq<Step>): nat {
    if steps == [] then 0 else Begins(steps[..|steps| - 1]) + if steps[|steps| - 1].Start? then 1 else 0
  }

  /** What a step adds to the net bytes of a device and kind. */
  function Booking(step: Step, dev: nat, ks: Kinds): int {
    if step.Start? && step.op.dev == dev && InKinds(step.op, ks) then step.op.amount else 0
  }

  function Net(steps: seq<Step>, dev: nat, ks: Kinds): int {
    if steps == [] then 0
    else Net(steps[..|steps| - 1], dev, ks) + Booking(steps[|steps| - 1], dev, ks)
  }

  lemma NetLast(steps: seq<Step>, step: Step, dev: nat, ks: Kinds)
    ensures Net(steps + [step], dev, ks) == Net(steps, dev, ks) + Booking(step, dev, ks)
  {
    assert (steps + [step])[..|steps|] == steps;
  }

  lemma {:induction false} NetSplits(steps: seq<Step>, dev: nat)
    ensures Net(steps, dev, All) ==
            Net(steps, dev, Only(0)) + Net(steps, dev, Only(1)) + Net(steps, dev, Only(2)) + Net(steps, dev, Unclassified)
  {
    if steps != [] { NetSplits(steps[..|steps| - 1], dev); }
  }

  function Part(c: Counters, kind: int): int {
    match kind
    case 0 => c.contextSize
    case 1 => c.moduleSize
    case _ => c.dataSize
  }

  ghost predicate Balanced(s: State, steps: seq<Step>, d: nat)
    requires d < |s.used|
  {
    && s.used[d].total + InFlight(s, TotalOf(d)) == Net(steps, d, All)
    && forall k | 0 <= k <= 2 :: Part(s.used[d], k) + InFlight(s, PartOf(d, k)) == Net(steps, d, Only(k))
  }

  predicate Writing(th: Thread) { th.Marked? || th.Totalled? || th.Booked? }

  predicate Reading(th: Thread) { th.Begun? || th.Sampled? || th.Loaded? }

  ghost predicate ThreadOk(s: State, th: Thread) {
    match th
    case Marked(op) => op.dev < |s.used|
    case Totalled(op) => op.dev < |s.used|
    case Begun(d) => d < |s.used|
    case Sampled(d, seq1) => d < |s.used| && seq1 % 2 == 0 && seq1 <= s.seqlock
    case Loaded(d, seq1, v) =>
      && d < |s.used| && seq1 % 2 == 0 && seq1 <= s.seqlock
      && (seq1 == s.seqlock && InFlight(s, Flights) == 0 ==> v == s.used[d].total)
    case _ => true
  }

  ghost predicate Inv(s: State, steps: seq<Step>) {
    && s.seqlock + InFlight(s, Flights) == 2 * Begins(steps)
    && (forall d | 0 <= d < |s.used| :: Balanced(s, steps, d))
    && forall t | 0 <= t < |s.threads| :: ThreadOk(s, s.threads[t]) && (Writing(s.threads[t]) ==> t in s.owner)
  }

  lemma FlightsPositive(s: State, t: nat)
    requires t < |s.threads|
    ensures Weight(s.threads[t], Flights) <= InFlight(s, Flights)
  {
    SumAtLeast(Weights(s.threads, Flights), t);
  }

  /** Only the acting thread's share of what is in flight changes; a kill leaves it in flight. */
  lemma StepMoves(s: State, step: Step, m: Pending)
    requires Next(s, step).Some?
    ensures var u := Next(s, step).value;
            && |u.threads| == |s.threads| && |u.used| == |s.used| && u.owner == s.owner
            && InFlight(u, m) == if step.Kill? then InFlight(s, m)
                                 else InFlight(s, m) - Weight(s.threads[step.t], m) + Weight(u.threads[step.t], m)
  {
    var u := Next(s, step).value;
    if !step.Kill? {
      assert u.threads == s.threads[step.t := u.threads[step.t]];
      ThreadMoves(s.threads, step.t, u.threads[step.t], m);
    }
  }

  lemma StepKeepsTotal(s: State, steps: seq<Step>, step: Step, d: nat)
    requires Next(s, step).Some? && d < |s.used|
    requires s.used[d].total + InFlight(s, TotalOf(d)) == Net(steps, d, All)
    ensures var u := Next(s, step).value;
            |u.used| == |s.used| && u.used[d].total + InFlight(u, TotalOf(d)) == Net(steps + [step], d, All)
  {
    StepMoves(s, step, TotalOf(d));
    NetLast(steps, step, d, All);
    match step
    case Start(_, _) =>
    case Query(_, _) =>
    case Go(_) =>
    case Kill =>
  }

  lemma StepKeepsPart(s: State, steps: seq<Step>, step: Step, d: nat, k: int)
    requires Next(s, step).Some? && d < |s.used| && 0 <= k <= 2
    requires Part(s.used[d], k) + InFlight(s, PartOf(d, k)) == Net(steps, d, Only(k))
    ensures var u := Next(s, step).value;
            |u.used| == |s.used| && Part(u.used[d], k) + InFlight(u, PartOf(d, k)) == Net(steps + [step], d, Only(k))
  {
    StepMoves(s, step, PartOf(d, k));
    NetLast(steps, step, d, Only(k));
    match step
    case Start(_, _) =>
    case Query(_, _) =>
    case Go(_) =>
    case Kill =>
  }

  /** The seqlock never falls, and while it stands still so does the number of updates in flight. */
  lemma StepKeepsPace(s: State, step: Step)
    requires Next(s, step).Some?
    ensures var u := Next(s, step).value;
            && s.seqlock <= u.seqlock && 0 <= InFlight(s, Flights)
            && (u.seqlock == s.seqlock ==> InFlight(u, Flights) == InFlight(s, Flights))
            && (u.seqlock != s.seqlock ==> u.seqlock == s.seqlock + 1 && u.used == s.used)
            && (!step.Kill? ==> Weight(s.threads[step.t], Flights) <= InFlight(s, Flights))
  {
    StepMoves(s, step, Flights);
    SumAtMost(seq(|s.threads|, _ => 0), Weights(s.threads, Flights));
    SumZero(seq(|s.threads|, _ => 0));
    if !step.Kill? { FlightsPositive(s, step.t); }
  }

  lemma StepKeepsThreads(s: State, steps: seq<Step>, step: Step)
    requires Inv(s, steps) && Next(s, step).Some?
    ensures var u := Next(s, step).value;
            forall t | 0 <= t < |u.threads| :: ThreadOk(u, u.threads[t]) && (Writing(u.threads[t]) ==> t in u.owner)
  {
    var u := Next(s, step).value;
    StepMoves(s, step, Flights);
    StepKeepsPace(s, step);
    forall t | 0 <= t < |u.threads| ensures ThreadOk(u, u.threads[t]) && (Writing(u.threads[t]) ==> t in u.owner) {
      assert ThreadOk(s, s.threads[t]);
      if !step.Kill? { assert ThreadOk(s, s.threads[step.t]); }
    }
  }

  lemma StepKeepsInv(s: State, steps: seq<Step>, step: Step)
    requires Inv(s, steps) && Next(s, step).Some?
    ensures Inv(Next(s, step).value, steps + [step])
  {
    var u := Next(s, step).value;
    assert (steps + [step])[..|steps|] == steps;
    StepMoves(s, step, Flights);
    forall d | 0 <= d < |u.used| ensures Balanced(u, steps + [step], d) {
      assert Balanced(s, steps, d);
      StepKeepsTotal(s, steps, step, d);
      forall k | 0 <= k <= 2 ensures Part(u.used[d], k) + InFlight(u, PartOf(d, k)) == Net(steps + [step], d, Only(k)) {
        StepKeepsPart(s, steps, step, d, k);
      }
    }
    StepKeepsThreads(s, steps, step);
  }

  lemma {:induction false} RunKeepsInv(s: State, done: seq<Step>, steps: seq<Step>, u: State)
    requires Inv(s, done) && Run(s, steps, u)
    ensures Inv(u, done + steps) && |u.used| == |s.used|
    decreases |steps|
  {
    if steps == [] {
      assert done + steps == done;
    } else {
      StepKeepsInv(s, done, steps[0]);
      RunKeepsInv(Next(s, steps[0]).value, done + [steps[0]], steps[1..], u);
      assert done + [steps[0]] + steps[1..] == done + steps;
    }
  }

  lemma InitInv(s: State)
    requires Init(s)
    ensures Inv(s, [])
  {
    SumZero(Weights(s.threads, Flights));
    forall d | 0 <= d < |s.used| ensures Balanced(s, [], d) {
      SumZero(Weights(s.threads, TotalOf(d)));
      forall k | 0 <= k <= 2 ensures InFlight(s, PartOf(d, k)) == 0 {
        SumZero(Weights(s.threads, PartOf(d, k)));
      }
    }
  }

  lemma NothingPending(s: State, d: nat)
    requires InFlight(s, Flights) == 0
    ensures InFlight(s, TotalOf(d)) == 0 && forall k :: InFlight(s, PartOf(d, k)) == 0
  {
    forall t | 0 <= t < |s.threads| ensures Weight(s.threads[t], Flights) == 0 {
      FlightsPositive(s, t);
    }
    SumZero(Weights(s.threads, TotalOf(d)));
    forall k ensures InFlight(s, PartOf(d, k)) == 0 {
      SumZero(Weights(s.threads, PartOf(d, k)));
    }
  }

  /** With nothing in flight total and the components are what was booked; total is their sum
      exactly when the updates of unknown kind cancel out. */
  lemma QuietCounters(s: State, steps: seq<Step>, d: nat)
    requires Inv(s, steps) && d < |s.used| && InFlight(s, Flights) == 0
    ensures s.seqlock % 2 == 0
    ensures s.used[d] == Counters(Net(steps, d, All), Net(steps, d, Only(0)), Net(steps, d, Only(1)), Net(steps, d, Only(2)))
    ensures s.used[d].total == s.used[d].contextSize + s.used[d].moduleSize + s.used[d].dataSize
            <==> Net(steps, d, Unclassified) == 0
  {
    NothingPending(s, d);
    assert Balanced(s, steps, d);
    assert Part(s.used[d], 0) == Net(steps, d, Only(0));
    assert Part(s.used[d], 1) == Net(steps, d, Only(1));
    assert Part(s.used[d], 2) == Net(steps, d, Only(2));
    NetSplits(steps, d);
  }

  lemma NoFlights(s: State)
    requires Init(s)
    ensures InFlight(s, Flights) == 0
  {
    SumZero(Weights(s.threads, Flights));
  }

  /** At most as many updates are in flight as were begun. */
  lemma {:induction false} FinishedAreBegun(s: State, done: seq<Step>, steps: seq<Step>, u: State)
    requires Run(s, steps, u) && 0 <= InFlight(s, Flights) <= Begins(done)
    ensures 0 <= InFlight(u, Flights) <= Begins(done + steps)
    decreases |steps|
  {
    if steps == [] {
      assert done + steps == done;
    } else {
      var v := Next(s, steps[0]).value;
      StepMoves(s, steps[0], Flights);
      StepKeepsPace(s, steps[0]);
      assert (done + [steps[0]])[..|done|] == done;
      FinishedAreBegun(v, done + [steps[0]], steps[1..], u);
      assert done + [steps[0]] + steps[1..] == done + steps;
    }
  }

  /** The seqlock counts begun and finished updates; with none in flight it is even, total is
      all bytes added minus all removed, and it is the sum of the components exactly when
      the updates of unknown kind cancel out. */
  lemma UpdatesConserved(s0: State, steps: seq<Step>, s: State, d: nat)
    requires Init(s0) && Run(s0, steps, s) && d < |s0.used|
    ensures |s.used| == |s0.used| && 0 <= InFlight(s, Flights) <= Begins(steps)
    ensures s.seqlock == Begins(steps) + (Begins(steps) - InFlight(s, Flights))
    ensures InFlight(s, Flights) == 0 ==>
              && s.seqlock % 2 == 0
              && s.used[d] == Counters(Net(steps, d, All), Net(steps, d, Only(0)), Net(steps, d, Only(1)), Net(steps, d, Only(2)))
              && (s.used[d].total == s.used[d].contextSize + s.used[d].moduleSize + s.used[d].dataSize
                  <==> Net(steps, d, Unclassified) == 0)
  {
    InitInv(s0);
    RunKeepsInv(s0, [], steps, s);
    NoFlights(s0);
    FinishedAreBegun(s0, [], steps, s);
    assert [] + steps == steps;
    if InFlight(s, Flights) == 0 { QuietCounters(s, steps, d); }
  }

  // ----- A read answers for the device it was asked about

  /** The device that thread t was last asked about. */
  function Asked(steps: seq<Step>, t: nat): Option<nat> {
    if steps == [] then None
    else
      var last := steps[|steps| - 1];
      if last.Query? && last.t == t then Some(last.dev) else Asked(steps[..|steps| - 1], t)
  }

  ghost predicate Answering(s: State, steps: seq<Step>, t: nat)
    requires t < |s.threads|
  {
    match s.threads[t]
    case Begun(d) => Asked(steps, t) == Some(d)
    case Sampled(d, _) => Asked(steps, t) == Some(d)
    case Loaded(d, _, _) => Asked(steps, t) == Some(d)
    case Accepted(d, _) => Asked(steps, t) == Some(d)
    case _ => true
  }

  lemma StepKeepsAnswering(s: State, steps: seq<Step>, step: Step, t: nat)
    requires t < |s.threads| && Answering(s, steps, t) && Next(s, step).Some?
    ensures t < |Next(s, step).value.threads| && Answering(Next(s, step).value, steps + [step], t)
  {
    assert (steps + [step])[..|steps|] == steps;
    StepMoves(s, step, Flights);
    if !step.Kill? && step.t != t { assert Next(s, step).value.threads[t] == s.threads[t]; }
  }

  lemma {:induction false} RunKeepsAnswering(s: State, done: seq<Step>, steps: seq<Step>, u: State, t: nat)
    requires t < |s.threads| && Answering(s, done, t) && Run(s, steps, u)
    ensures t < |u.threads| && Answering(u, done + steps, t)
    decreases |steps|
  {
    if steps == [] {
      assert done + steps == done;
    } else {
      StepKeepsAnswering(s, done, steps[0], t);
      RunKeepsAnswering(Next(s, steps[0]).value, done + [steps[0]], steps[1..], u, t);
      assert done + [steps[0]] + steps[1..] == done + steps;
    }
  }

  /** In every run, however often it was retried, a read in progress is of the device the thread
      was last asked about. */
  lemma ReadsWhatWasAsked(s0: State, steps: seq<Step>, s: State, t: nat)
    requires Init(s0) && Run(s0, steps, s) && t < |s.threads|
    ensures Reading(s.threads[t]) || s.threads[t].Accepted? ==> Asked(steps, t) == Some(s.threads[t].dev)
  {
    RunKeepsPace(s0, steps, s);
    RunKeepsAnswering(s0, [], steps, s, t);
    assert [] + steps == steps;
  }

  /** The next atomic operation of thread t makes it accept the total it has loaded. */
  ghost predicate Accepts(s: State, t: nat) {
    && t < |s.threads| && s.threads[t].Loaded?
    && Next(s, Go(t)).Some? && Next(s, Go(t)).value.threads[t].Accepted?
  }

  lemma EvenFlights(seqlock: nat, flights: int, begins: nat)
    requires seqlock % 2 == 0 && seqlock + flights == 2 * begins && 0 <= flights
    ensures flights % 2 == 0 && (flights <= 1 ==> flights == 0)
  {
    assert flights == 2 * (begins - seqlock / 2);
  }

  lemma AcceptsEven(s: State, steps: seq<Step>, t: nat)
    requires Inv(s, steps) && Accepts(s, t)
    ensures s.seqlock % 2 == 0 && s.threads[t].dev < |s.used|
    ensures 0 <= InFlight(s, Flights) && InFlight(s, Flights) % 2 == 0
    ensures InFlight(s, Flights) <= 1 ==>
              InFlight(s, Flights) == 0 && s.threads[t].value == s.used[s.threads[t].dev].total
  {
    assert ThreadOk(s, s.threads[t]);
    StepKeepsPace(s, Go(t));
    EvenFlights(s.seqlock, InFlight(s, Flights), Begins(steps));
  }

  /** A reader accepts only at an instant of even seqlock. If at most one update is in flight
      then, none is, and the value is the total at that instant: everything added minus
      everything removed by the updates so far. */
  lemma {:induction false} AcceptedIsCurrent(s0: State, steps: seq<Step>, s: State, t: nat)
    requires Init(s0) && Run(s0, steps, s)
    requires Accepts(s, t)
    ensures s.seqlock % 2 == 0 && InFlight(s, Flights) % 2 == 0
    ensures s.threads[t].dev < |s.used| == |s0.used|
    ensures Next(s, Go(t)).value.threads[t] == Accepted(s.threads[t].dev, s.threads[t].value)
    ensures Asked(steps, t) == Some(s.threads[t].dev)
    ensures var r := s.threads[t];
            InFlight(s, Flights) <= 1 ==>
                && InFlight(s, Flights) == 0
                && r.value == s.used[r.dev].total == Net(steps, r.dev, All)
                && (Net(steps, r.dev, Unclassified) == 0 ==>
                      r.value == s.used[r.dev].contextSize + s.used[r.dev].moduleSize + s.used[r.dev].dataSize)
  {
    InitInv(s0);
    RunKeepsInv(s0, [], steps, s);
    assert [] + steps == steps;
    AcceptsEven(s, steps, t);
    ReadsWhatWasAsked(s0, steps, s, t);
    if InFlight(s, Flights) == 0 { QuietCounters(s, steps, s.threads[t].dev); }
  }

  // ----- Exactly when an accepted value is a snapshot

  lemma {:induction false} RunKeepsPace(s: State, steps: seq<Step>, u: State)
    requires Run(s, steps, u)
    ensures s.seqlock <= u.seqlock && |u.threads| == |s.threads| && u.owner == s.owner
    ensures u.seqlock == s.seqlock ==> InFlight(u, Flights) == InFlight(s, Flights)
    decreases |steps|
  {
    if steps != [] {
      StepKeepsPace(s, steps[0]);
      StepMoves(s, steps[0], Flights);
      RunKeepsPace(Next(s, steps[0]).value, steps[1..], u);
    }
  }

  lemma {:induction false} RunConcat(s: State, a: seq<Step>, t: State, b: seq<Step>, u: State)
    requires Run(s, a, t) && Run(t, b, u)
    ensures Run(s, a + b, u)
    decreases |a|
  {
    if a == [] {
      assert a + b == b;
    } else {
      assert (a + b)[0] == a[0] && (a + b)[1..] == a[1..] + b;
      RunConcat(Next(s, a[0]).value, a[1..], t, b, u);
    }
  }

  lemma Prepend(s: State, step: Step, t: State, steps: seq<Step>, u: State)
    requires Next(s, step) == Some(t) && Run(t, steps, u)
    ensures Run(s, [step] + steps, u)
  {
    assert ([step] + steps)[1..] == steps;
  }

  /** The instant m at which thread t sampled the seqlock for the read it is accepting at s. */
  ghost predicate SampledAt(m: State, during: seq<Step>, s: State, t: nat) {
    && Run(m, during, s) && t < |m.threads| == |s.threads|
    && (s.threads[t].Sampled? || s.threads[t].Loaded?)
    && m.threads[t] == Sampled(s.threads[t].dev, s.threads[t].seq1)
    && m.seqlock == s.threads[t].seq1
  }

  lemma RunMore(m: State, during: seq<Step>, s: State, step: Step)
    requires Run(m, during, s) && Next(s, step).Some?
    ensures Run(m, during + [step], Next(s, step).value)
  {
    var u := Next(s, step).value;
    assert [step][1..] == [] && Run(s, [step], u);
    RunConcat(m, during, s, [step], u);
  }

  /** x is an instant on the way from m to s. */
  ghost predicate Between(m: State, x: State, s: State) {
    exists a, b :: Run(m, a, x) && Run(x, b, s)
  }

  /** On the way from m to s the total of a device was v at some instant. */
  ghost predicate TotalBetween(m: State, s: State, dev: nat, v: int) {
    exists x :: Between(m, x, s) && dev < |x.used| && x.used[dev].total == v
  }

  predicate Sampling(th: Thread) { th.Sampled? || th.Loaded? }

  /** A run split at the last sample of thread t, if it has a read in progress at s. */
  ghost predicate Split(s0: State, before: seq<Step>, m: State, during: seq<Step>, s: State, t: nat) {
    && Run(s0, before, m) && Run(m, during, s) && t < |s.threads|
    && (Sampling(s.threads[t]) ==> SampledAt(m, during, s, t))
    && (s.threads[t].Loaded? ==> TotalBetween(m, s, s.threads[t].dev, s.threads[t].value))
  }

  lemma TotalBetweenMore(m: State, s: State, step: Step, dev: nat, v: int)
    requires TotalBetween(m, s, dev, v) && Next(s, step).Some?
    ensures TotalBetween(m, Next(s, step).value, dev, v)
  {
    var x :| Between(m, x, s) && dev < |x.used| && x.used[dev].total == v;
    var a, b :| Run(m, a, x) && Run(x, b, s);
    RunMore(x, b, s, step);
    assert Between(m, x, Next(s, step).value);
  }

  lemma TotalBetweenNow(m: State, during: seq<Step>, s: State, step: Step, dev: nat)
    requires Run(m, during, s) && Next(s, step).Some? && dev < |s.used|
    ensures TotalBetween(m, Next(s, step).value, dev, s.used[dev].total)
  {
    var v := Next(s, step).value;
    assert [step][1..] == [] && Run(s, [step], v);
    assert Between(m, s, v);
  }

  /** A load is a load, or one made before. */
  lemma LoadMoves(s: State, step: Step, t: nat)
    requires Next(s, step).Some? && t < |s.threads|
    ensures var v := Next(s, step).value;
            t < |v.threads| && (v.threads[t].Loaded? ==>
              var th := v.threads[t];
              s.threads[t] == th || (s.threads[t].Sampled? && th.dev < |s.used| && th.value == s.used[th.dev].total))
  {
    StepMoves(s, step, Flights);
    if !step.Kill? && step.t != t { assert Next(s, step).value.threads[t] == s.threads[t]; }
  }

  lemma SplitMoves(s0: State, before: seq<Step>, m: State, during: seq<Step>, s: State, step: Step, t: nat)
    returns (before': seq<Step>, m': State, during': seq<Step>)
    requires Split(s0, before, m, during, s, t) && Next(s, step).Some?
    ensures Split(s0, before', m', during', Next(s, step).value, t)
    ensures before' + during' == before + (during + [step])
  {
    var v, to := Next(s, step).value, during + [step];
    StepMoves(s, step, Flights);
    RunMore(m, during, s, step);
    LoadMoves(s, step, t);
    if v.threads[t].Loaded? {
      var d, total := v.threads[t].dev, v.threads[t].value;
      if s.threads[t] == v.threads[t] { TotalBetweenMore(m, s, step, d, total); } else { TotalBetweenNow(m, during, s, step, d); }
    }
    if Sampling(v.threads[t]) && !Sampling(s.threads[t]) {
      RunConcat(s0, before, m, to, v);
      before', m', during' := before + to, v, [];
    } else {
      before', m', during' := before, m, to;
    }
  }

  /** Every read in progress after a run was sampled at some instant of it. */
  lemma {:induction false} ReadWasSampled(s0: State, before: seq<Step>, m: State, during: seq<Step>, s: State,
                                          rest: seq<Step>, u: State, t: nat)
    returns (before': seq<Step>, m': State, during': seq<Step>)
    requires Split(s0, before, m, during, s, t) && Run(s, rest, u)
    ensures Split(s0, before', m', during', u, t)
    ensures before' + during' == before + during + rest
    decreases |rest|
  {
    if rest == [] {
      before', m', during' := before, m, during;
    } else {
      var before1, m1, during1 := SplitMoves(s0, before, m, during, s, rest[0], t);
      before', m', during' := ReadWasSampled(s0, before1, m1, during1, Next(s, rest[0]).value, rest[1..], u, t);
      assert before + (during + [rest[0]]) + rest[1..] == before + during + rest;
    }
  }

  lemma InstantsBetween(m: State, x: State, s: State)
    requires Between(m, x, s) && m.seqlock == s.seqlock
    ensures InFlight(x, Flights) == InFlight(s, Flights)
  {
    var a, b :| Run(m, a, x) && Run(x, b, s);
    RunKeepsPace(m, a, x);
    RunKeepsPace(x, b, s);
  }

  /** An accepted read had an instant without any update in flight, between its sample and
      its acceptance, exactly when at most one is in flight at the acceptance. Otherwise the
      same two or more were in flight at every instant of the read. */
  lemma {:induction false} SnapshotExactly(s0: State, steps: seq<Step>, s: State, t: nat)
    returns (before: seq<Step>, m: State, during: seq<Step>)
    requires Init(s0) && Run(s0, steps, s) && Accepts(s, t)
    ensures before + during == steps && Run(s0, before, m) && SampledAt(m, during, s, t)
    ensures Asked(steps, t) == Some(s.threads[t].dev) && TotalBetween(m, s, s.threads[t].dev, s.threads[t].value)
    ensures (exists x :: Between(m, x, s) && InFlight(x, Flights) == 0) <==> InFlight(s, Flights) <= 1
    ensures forall x | Between(m, x, s) :: InFlight(x, Flights) == InFlight(s, Flights)
    ensures InFlight(s, Flights) > 1 ==> forall x | Between(m, x, s) :: InFlight(x, Flights) >= 2
  {
    RunKeepsPace(s0, steps, s);
    assert Split(s0, [], s0, [], s0, t);
    before, m, during := ReadWasSampled(s0, [], s0, [], s0, steps, s, t);
    forall x | Between(m, x, s) ensures InFlight(x, Flights) == InFlight(s, Flights) {
      InstantsBetween(m, x, s);
    }
    assert Between(m, s, s) by { assert Run(m, during, s) && Run(s, [], s); }
    AcceptedIsCurrent(s0, steps, s, t);
  }

  // ----- When a reader can still finish

  /** A run of s after which thread t has accepted a value. */
  ghost predicate CanFinish(s: State, t: nat) {
    exists steps, u :: Run(s, steps, u) && t < |u.threads| && u.threads[t].Accepted?
  }

  ghost function ReaderRank(s: State, th: Thread): nat {
    match th
    case Loaded(_, seq1, _) => if seq1 == s.seqlock then 1 else 4
    case Sampled(_, seq1) => if seq1 == s.seqlock then 2 else 5
    case _ => 3
  }

  /** An undisturbed reader finishes where the seqlock is even. */
  lemma {:induction false} ReaderFinishes(s: State, t: nat) returns (steps: seq<Step>, u: State)
    requires t < |s.threads| && Reading(s.threads[t]) && ThreadOk(s, s.threads[t])
    requires s.seqlock % 2 == 0 && !(s.killed && t in s.owner)
    ensures Run(s, steps, u) && t < |u.threads| && u.threads[t].Accepted?
    ensures s.threads[t].Begun? ==>
              u == s.(threads := s.threads[t := Accepted(s.threads[t].dev, s.used[s.threads[t].dev].total)])
    ensures s.threads[t].Sampled? && s.threads[t].seq1 == s.seqlock ==>
              u == s.(threads := s.threads[t := Accepted(s.threads[t].dev, s.used[s.threads[t].dev].total)])
    ensures s.threads[t].Loaded? && s.threads[t].seq1 == s.seqlock ==>
              u == s.(threads := s.threads[t := Accepted(s.threads[t].dev, s.threads[t].value)])
    decreases ReaderRank(s, s.threads[t])
  {
    var v := Next(s, Go(t)).value;
    StepMoves(s, Go(t), Flights);
    if v.threads[t].Accepted? {
      steps, u := [Go(t)], v;
      assert steps[1..] == [];
    } else {
      var rest;
      rest, u := ReaderFinishes(v, t);
      steps := [Go(t)] + rest;
      assert steps[1..] == rest;
    }
  }

  function WriterRank(th: Thread): nat {
    if th.Marked? then 3 else if th.Totalled? then 2 else 1
  }

  /** A live writer finishes its update, which moves the seqlock on by one. */
  lemma {:induction false} WriterFinishes(s: State, w: nat) returns (steps: seq<Step>, u: State)
    requires w < |s.threads| && Writing(s.threads[w]) && ThreadOk(s, s.threads[w]) && !s.killed
    ensures Run(s, steps, u) && u.seqlock == s.seqlock + 1 && |u.used| == |s.used| && !u.killed
    ensures u.threads == s.threads[w := Idle]
    decreases WriterRank(s.threads[w])
  {
    var v := Next(s, Go(w)).value;
    if v.threads[w].Idle? {
      steps, u := [Go(w)], v;
      assert steps[1..] == [];
    } else {
      var rest;
      rest, u := WriterFinishes(v, w);
      steps := [Go(w)] + rest;
      assert steps[1..] == rest;
    }
  }

  lemma {:induction false} SomeWriter(ths: seq<Thread>) returns (w: nat)
    requires Sum(Weights(ths, Flights)) > 0
    ensures w < |ths| && Writing(ths[w])
  {
    var n := |ths| - 1;
    if Writing(ths[n]) {
      w := n;
    } else {
      assert Weights(ths[..n], Flights) == Weights(ths, Flights)[..n];
      w := SomeWriter(ths[..n]);
    }
  }

  /** After the owner died with an odd seqlock nobody moves it, and a reader only loads it again. */
  lemma {:induction false} BlockedForever(s: State, steps: seq<Step>, u: State, t: nat)
    requires Run(s, steps, u) && s.killed && s.seqlock % 2 == 1
    requires forall i | 0 <= i < |s.threads| && Writing(s.threads[i]) :: i in s.owner
    requires t < |s.threads| && t !in s.owner && Reading(s.threads[t]) && ThreadOk(s, s.threads[t])
    ensures u.killed && u.seqlock == s.seqlock && t < |u.threads| && Reading(u.threads[t])
    decreases |steps|
  {
    if steps != [] {
      StepMoves(s, steps[0], Flights);
      BlockedForever(Next(s, steps[0]).value, steps[1..], u, t);
    }
  }

  lemma WritersInFlight(s: State)
    ensures (exists w :: 0 <= w < |s.threads| && Writing(s.threads[w])) <==> InFlight(s, Flights) > 0
  {
    if InFlight(s, Flights) > 0 { var w := SomeWriter(s.threads); }
    forall w | 0 <= w < |s.threads| && Writing(s.threads[w]) ensures InFlight(s, Flights) > 0 {
      FlightsPositive(s, w);
    }
  }

  /** A live owner with an update in flight can finish it and let a reader go on. */
  lemma ReaderCanFinish(s: State, t: nat)
    requires t < |s.threads| && !(s.killed && t in s.owner) && Reading(s.threads[t])
    requires forall i | 0 <= i < |s.threads| :: ThreadOk(s, s.threads[i])
    requires s.seqlock % 2 == 0 || (!s.killed && InFlight(s, Flights) > 0)
    ensures CanFinish(s, t)
  {
    if s.seqlock % 2 == 0 {
      var _, _ := ReaderFinishes(s, t);
    } else {
      var w := SomeWriter(s.threads);
      var a, v := WriterFinishes(s, w);
      assert ThreadOk(s, s.threads[t]);
      var b, u := ReaderFinishes(v, t);
      RunConcat(s, a, v, b, u);
    }
  }

  /** In every reachable state a live reader can still finish exactly when the slot's owner did
      not die with an odd number of updates in flight: if it updates from one thread at a time,
      exactly when it did not die between its two seqlock increments. */
  lemma ReaderFinishesUnlessStuck(s0: State, steps: seq<Step>, s: State, t: nat)
    requires Init(s0) && Run(s0, steps, s)
    requires t < |s.threads| && !(s.killed && t in s.owner) && Reading(s.threads[t])
    ensures CanFinish(s, t) <==> !(s.killed && InFlight(s, Flights) % 2 == 1)
    ensures InFlight(s, Flights) <= 1 ==>
              (CanFinish(s, t) <==> !(s.killed && exists w :: 0 <= w < |s.threads| && Writing(s.threads[w])))
  {
    InitInv(s0);
    RunKeepsInv(s0, [], steps, s);
    assert [] + steps == steps;
    FlightsPositive(s, t);
    WritersInFlight(s);
    if s.killed && s.seqlock % 2 == 1 {
      forall rest, u | Run(s, rest, u) && t < |u.threads| ensures !u.threads[t].Accepted? {
        BlockedForever(s, rest, u, t);
      }
    } else {
      ReaderCanFinish(s, t);
    }
  }

  /** The owner can die so: from every initial state with a thread of the owner and one of
      another process there is a run after which the latter never finishes. */
  lemma StuckReachable(s0: State, op: Update, w: nat, t: nat) returns (steps: seq<Step>, s: State)
    requires Init(s0) && op.dev < |s0.used| && w < |s0.threads| && t < |s0.threads|
    requires w in s0.owner && t !in s0.owner
    ensures Run(s0, steps, s) && t < |s.threads| && Reading(s.threads[t]) && !CanFinish(s, t)
  {
    var s1 := Next(s0, Start(w, op)).value;
    var s2 := Next(s1, Kill).value;
    s := Next(s2, Query(t, op.dev)).value;
    steps := [];
    Prepend(s2, Query(t, op.dev), s, steps, s);
    steps := [Query(t, op.dev)] + steps;
    Prepend(s1, Kill, s2, steps, s);
    steps := [Kill] + steps;
    Prepend(s0, Start(w, op), s1, steps, s);
    steps := [Start(w, op)] + steps;
    forall rest, u | Run(s, rest, u) && t < |u.threads| ensures !u.threads[t].Accepted? {
      BlockedForever(s, rest, u, t);
    }
  }

  /** With two updates in flight the seqlock is even again and a reader accepts a total whose
      components have not followed: one concurrent writer too many breaks the snapshot. */
  lemma TwoWritersTear(amount: int) returns (s0: State, steps: seq<Step>, s: State)
    requires amount != 0
    ensures Init(s0) && Run(s0, steps, s) && |s.used| == 1 && |s.threads| == 3
    ensures s.threads[2] == Accepted(0, amount) && InFlight(s, Flights) == 2
    ensures s.used[0].contextSize + s.used[0].moduleSize + s.used[0].dataSize == 0 != amount
  {
    var op, zero := Update(0, amount, 2), [Counters(0, 0, 0, 0)];
    var ths := [Idle, Idle, Idle];
    s0 := State(0, zero, ths, {0, 1}, false);
    var s1 := s0.(seqlock := 1, threads := ths[0 := Marked(op)]);
    var s2 := s1.(seqlock := 2, threads := s1.threads[1 := Marked(op)]);
    var s3 := s2.(used := zero[0 := Counters(amount, 0, 0, 0)], threads := s2.threads[0 := Totalled(op)]);
    var s4 := s3.(threads := s3.threads[2 := Begun(0)]);
    steps, s := ReaderFinishes(s4, 2);
    Prepend(s3, Query(2, 0), s4, steps, s);
    steps := [Query(2, 0)] + steps;
    Prepend(s2, Go(0), s3, steps, s);
    steps := [Go(0)] + steps;
    Prepend(s1, Start(1, op), s2, steps, s);
    steps := [Start(1, op)] + steps;
    Prepend(s0, Start(0, op), s1, steps, s);
    steps := [Start(0, op)] + steps;
    TwoOfThree(s.threads[0], s.threads[1], s.threads[2]);
    assert s.threads == [s.threads[0], s.threads[1], s.threads[2]];
  }

  lemma TwoOfThree(a: Thread, b: Thread, c: Thread)
    requires Writing(a) && Writing(b) && !Writing(c)
    ensures Sum(Weights([a, b, c], Flights)) == 2
  {
    var w := Weights([a, b, c], Flights);
    assert w == [1, 1, 0];
    assert [1][..0] == [] && Sum([1]) == 1;
    assert [1, 1][..1] == [1] && Sum([1, 1]) == 2;
    assert w[..2] == [1, 1];
  }
}
