/** The shared time of the last kernel launch: a maximum kept by weak compare-and-swap.

    A process that joins the region overwrites it with a plain store. */
module KernelTime {
  import opened Common

  datatype Caller =
    | Idle
    | Loading(now: nat)
    | Trying(now: nat, expected: nat)
    | Recorded(now: nat)

  datatype State = State(time: nat, callers: seq<Caller>)

  datatype Step =
    | Call(t: nat, now: nat)
    | Go(t: nat)
    | Spurious(t: nat)      // the weak compare-and-swap fails though the value matches
    | Join(start: nat)

  /** The loop test after expected was loaded. */
  function Test(now: nat, expected: nat): Caller {
    if expected < now then Trying(now, expected) else Recorded(now)
  }

  function Next(s: State, step: Step): Option<State> {
    match step
    case Join(start) => Some(s.(time := start))
    case Call(t, now) =>
      if t < |s.callers| && s.callers[t].Idle? then Some(s.(callers := s.callers[t := Loading(now)])) else None
    case Spurious(t) =>
      if t < |s.callers| && s.callers[t].Trying?
      then Some(s.(callers := s.callers[t := Test(s.callers[t].now, s.time)])) else None
    case Go(t) =>
      if t >= |s.callers| then None
      else
        match s.callers[t]
        case Idle => None
        case Loading(now) => Some(s.(callers := s.callers[t := Test(now, s.time)]))
        case Trying(now, expected) =>
          if s.time == expected then Some(State(now, s.callers[t := Recorded(now)]))
          else Some(s.(callers := s.callers[t := Test(now, s.time)]))
        case Recorded(_) => Some(s.(callers := s.callers[t := Idle]))
  }

  ghost predicate Run(s: State, steps: seq<Step>, u: State)
    decreases |steps|
  {
    if steps == [] then s == u
    else Next(s, steps[0]).Some? && Run(Next(s, steps[0]).value, steps[1..], u)
  }

  ghost predicate Init(s: State) {
    forall t | 0 <= t < |s.callers| :: s.callers[t].Idle?
  }

  /** The greatest of the first value and the times of all calls. */
  function Greatest(start: nat, steps: seq<Step>): nat {
    if steps == [] then start
    else
      var g, last := Greatest(start, steps[..|steps| - 1]), steps[|steps| - 1];
      if last.Call? && last.now > g then last.now else g
  }

  ghost predicate Called(steps: seq<Step>, now: nat) {
    exists i :: 0 <= i < |steps| && steps[i].Call? && steps[i].now == now
  }

  ghost predicate CallerOk(s: State, c: Caller, greatest: nat, done: seq<Step>) {
    match c
    case Idle => true
    case Loading(now) => now <= greatest && Called(done, now)
    case Trying(now, expected) => expected < now <= greatest && Called(done, now)
    case Recorded(now) => now <= s.time
  }

  /** Somebody in the loop is on the way to store a time. */
  ghost predicate OnItsWay(s: State, now: nat) {
    exists t :: 0 <= t < |s.callers| && (s.callers[t].Loading? || s.callers[t].Trying?) && s.callers[t].now == now
  }

  ghost predicate Inv(s: State, start: nat, done: seq<Step>) {
    var greatest := Greatest(start, done);
    && start <= s.time <= greatest
    && (s.time == start || Called(done, s.time))
    && (s.time < greatest ==> OnItsWay(s, greatest))
    && forall t | 0 <= t < |s.callers| :: CallerOk(s, s.callers[t], greatest, done)
  }

  lemma CalledMore(done: seq<Step>, step: Step)
    ensures forall now | Called(done, now) :: Called(done + [step], now)
    ensures step.Call? ==> Called(done + [step], step.now)
  {
    forall now | Called(done, now) ensures Called(done + [step], now) {
      var i :| 0 <= i < |done| && done[i].Call? && done[i].now == now;
      assert (done + [step])[i] == done[i];
    }
    assert (done + [step])[|done|] == step;
  }

  lemma StepKeepsPending(s: State, start: nat, done: seq<Step>, step: Step)
    requires Inv(s, start, done) && Next(s, step).Some? && !step.Join?
    ensures var u, greatest := Next(s, step).value, Greatest(start, done + [step]);
            u.time < greatest ==> OnItsWay(u, greatest)
  {
    var u, greatest := Next(s, step).value, Greatest(start, done + [step]);
    assert (done + [step])[..|done|] == done;
    if u.time < greatest {
      if step.Call? && step.now > Greatest(start, done) {
        assert u.callers[step.t] == Loading(greatest);
      } else {
        var t :| 0 <= t < |s.callers| && (s.callers[t].Loading? || s.callers[t].Trying?) && s.callers[t].now == greatest;
        assert CallerOk(s, s.callers[t], greatest, done);
        assert u.callers[t].Loading? || u.callers[t].Trying?;
      }
    }
  }

  lemma StepKeepsInv(s: State, start: nat, done: seq<Step>, step: Step)
    requires Inv(s, start, done) && Next(s, step).Some? && !step.Join?
    ensures Inv(Next(s, step).value, start, done + [step]) && s.time <= Next(s, step).value.time
  {
    var u, greatest := Next(s, step).value, Greatest(start, done + [step]);
    assert (done + [step])[..|done|] == done;
    CalledMore(done, step);
    StepKeepsPending(s, start, done, step);
    assert CallerOk(s, s.callers[step.t], Greatest(start, done), done);
    forall t | 0 <= t < |u.callers| ensures CallerOk(u, u.callers[t], greatest, done + [step]) {
      assert CallerOk(s, s.callers[t], Greatest(start, done), done);
    }
  }

  lemma {:induction false} RunKeepsInv(s: State, start: nat, done: seq<Step>, steps: seq<Step>, u: State)
    requires Inv(s, start, done) && Run(s, steps, u) && forall i | 0 <= i < |steps| :: !steps[i].Join?
    ensures Inv(u, start, done + steps) && s.time <= u.time
    decreases |steps|
  {
    if steps == [] {
      assert done + steps == done;
    } else {
      StepKeepsInv(s, start, done, steps[0]);
      RunKeepsInv(Next(s, steps[0]).value, start, done + [steps[0]], steps[1..], u);
      assert done + [steps[0]] + steps[1..] == done + steps;
    }
  }

  /** Over every run of callers, spurious failures included, the time never decreases, is the
      first value or some caller's, covers every caller that has left the loop, and is exactly
      the greatest of all once nobody is in the loop. */
  lemma {:induction false} MaximumRegister(s0: State, steps: seq<Step>, s: State)
    requires Init(s0) && Run(s0, steps, s) && forall i | 0 <= i < |steps| :: !steps[i].Join?
    ensures s0.time <= s.time <= Greatest(s0.time, steps)
    ensures s.time == s0.time || Called(steps, s.time)
    ensures forall t | 0 <= t < |s.callers| && s.callers[t].Recorded? :: s.callers[t].now <= s.time
    ensures (forall t | 0 <= t < |s.callers| :: s.callers[t].Idle? || s.callers[t].Recorded?) ==>
              s.time == Greatest(s0.time, steps)
  {
    RunKeepsInv(s0, s0.time, [], steps, s);
    assert [] + steps == steps;
  }

  // ----- Runs in which processes join

  /** Who is about to store a time has last seen an earlier one. */
  ghost predicate TryingLater(s: State) {
    forall t | 0 <= t < |s.callers| && s.callers[t].Trying? :: s.callers[t].expected < s.callers[t].now
  }

  lemma {:induction false} RunKeepsTryingLater(s: State, steps: seq<Step>, u: State)
    requires TryingLater(s) && Run(s, steps, u)
    ensures TryingLater(u)
    decreases |steps|
  {
    if steps != [] { RunKeepsTryingLater(Next(s, steps[0]).value, steps[1..], u); }
  }

  /** In every state of every run, joins included, the only step that lowers the time is a
      process joining with an earlier clock. */
  lemma {:induction false} OnlyJoinLowers(s0: State, steps: seq<Step>, s: State, step: Step)
    requires Init(s0) && Run(s0, steps, s) && Next(s, step).Some?
    ensures Next(s, step).value.time < s.time <==> step.Join? && step.start < s.time
    ensures step.Join? ==> Next(s, step).value == State(step.start, s.callers)
  {
    RunKeepsTryingLater(s0, steps, s);
  }
}
