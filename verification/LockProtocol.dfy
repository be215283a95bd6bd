/** The crash-tolerant lock of the shared region as a step machine.

    Every semaphore operation, every load, store and compare-and-swap of `owner_pid`,
    and every death of a process is one step; steps of different processes interleave
    in any order. A process is one thread, and pids are not reused. */
module LockProtocol {
  import opened Common

  const TRIALS_BEFORE_EXIT := 30

  /** Where a process stands in lock_shrreg, unlock_shrreg or exit_handler. */
  datatype Pc =
    | Outside                             // not using the lock
    | Waiting(trials: nat)                // about to call sem_timedwait
    | Acquired                            // semaphore taken, owner_pid not yet written
    | Critical                            // owner_pid names this process
    | Released                            // owner_pid cleared, semaphore not yet posted
    | TimedOut(trials: nat)               // about to load owner_pid
    | Observed(trials: nat, seen: int)    // loaded a non-zero owner, about to probe it
    | Stale(trials: nat, seen: int)       // found that owner dead, about to swap it out
    | Recovering(trials: nat)             // swapped it out, semaphore not yet posted
    | ExitLoad                            // exit handler, about to load owner_pid
    | ExitCas                             // exit handler, loaded its own pid
    | ExitPost                            // exit handler, cleared owner_pid, about to post
    | Gone                                // exit handler done with the lock

  datatype State = State(sem: nat, owner: int, procs: map<int, Pc>, dead: set<int>)

  /** Advance runs the next statement of the code; the others are choices the
      environment makes: the outcome of sem_timedwait, a call, an exit, a SIGKILL. */
  datatype Action = Enter | SemOk | SemTimeout | SemError | Exit | Advance | Kill

  datatype Event = Event(p: int, action: Action)

  function At(s: State, p: int, pc: Pc): State {
    s.(procs := s.procs[p := pc])
  }

  function Next(s: State, e: Event): Option<State> {
    if e.p !in s.procs || e.p in s.dead then None
    else
      match e.action
      case Kill => Some(s.(dead := s.dead + {e.p}))
      case Enter => if s.procs[e.p].Outside? then Some(At(s, e.p, Waiting(0))) else None
      case SemOk =>
        if s.procs[e.p].Waiting? && s.sem > 0 then Some(At(s.(sem := s.sem - 1), e.p, Acquired)) else None
      case SemTimeout =>
        if s.procs[e.p].Waiting? then Some(At(s, e.p, TimedOut(s.procs[e.p].trials + 1))) else None
      case SemError => if s.procs[e.p].Waiting? then Some(s) else None
      case Exit =>
        if s.procs[e.p].Outside? || s.procs[e.p].Critical? then Some(At(s, e.p, ExitLoad)) else None
      case Advance => Statement(s, e.p)
  }

  function Statement(s: State, p: int): Option<State>
    requires p in s.procs
  {
    match s.procs[p]
    case Acquired => Some(At(s.(owner := p), p, Critical))
    case Critical => Some(At(s.(owner := 0), p, Released))
    case Released => Some(At(s.(sem := s.sem + 1), p, Outside))
    case TimedOut(n) =>
      Some(At(s, p, if s.owner != 0 then Observed(n, s.owner)
                    else if n > TRIALS_BEFORE_EXIT then ExitLoad
                    else Waiting(n)))
    case Observed(n, o) => Some(At(s, p, if o in s.dead then Stale(n, o) else Waiting(n)))
    case Stale(n, o) =>
      Some(if s.owner == o then At(s.(owner := 0), p, Recovering(n)) else At(s, p, Waiting(n)))
    case Recovering(n) => Some(At(s.(sem := s.sem + 1), p, Waiting(n)))
    case ExitLoad => Some(At(s, p, if s.owner == p then ExitCas else Gone))
    case ExitCas => Some(if s.owner == p then At(s.(owner := 0), p, ExitPost) else At(s, p, Gone))
    case ExitPost => Some(At(s.(sem := s.sem + 1), p, Gone))
    case _ => None
  }

  ghost predicate Init(s: State) {
    && s.sem == 1 && s.owner == 0 && s.dead == {}
    && 0 !in s.procs
    && forall p | p in s.procs :: s.procs[p].Outside?
  }

  /** t is reached from s by the events es, one after the other. */
  ghost predicate Run(s: State, es: seq<Event>, t: State)
    decreases |es|
  {
    if es == [] then s == t
    else Next(s, es[0]).Some? && Run(Next(s, es[0]).value, es[1..], t)
  }

  // ----- The invariant: one token, in the semaphore or with one process

  /** The process has taken the semaphore and the post that returns it is still its duty.
      Between writing and clearing owner_pid the duty lasts only while owner_pid names it:
      a recoverer that swaps the pid out takes the duty over. */
  ghost predicate HasToken(s: State, p: int)
    requires p in s.procs
  {
    match s.procs[p]
    case Acquired | Released | Recovering(_) | ExitPost => true
    case Critical | ExitLoad | ExitCas => s.owner == p
    case _ => false
  }

  ghost predicate TokenAt(s: State, h: Option<int>) {
    match h
    case None => s.sem == 1 && forall p | p in s.procs :: !HasToken(s, p)
    case Some(q) =>
      s.sem == 0 && q in s.procs && HasToken(s, q) && forall p | p in s.procs && HasToken(s, p) :: p == q
  }

  predicate Named(pc: Pc) { pc.Critical? || pc.ExitLoad? || pc.ExitCas? }

  /** owner_pid names a process that wrote it, and a live process that wrote it is named. */
  ghost predicate OwnerKnown(s: State) {
    && 0 !in s.procs
    && (s.owner != 0 ==> s.owner in s.procs && Named(s.procs[s.owner]))
    && (forall p | p in s.procs && p !in s.dead && (s.procs[p].Critical? || s.procs[p].ExitCas?) :: s.owner == p)
  }

  predicate ObservationOk(s: State, pc: Pc) {
    match pc
    case Observed(_, o) => o != 0
    case Stale(_, o) => o != 0 && o in s.dead
    case _ => true
  }

  ghost predicate Inv(s: State, h: Option<int>) {
    && TokenAt(s, h)
    && OwnerKnown(s)
    && forall p | p in s.procs :: ObservationOk(s, s.procs[p])
  }

  /** Who holds the token after the event. */
  ghost function NextHolder(s: State, h: Option<int>, e: Event): Option<int>
    requires Next(s, e).Some?
  {
    match e.action
    case SemOk => Some(e.p)
    case Advance =>
      (match s.procs[e.p]
       case Released | Recovering(_) | ExitPost => None
       case Stale(_, o) => if s.owner == o then Some(e.p) else h
       case _ => h)
    case _ => h
  }

  /** Deaths and calls move no token; taking the semaphore hands it over. */
  lemma ChoiceKeepsToken(s: State, h: Option<int>, e: Event)
    requires Inv(s, h) && Next(s, e).Some? && !e.action.Advance?
    ensures TokenAt(Next(s, e).value, NextHolder(s, h, e))
  {
    var t := Next(s, e).value;
    forall p | p in s.procs ensures HasToken(t, p) <==> HasToken(s, p) || (e.action.SemOk? && p == e.p) {
      assert p != e.p ==> t.procs[p] == s.procs[p];
    }
  }

  lemma StatementKeepsToken(s: State, h: Option<int>, e: Event)
    requires Inv(s, h) && Next(s, e).Some? && e.action.Advance?
    ensures TokenAt(Next(s, e).value, NextHolder(s, h, e))
  {
    var t := Next(s, e).value;
    forall p | p in s.procs && p != e.p && HasToken(t, p) ensures HasToken(s, p) {
      assert t.procs[p] == s.procs[p];
    }
    if s.procs[e.p].Stale? && s.owner == s.procs[e.p].seen {
      assert HasToken(s, s.owner);
    } else {
      assert forall p | p in s.procs && p != e.p && HasToken(s, p) :: t.procs[p] == s.procs[p];
    }
  }

  /** Only the acting process can gain the token, and only one that is named can lose it to another. */
  lemma StepKeepsToken(s: State, h: Option<int>, e: Event)
    requires Inv(s, h) && Next(s, e).Some?
    ensures TokenAt(Next(s, e).value, NextHolder(s, h, e))
  {
    if e.action.Advance? { StatementKeepsToken(s, h, e); } else { ChoiceKeepsToken(s, h, e); }
  }

  lemma StepKeepsOwner(s: State, h: Option<int>, e: Event)
    requires Inv(s, h) && Next(s, e).Some?
    ensures OwnerKnown(Next(s, e).value)
  {
    var t := Next(s, e).value;
    assert s.owner != 0 ==> HasToken(s, s.owner);
    forall p | p in t.procs && p !in t.dead && (t.procs[p].Critical? || t.procs[p].ExitCas?) ensures t.owner == p {
      if p != e.p {
        assert s.owner == p && HasToken(s, p);
      }
    }
  }

  lemma StepKeepsObservations(s: State, h: Option<int>, e: Event)
    requires Inv(s, h) && Next(s, e).Some?
    ensures var t := Next(s, e).value; forall p | p in t.procs :: ObservationOk(t, t.procs[p])
  {
    var t := Next(s, e).value;
    forall p | p in t.procs ensures ObservationOk(t, t.procs[p]) {
      assert ObservationOk(s, s.procs[p]);
    }
  }

  lemma StepKeepsInv(s: State, h: Option<int>, e: Event)
    requires Inv(s, h) && Next(s, e).Some?
    ensures Inv(Next(s, e).value, NextHolder(s, h, e))
  {
    StepKeepsToken(s, h, e);
    StepKeepsOwner(s, h, e);
    StepKeepsObservations(s, h, e);
  }

  lemma {:induction false} RunKeepsInv(s: State, h: Option<int>, es: seq<Event>, t: State) returns (h': Option<int>)
    requires Inv(s, h) && Run(s, es, t)
    ensures Inv(t, h')
    decreases |es|
  {
    if es == [] {
      h' := h;
    } else {
      StepKeepsInv(s, h, es[0]);
      h' := RunKeepsInv(Next(s, es[0]).value, NextHolder(s, h, es[0]), es[1..], t);
    }
  }

  ghost function Holders(s: State): set<int> {
    set p | p in s.procs && HasToken(s, p)
  }

  predicate BetweenWaitAndPost(pc: Pc) { pc.Acquired? || pc.Critical? || pc.Released? }

  /** Safety of every run, crashes included: one token in all, at most one live process
      between a successful wait and its post, and owner_pid names only a token holder. */
  lemma MutualExclusion(s0: State, es: seq<Event>, s: State)
    requires Init(s0) && Run(s0, es, s)
    ensures s.sem + |Holders(s)| == 1
    ensures forall p, q | p in s.procs && q in s.procs && p !in s.dead && q !in s.dead
              && BetweenWaitAndPost(s.procs[p]) && BetweenWaitAndPost(s.procs[q]) :: p == q
    ensures s.sem == 1 ==> s.owner == 0
    ensures s.owner != 0 ==> Holders(s) == {s.owner}
    ensures forall p | p in s.procs && p !in s.dead && s.procs[p].Critical? :: s.owner == p
  {
    var h := RunKeepsInv(s0, None, es, s);
    assert s.owner != 0 ==> HasToken(s, s.owner);
    match h
    case None => assert Holders(s) == {};
    case Some(q) => assert Holders(s) == {q};
  }

  // ----- Waiting, and giving up

  predicate InLoop(pc: Pc) {
    pc.Waiting? || pc.TimedOut? || pc.Observed? || pc.Stale? || pc.Recovering?
  }

  /** Timeouts of process p since it last called lock_shrreg. */
  function Timeouts(es: seq<Event>, p: int): nat {
    if es == [] then 0
    else
      var front, last := es[..|es| - 1], es[|es| - 1];
      if last == Event(p, Enter) then 0
      else Timeouts(front, p) + if last == Event(p, SemTimeout) then 1 else 0
  }

  ghost predicate Counting(s: State, es: seq<Event>, p: int) {
    p in s.procs && (InLoop(s.procs[p]) ==> s.procs[p].trials == Timeouts(es, p))
  }

  lemma StepKeepsCounting(s: State, es: seq<Event>, e: Event, p: int)
    requires Counting(s, es, p) && Next(s, e).Some?
    ensures Counting(Next(s, e).value, es + [e], p)
  {
    assert (es + [e])[..|es|] == es;
  }

  lemma {:induction false} RunKeepsCounting(s: State, done: seq<Event>, es: seq<Event>, t: State, p: int)
    requires Counting(s, done, p) && Run(s, es, t)
    ensures Counting(t, done + es, p)
    decreases |es|
  {
    if es == [] {
      assert done + es == done;
    } else {
      StepKeepsCounting(s, done, es[0], p);
      RunKeepsCounting(Next(s, es[0]).value, done + [es[0]], es[1..], t, p);
      assert done + [es[0]] + es[1..] == done + es;
    }
  }

  /** In every run a process in the waiting loop leaves it in two ways only: with the semaphore,
      or by giving up, which it does exactly when it reads no owner after more than thirty
      timeouts of this call. An owner it reads it probes, and one found alive it waits for. */
  lemma LeavesLoop(s0: State, es: seq<Event>, s: State, e: Event)
    requires Init(s0) && Run(s0, es, s) && Next(s, e).Some? && e.p in s.procs && InLoop(s.procs[e.p])
    ensures e.p in Next(s, e).value.procs
    ensures var was, now, n := s.procs[e.p], Next(s, e).value.procs[e.p], Timeouts(es, e.p);
            && (!InLoop(now) <==>
                  (e.action.SemOk? && now.Acquired?)
                  || (was.TimedOut? && e.action.Advance? && s.owner == 0 && n > 30 && now.ExitLoad?))
            && (was.TimedOut? && e.action.Advance? ==>
                  && (s.owner == 0 && n <= 30 ==> now == Waiting(n))
                  && (s.owner != 0 ==> now == Observed(n, s.owner)))
            && (was.Observed? && e.action.Advance? ==>
                  now == if was.seen in s.dead then Stale(n, was.seen) else Waiting(n))
            && (was.Stale? && e.action.Advance? ==>
                  now == if s.owner == was.seen then Recovering(n) else Waiting(n))
            && (was.Recovering? && e.action.Advance? ==> now == Waiting(n))
  {
    assert e.p in s0.procs by { RunKeepsProcs(s0, es, s); }
    RunKeepsCounting(s0, [], es, s, e.p);
    assert [] + es == es;
  }

  lemma {:induction false} RunKeepsProcs(s: State, es: seq<Event>, t: State)
    requires Run(s, es, t)
    ensures t.procs.Keys == s.procs.Keys
    decreases |es|
  {
    if es != [] { RunKeepsProcs(Next(s, es[0]).value, es[1..], t); }
  }

  // ----- When the lock can still be obtained

  /** A process died with the token while owner_pid did not name it. */
  ghost predicate Lost(s: State) {
    exists p :: p in s.procs && p in s.dead && !Named(s.procs[p]) && HasToken(s, p)
  }

  lemma {:induction false} LostForever(s: State, h: Option<int>, es: seq<Event>, t: State)
    requires Inv(s, h) && Lost(s) && Run(s, es, t)
    ensures Lost(t) && t.sem == 0
    ensures forall q | q in t.procs && t.procs[q].Critical? :: q in s.procs && s.procs[q].Critical?
    decreases |es|
  {
    if es != [] {
      StepKeepsInv(s, h, es[0]);
      var u := Next(s, es[0]).value;
      var p :| p in s.procs && p in s.dead && !Named(s.procs[p]) && HasToken(s, p);
      assert u.procs[p] == s.procs[p] && p in u.dead && HasToken(u, p);
      LostForever(u, NextHolder(s, h, es[0]), es[1..], t);
    }
  }

  /** States on the way from a live waiter q to the critical section. */
  ghost predicate OnCourse(s: State, h: Option<int>, q: int) {
    && Inv(s, h) && !Lost(s)
    && q in s.procs && q !in s.dead
    && match s.procs[q]
       case Waiting(_) | Recovering(_) | Acquired | Critical => true
       case TimedOut(_) => s.owner in s.dead && s.owner != 0
       case Observed(_, o) => s.owner == o && o in s.dead
       case Stale(_, o) => s.owner == o && o in s.dead
       case _ => false
  }

  ghost function Choose(s: State, h: Option<int>, q: int): Event
    requires OnCourse(s, h, q)
  {
    if !s.procs[q].Waiting? then Event(q, Advance)
    else if h.None? then Event(q, SemOk)
    else if h.value in s.dead then Event(q, SemTimeout)
    else Event(h.value, Advance)
  }

  ghost function Distance(s: State, h: Option<int>, q: int): nat
    requires q in s.procs && (h.Some? ==> h.value in s.procs)
  {
    var pc := s.procs[q];
    if pc.Critical? then 0
    else if pc.Acquired? then 1
    else if pc.Recovering? then 3
    else if pc.Stale? then 4
    else if pc.Observed? then 5
    else if pc.TimedOut? then 6
    else if h.None? then 2
    else if h.value in s.dead then 7
    else
      match s.procs[h.value]
      case Acquired | ExitLoad => 10
      case Critical | ExitCas => 9
      case _ => 8
  }

  lemma ChooseAdvances(s: State, h: Option<int>, q: int)
    requires OnCourse(s, h, q) && !s.procs[q].Critical?
    ensures Next(s, Choose(s, h, q)).Some?
    ensures var e := Choose(s, h, q); var t := Next(s, e).value; var h' := NextHolder(s, h, e);
            OnCourse(t, h', q) && Distance(t, h', q) < Distance(s, h, q)
  {
    assert s.owner != 0 ==> HasToken(s, s.owner);
    if h.Some? { assert HasToken(s, h.value); }
    var e := Choose(s, h, q);
    assert Next(s, e).Some?;
    StepKeepsInv(s, h, e);
    var t := Next(s, e).value;
    forall p | p in t.procs && p in t.dead && !Named(t.procs[p]) ensures !HasToken(t, p) {
      assert s.procs[p] == t.procs[p] && p in s.dead;
    }
  }

  lemma {:induction false} CourseEnds(s: State, h: Option<int>, q: int) returns (es: seq<Event>, t: State)
    requires OnCourse(s, h, q)
    ensures Run(s, es, t) && q !in t.dead && q in t.procs && t.procs[q].Critical?
    decreases Distance(s, h, q)
  {
    if s.procs[q].Critical? {
      es, t := [], s;
    } else {
      ChooseAdvances(s, h, q);
      var e := Choose(s, h, q);
      var rest;
      rest, t := CourseEnds(Next(s, e).value, NextHolder(s, h, e), q);
      es := [e] + rest;
      assert es[1..] == rest;
    }
  }

  ghost predicate CanObtain(s: State, q: int) {
    exists es, t :: Run(s, es, t) && q in t.procs && t.procs[q].Critical?
  }

  /** In every reachable state a live waiter can still obtain the lock exactly when no
      process has died in one of the windows where the token is out but owner_pid does
      not name its holder: after the wait and before the write of owner_pid, or after
      owner_pid was cleared and before the post. */
  lemma ObtainableUnlessLost(s0: State, es: seq<Event>, s: State, q: int)
    requires Init(s0) && Run(s0, es, s)
    requires q in s.procs && q !in s.dead && s.procs[q].Waiting?
    ensures CanObtain(s, q) <==> !Lost(s)
  {
    var h := RunKeepsInv(s0, None, es, s);
    if Lost(s) {
      forall fs, t | Run(s, fs, t) && q in t.procs && t.procs[q].Critical? ensures false {
        LostForever(s, h, fs, t);
      }
    } else {
      var fs, t := CourseEnds(s, h, q);
    }
  }

  // ----- The lock does get lost

  /** The places where a holder is not named: after the wait, and between each of the three
      clearings of owner_pid and the post that follows it. */
  datatype Window = AfterWait | InUnlock | InRecovery | InExit

  predicate DiedIn(w: Window, pc: Pc) {
    match w
    case AfterWait => pc.Acquired?
    case InUnlock => pc.Released?
    case InRecovery => pc.Recovering?
    case InExit => pc.ExitPost?
  }

  lemma {:induction false} RunMore(s0: State, es: seq<Event>, s: State, e: Event) returns (fs: seq<Event>, t: State)
    requires Run(s0, es, s) && Next(s, e).Some?
    ensures t == Next(s, e).value && Run(s0, fs, t)
    decreases |es|
  {
    if es == [] {
      fs, t := [e], Next(s, e).value;
      assert fs[1..] == [];
    } else {
      var gs;
      gs, t := RunMore(Next(s0, es[0]).value, es[1..], s, e);
      fs := [es[0]] + gs;
      assert fs[1..] == gs;
    }
  }

  /** A process that waits, gets the semaphore and writes owner_pid. */
  lemma RunToCritical(s0: State, p: int) returns (es: seq<Event>, s: State)
    requires Init(s0) && p in s0.procs
    ensures Run(s0, es, s) && s == State(0, p, s0.procs[p := Critical], {})
  {
    es, s := [], s0;
    es, s := RunMore(s0, es, s, Event(p, Enter));
    es, s := RunMore(s0, es, s, Event(p, SemOk));
    es, s := RunMore(s0, es, s, Event(p, Advance));
    assert s.procs == s0.procs[p := Critical];
  }

  /** A second process that times out while the dead owner is still named. */
  lemma RunToTimeout(s0: State, p: int, q: int) returns (es: seq<Event>, s: State)
    requires Init(s0) && p in s0.procs && q in s0.procs && p != q
    ensures Run(s0, es, s) && s == State(0, p, s0.procs[p := Critical][q := TimedOut(1)], {p})
  {
    es, s := RunToCritical(s0, p);
    es, s := RunMore(s0, es, s, Event(p, Kill));
    es, s := RunMore(s0, es, s, Event(q, Enter));
    es, s := RunMore(s0, es, s, Event(q, SemTimeout));
    assert s.procs == s0.procs[p := Critical][q := TimedOut(1)];
  }

  /** It then finds the owner dead and swaps it out. */
  lemma RunToRecovery(s0: State, p: int, q: int) returns (es: seq<Event>, s: State)
    requires Init(s0) && p in s0.procs && q in s0.procs && p != q
    ensures Run(s0, es, s) && s.procs.Keys == s0.procs.Keys && q !in s.dead && s.procs[q].Recovering?
  {
    es, s := RunToTimeout(s0, p, q);
    es, s := RunMore(s0, es, s, Event(q, Advance));
    es, s := RunMore(s0, es, s, Event(q, Advance));
    es, s := RunMore(s0, es, s, Event(q, Advance));
  }

  lemma RunToExit(s0: State, p: int) returns (es: seq<Event>, s: State)
    requires Init(s0) && p in s0.procs
    ensures Run(s0, es, s) && s.procs.Keys == s0.procs.Keys && p !in s.dead && s.procs[p].ExitPost?
  {
    es, s := RunToCritical(s0, p);
    es, s := RunMore(s0, es, s, Event(p, Exit));
    es, s := RunMore(s0, es, s, Event(p, Advance));
    es, s := RunMore(s0, es, s, Event(p, Advance));
  }

  /** Each window can be hit: from every initial state a death of q in it loses the lock; in
      the recovery window q is cleaning up after p. */
  lemma LossReachable(s0: State, w: Window, p: int, q: int) returns (es: seq<Event>, s: State)
    requires Init(s0) && q in s0.procs && (w.InRecovery? ==> p in s0.procs && p != q)
    ensures Run(s0, es, s) && Lost(s) && q in s.procs && DiedIn(w, s.procs[q]) && q in s.dead
  {
    match w {
      case AfterWait =>
        es, s := RunMore(s0, [], s0, Event(q, Enter));
        es, s := RunMore(s0, es, s, Event(q, SemOk));
      case InUnlock =>
        es, s := RunToCritical(s0, q);
        es, s := RunMore(s0, es, s, Event(q, Advance));
      case InRecovery =>
        es, s := RunToRecovery(s0, p, q);
      case InExit =>
        es, s := RunToExit(s0, q);
    }
    es, s := RunMore(s0, es, s, Event(q, Kill));
    assert HasToken(s, q);
  }
}
