/** The tracked allocator of one process: every tracked allocation is an entry of one of two
    lists, and its bytes are charged to the process's slot in the shared region.

    What the driver answers and what other processes do meanwhile are parameters. A call that
    waits for ever, at an odd slot or at the mutex, is one that hangs. */
module Allocator {
  import opened Common
  import opened Sums
  import opened ProcSlots
  import opened SharedRegion
  import opened AllocatedList
  import opened Interference

  const CUDA_SUCCESS := 0
  const CUDA_ERROR_OUT_OF_MEMORY := 2

  /** What a driver call that should yield an address or a reading answers. */
  datatype Driver = Allocated(address: int) | Failed(code: nat)

  /** The answers of cuDeviceGetMemPool and cuMemPoolGetAttribute. */
  datatype Pool = HighWater(bytes: nat) | NoReading(code: nat)

  /** A call that returns a code, or one that waits for ever. */
  datatype Outcome = Returns(code: int) | Hangs

  function Decide(jammed: bool, limit: nat, usage: int, size: nat): Answer {
    if jammed then Spins
    else if limit != 0 && usage + size > limit then OutOfMemory
    else Room
  }

  /** How the part of a call from pthread_mutex_lock on ends, given the check under the lock. */
  function LockedOutcome(locked: bool, check: Answer, entryOk: bool, refusal: int): Outcome {
    if locked || check == Spins then Hangs
    else if check == OutOfMemory then Returns(refusal)
    else if entryOk then Returns(CUDA_SUCCESS)
    else Returns(-1)
  }

  /** Whether the mutex is taken after that. */
  predicate LeftLocked(locked: bool, check: Answer, entryOk: bool) {
    locked || check == Spins || (check == Room && !entryOk)
  }

  function AsyncOutcome(check: Answer, entryOk: bool, driver: Driver, pool: Pool): Outcome {
    if check == Spins then Hangs
    else if check == OutOfMemory || !entryOk then Returns(-1)
    else if driver.Failed? then Returns(driver.code)
    else if pool.NoReading? then Returns(pool.code)
    else Returns(CUDA_SUCCESS)
  }

  /** Success is room, an entry and a free mutex; the mutex stays taken exactly after a hang and
      after an entry failure, which has a code of its own. */
  lemma LockedEndings(locked: bool, check: Answer, entryOk: bool, refusal: int)
    requires refusal != 0
    ensures var res := LockedOutcome(locked, check, entryOk, refusal);
            && (res == Returns(0) <==> !locked && check == Room && entryOk)
            && (res == Hangs <==> locked || check == Spins)
            && (!locked && check == OutOfMemory ==> res == Returns(refusal))
            && (!locked && check == Room && !entryOk ==> res == Returns(-1))
            && (LeftLocked(locked, check, entryOk) <==> res == Hangs || (check == Room && !entryOk))
  {}

  /** An asynchronous allocation succeeds exactly if all four agree; the first that does not
      gives the code. */
  lemma AsyncEndings(check: Answer, entryOk: bool, driver: Driver, pool: Pool)
    requires (driver.Failed? ==> driver.code != 0) && (pool.NoReading? ==> pool.code != 0)
    ensures var res := AsyncOutcome(check, entryOk, driver, pool);
            && (res == Returns(0) <==> check == Room && entryOk && driver.Allocated? && pool.HighWater?)
            && (res == Hangs <==> check == Spins)
            && (check == OutOfMemory || (check == Room && !entryOk) ==> res == Returns(-1))
            && (check == Room && entryOk && driver.Failed? ==> res == Returns(driver.code))
            && (check == Room && entryOk && driver.Allocated? && pool.NoReading? ==> res == Returns(pool.code))
  {}

  /** A check refuses exactly what a set limit leaves no room for. */
  lemma Decides(jammed: bool, limit: nat, usage: int, size: nat)
    ensures var answer := Decide(jammed, limit, usage, size);
            && (answer == Spins <==> jammed)
            && (!jammed ==> (answer == OutOfMemory <==> 0 < limit < usage + size))
  {}

  // ----- Bytes per device

  function Share(a: Allocation, cudaToNvml: seq<nat>, m: nat): nat {
    if a.dev < |cudaToNvml| && cudaToNvml[a.dev] == m then a.length else 0
  }

  /** The bytes of the allocations whose device maps to NVML device m. */
  function Bytes(c: seq<Allocation>, cudaToNvml: seq<nat>, m: nat): nat {
    if c == [] then 0 else Bytes(c[..|c| - 1], cudaToNvml, m) + Share(c[|c| - 1], cudaToNvml, m)
  }

  lemma {:induction false} BytesWithout(c: seq<Allocation>, i: nat, cudaToNvml: seq<nat>, m: nat)
    requires i < |c|
    ensures Bytes(Without(c, i), cudaToNvml, m) == Bytes(c, cudaToNvml, m) - Share(c[i], cudaToNvml, m)
    ensures TotalLength(Without(c, i)) == TotalLength(c) - c[i].length
  {
    var n := |c| - 1;
    if i == n {
      assert Without(c, i) == c[..n];
    } else {
      var w := Without(c, i);
      assert w[..|w| - 1] == Without(c[..n], i) && w[|w| - 1] == c[n];
      BytesWithout(c[..n], i, cudaToNvml, m);
    }
  }

  lemma BytesAppend(c: seq<Allocation>, a: Allocation, cudaToNvml: seq<nat>, m: nat)
    ensures Bytes(c + [a], cudaToNvml, m) == Bytes(c, cudaToNvml, m) + Share(a, cudaToNvml, m)
    ensures TotalLength(c + [a]) == TotalLength(c) + a.length
  {
    assert (c + [a])[..|c|] == c;
  }

  /** Adding at an address not in the list and removing there again restores the list. */
  lemma {:induction false} AddRemoveRestores(c: seq<Allocation>, a: Allocation)
    requires forall i | 0 <= i < |c| :: c[i].address != a.address
    ensures IndexOf(c + [a], a.address) == |c| && Without(c + [a], |c|) == c
  {
    if c != [] {
      AddRemoveRestores(c[1..], a);
      assert (c + [a])[1..] == c[1..] + [a];
    }
  }

  /** The books of one device of the slot: data_size is the tracked bytes, total the sum of its parts. */
  ghost predicate Settled(u: DeviceMemory, bytes: nat) {
    && u.dataSize == bytes
    && u.total == u.contextSize + u.moduleSize + u.dataSize
    && 0 <= u.contextSize && 0 <= u.moduleSize
  }

  /** What a charge of tracked bytes does to the table around it. */
  lemma ChargeInPlace(s: Table, i: nat, m: nat, amount: int, dead: set<int>)
    requires i < |s| && m < DEVICE_MAX_COUNT && NonNegative(s)
    ensures 0 <= s[i].used[m].total + amount ==> NonNegative(s[i := Charge(s[i], m, amount, 2)])
    ensures Live(s[i], dead) ==>
              Tally(s[i := Charge(s[i], m, amount, 2)], LiveUsage(m, dead)) == Tally(s, LiveUsage(m, dead)) + amount
  {
    var x, w := Charge(s[i], m, amount, 2), Weights(s, LiveUsage(m, dead));
    SumUpdate(w, i, Weight(x, LiveUsage(m, dead)));
    assert Weights(s[i := x], LiveUsage(m, dead)) == w[i := Weight(x, LiveUsage(m, dead))];
  }

  /** The slot is charged exactly the bytes of two lists, on every device. */
  ghost predicate Books(s: ProcSlot, c: seq<Allocation>, d: seq<Allocation>, cudaToNvml: seq<nat>) {
    forall m: nat | m < DEVICE_MAX_COUNT :: Settled(s.used[m], Bytes(c, cudaToNvml, m) + Bytes(d, cudaToNvml, m))
  }

  lemma BooksByUsed(s: ProcSlot, t: ProcSlot, c: seq<Allocation>, d: seq<Allocation>, cudaToNvml: seq<nat>)
    requires Books(s, c, d, cudaToNvml) && s.used == t.used
    ensures Books(t, c, d, cudaToNvml)
  {
    forall m: nat | m < DEVICE_MAX_COUNT
      ensures Settled(t.used[m], Bytes(c, cudaToNvml, m) + Bytes(d, cudaToNvml, m))
    {
      assert Settled(s.used[m], Bytes(c, cudaToNvml, m) + Bytes(d, cudaToNvml, m));
    }
  }

  lemma BooksCommute(s: ProcSlot, c: seq<Allocation>, d: seq<Allocation>, cudaToNvml: seq<nat>)
    ensures Books(s, c, d, cudaToNvml) <==> Books(s, d, c, cudaToNvml)
  {
    forall m: nat | m < DEVICE_MAX_COUNT
      ensures Settled(s.used[m], Bytes(d, cudaToNvml, m) + Bytes(c, cudaToNvml, m))
              <==> Settled(s.used[m], Bytes(c, cudaToNvml, m) + Bytes(d, cudaToNvml, m))
    {}
  }

  lemma BooksAfterAdd(s: ProcSlot, c: seq<Allocation>, d: seq<Allocation>, a: Allocation, cudaToNvml: seq<nat>)
    requires Books(s, c, d, cudaToNvml) && a.dev < |cudaToNvml| && cudaToNvml[a.dev] < DEVICE_MAX_COUNT
    ensures Books(Charge(s, cudaToNvml[a.dev], a.length, 2), c + [a], d, cudaToNvml)
  {
    var t := Charge(s, cudaToNvml[a.dev], a.length, 2);
    forall m: nat | m < DEVICE_MAX_COUNT
      ensures Settled(t.used[m], Bytes(c + [a], cudaToNvml, m) + Bytes(d, cudaToNvml, m))
    {
      assert Settled(s.used[m], Bytes(c, cudaToNvml, m) + Bytes(d, cudaToNvml, m));
      BytesAppend(c, a, cudaToNvml, m);
    }
  }

  /** The same with the lists the other way round, charged or free of charge. */
  lemma BooksAfterAsync(s: ProcSlot, t: ProcSlot, c: seq<Allocation>, d: seq<Allocation>, a: Allocation, cudaToNvml: seq<nat>)
    requires Books(s, d, c, cudaToNvml) && a.dev < |cudaToNvml| && cudaToNvml[a.dev] < DEVICE_MAX_COUNT
    requires t == Charge(s, cudaToNvml[a.dev], a.length, 2) || (t == s && a.length == 0)
    ensures Books(t, d, c + [a], cudaToNvml)
  {
    var u := Charge(s, cudaToNvml[a.dev], a.length, 2);
    BooksCommute(s, c, d, cudaToNvml);
    BooksAfterAdd(s, c, d, a, cudaToNvml);
    BooksCommute(u, c + [a], d, cudaToNvml);
    assert t.used == u.used;
    BooksByUsed(u, t, d, c + [a], cudaToNvml);
  }

  /** Discharging a removed allocation where it was charged settles the books. */
  lemma BooksAfterRemove(s: ProcSlot, c: seq<Allocation>, d: seq<Allocation>, i: nat, m: nat, cudaToNvml: seq<nat>)
    requires Books(s, c, d, cudaToNvml) && i < |c| && c[i].dev < |cudaToNvml| && m < DEVICE_MAX_COUNT
    requires m == cudaToNvml[c[i].dev] || c[i].length == 0
    ensures Books(Charge(s, m, 0 - c[i].length, 2), Without(c, i), d, cudaToNvml)
  {
    var t, w := Charge(s, m, 0 - c[i].length, 2), Without(c, i);
    forall v: nat | v < DEVICE_MAX_COUNT
      ensures Settled(t.used[v], Bytes(w, cudaToNvml, v) + Bytes(d, cudaToNvml, v))
    {
      assert Settled(s.used[v], Bytes(c, cudaToNvml, v) + Bytes(d, cudaToNvml, v));
      BytesWithout(c, i, cudaToNvml, v);
    }
  }

  /** Discharging it on another device leaves the books wrong, unless it had no bytes. */
  lemma BooksBroken(s: ProcSlot, c: seq<Allocation>, d: seq<Allocation>, i: nat, m: nat, cudaToNvml: seq<nat>)
    requires Books(s, c, d, cudaToNvml) && i < |c| && c[i].dev < |cudaToNvml| && m < DEVICE_MAX_COUNT
    requires m != cudaToNvml[c[i].dev] && c[i].length != 0
    ensures !Books(Charge(s, m, 0 - c[i].length, 2), Without(c, i), d, cudaToNvml)
  {
    var t, w := Charge(s, m, 0 - c[i].length, 2), Without(c, i);
    assert Settled(s.used[m], Bytes(c, cudaToNvml, m) + Bytes(d, cudaToNvml, m));
    BytesWithout(c, i, cudaToNvml, m);
    assert !Settled(t.used[m], Bytes(w, cudaToNvml, m) + Bytes(d, cudaToNvml, m));
  }

  lemma ChargeBack(s: ProcSlot, t: ProcSlot, m: nat, amount: int)
    requires m < DEVICE_MAX_COUNT && t == Charge(s, m, amount, 2)
    ensures Charge(t, m, 0 - amount, 2).used == s.used
  {
    assert Charge(t, m, 0 - amount, 2).used == s.used[m := s.used[m]];
  }

  /** The charged total covers every tracked allocation. */
  lemma BooksCover(s: ProcSlot, c: seq<Allocation>, d: seq<Allocation>, i: nat, cudaToNvml: seq<nat>)
    requires Books(s, c, d, cudaToNvml) && i < |c| && c[i].dev < |cudaToNvml| && cudaToNvml[c[i].dev] < DEVICE_MAX_COUNT
    ensures c[i].length <= s.used[cudaToNvml[c[i].dev]].total
  {
    var m := cudaToNvml[c[i].dev];
    assert Settled(s.used[m], Bytes(c, cudaToNvml, m) + Bytes(d, cudaToNvml, m));
    BytesWithout(c, i, cudaToNvml, m);
  }

  ghost predicate KnownDevices(c: seq<Allocation>) {
    forall i | 0 <= i < |c| :: c[i].dev < DEVICE_MAX_COUNT
  }

  lemma DevicesWithout(c: seq<Allocation>, i: nat)
    requires KnownDevices(c) && i < |c|
    ensures KnownDevices(Without(c, i))
  {}

  /** What an asynchronous allocation comes to, given the pool's high water: the limit rises to
      it, but by no more than the size; as much is charged, and is the length of the entry. At or
      under the limit nothing is charged, and without a high water nothing but the entry is made. */
  ghost predicate GrowthCharged(bytes: nat, size: nat, limit: int, newLimit: int, length: nat,
                                was: ProcSlot, now: ProcSlot, m: nat)
    requires m < DEVICE_MAX_COUNT
  {
    if bytes > 0 && bytes > limit then
      && newLimit == (if bytes <= limit + size then bytes else limit + size)
      && length == newLimit - limit
      && now.used[m].total == was.used[m].total + (newLimit - limit)
      && now.used[m].dataSize == was.used[m].dataSize + (newLimit - limit)
      && forall d | 0 <= d < DEVICE_MAX_COUNT && d != m :: now.used[d] == was.used[d]
    else
      newLimit == limit && now.used == was.used && length == (if bytes == 0 then size else 0)
  }

  class Allocator {
    const info: RegionInfo
    const overallocated: EntryList
    const allocAsync: EntryList
    var locked: bool           // the mutex of this process is taken
    ghost var highWater: nat   // the greatest pool reading so far

    constructor (info: RegionInfo)
      requires info.Registered() && NonNegative(info.LiveRange()) && NoUsage(info.region.procs[info.mySlot])
      ensures Valid() && !locked && this.info == info && Sync() == [] && Async() == []
    {
      this.info := info;
      overallocated := new EntryList();
      allocAsync := new EntryList();
      locked, highWater := false, 0;
    }

    ghost function Sync(): seq<Allocation>
      reads overallocated
    {
      overallocated.contents
    }

    ghost function Async(): seq<Allocation>
      reads allocAsync
    {
      allocAsync.contents
    }

    ghost function Record(): ProcSlot
      requires info.Registered()
      reads info, info.region, info.region.procs
    {
      info.region.procs[info.mySlot]
    }

    ghost predicate Apart(r: set<object>) {
      this !in r && info !in r && info.region !in r && info.region.procs !in r
    }

    /** Both lists are well-formed and share nothing with each other or the region. */
    ghost predicate Lists()
      reads overallocated, overallocated.repr, allocAsync, allocAsync.repr
    {
      && overallocated.Valid() && allocAsync.Valid()
      && overallocated.repr !! allocAsync.repr && Apart(overallocated.repr) && Apart(allocAsync.repr)
      && KnownDevices(Sync()) && KnownDevices(Async())
    }

    ghost predicate Mine()
      reads info, info.region, info.region.procs
    {
      info.Registered() && NonNegative(info.LiveRange())
    }

    ghost predicate Ready()
      reads info, info.region, info.region.procs, overallocated, overallocated.repr, allocAsync, allocAsync.repr
    {
      Lists() && Mine()
    }

    ghost predicate Pooled()
      reads this`highWater, allocAsync
    {
      allocAsync.limit == TotalLength(Async()) <= highWater
    }

    /** The slot of this process is charged exactly what the lists hold, on every device. */
    ghost predicate Valid()
      reads this`highWater, info, info.region, info.region.procs, overallocated, overallocated.repr, allocAsync, allocAsync.repr
    {
      Ready() && Pooled() && Books(Record(), Sync(), Async(), info.cudaToNvml)
    }

    /** The usage on a device of all processes not found dead. */
    ghost function InUse(dev: nat, dead: set<int>): int
      requires info.Valid()
      reads info, info.region, info.region.procs
    {
      Tally(info.LiveRange(), LiveUsage(dev, dead)) + info.initialOffset
    }

    /** Whether a request fits beside that usage, unless an odd slot keeps the check waiting. */
    ghost function Verdict(dev: nat, size: nat, dead: set<int>): Answer
      requires info.Valid() && dev < DEVICE_MAX_COUNT
      reads info, info.region, info.region.procs
    {
      Decide(Jammed(info.LiveRange()), info.region.limit[dev], InUse(dev, dead), size)
    }

    /** The same with the records of other processes replaced by the given ones. */
    ghost function VerdictBeside(others: Table, dev: nat, size: nat, dead: set<int>): Answer
      requires info.Registered() && dev < DEVICE_MAX_COUNT
      reads info, info.region, info.region.procs
    {
      Decide(Jammed(others) || Record().seqlock % 2 == 1, info.region.limit[dev],
             UsageBeside(others, Record(), dev, dead) + info.initialOffset, size)
    }

    lemma BesideFacts(others: Table, dev: nat, size: nat, dead: set<int>)
      requires info.Registered() && dev < DEVICE_MAX_COUNT
      requires info.LiveRange() == Around(others, Record(), info.mySlot)
      ensures InUse(dev, dead) == UsageBeside(others, Record(), dev, dead) + info.initialOffset
      ensures Verdict(dev, size, dead) == VerdictBeside(others, dev, size, dead)
    {
      AroundUsage(others, Record(), info.mySlot, dev, dead);
      AroundJammed(others, Record(), info.mySlot);
    }

    method Disturb(others: Table)
      requires Valid() && Foreign(others, info.pid)
      modifies info.region`procNum, info.region.procs
      ensures Valid() && Record() == old(Record()) && Sync() == old(Sync()) && Async() == old(Async())
      ensures info.LiveRange() == Around(others, Record(), info.mySlot)
    {
      OthersRun(info, others);
    }

    /** Other processes run, and leave the given records beside this process's own. */
    method Meanwhile(others: Table, ghost dev: nat, ghost size: nat, ghost dead: set<int>)
      requires Valid() && Foreign(others, info.pid) && dev < DEVICE_MAX_COUNT
      modifies info.region`procNum, info.region.procs
      ensures Valid() && Record() == old(Record()) && Sync() == old(Sync()) && Async() == old(Async())
      ensures overallocated.repr == old(overallocated.repr)
      ensures InUse(dev, dead) == UsageBeside(others, Record(), dev, dead) + info.initialOffset
      ensures Verdict(dev, size, dead) == old(VerdictBeside(others, dev, size, dead))
    {
      Disturb(others);
      BesideFacts(others, dev, size, dead);
    }

    /** pthread_mutex_lock, which waits for ever where the mutex has been left taken. */
    method Lock() returns (got: bool)
      requires Valid()
      modifies this`locked
      ensures Valid() && locked && got == !old(locked)
      ensures Record() == old(Record()) && Sync() == old(Sync()) && Async() == old(Async())
      ensures overallocated.repr == old(overallocated.repr)
    {
      got := !locked;
      locked := true;
    }

    /** pthread_mutex_unlock; the books may be wrong by then, and are not touched. */
    method Unlock()
      requires Lists() && info.Registered()
      modifies this`locked
      ensures Lists() && info.Registered() && (Valid() <==> old(Valid())) && !locked
      ensures Record() == old(Record()) && Sync() == old(Sync()) && Async() == old(Async())
      ensures overallocated.repr == old(overallocated.repr)
    {
      locked := false;
    }

    /** The limit check, which may also clean the slot table. */
    method Check(dev: nat, size: nat, dead: set<int>) returns (answer: Answer)
      requires Valid() && dev < DEVICE_MAX_COUNT && 0 !in dead && info.pid !in dead
      modifies info`mySlot, info.region`procNum, info.region.procs
      ensures Valid() && Record() == old(Record()) && Sync() == old(Sync()) && Async() == old(Async())
      ensures overallocated.repr == old(overallocated.repr)
      ensures answer == old(Verdict(dev, size, dead))
    {
      answer := info.OomCheck(dev, dev, size, dead);
    }

    /** A new entry at the end of one of the lists. */
    method AppendSync(address: int, size: nat, dev: nat)
      requires Ready() && dev < DEVICE_MAX_COUNT
      modifies overallocated.repr
      ensures Ready() && Record() == old(Record()) && Async() == old(Async())
      ensures Sync() == old(Sync()) + [Allocation(address, size, dev)]
      ensures fresh(overallocated.repr - old(overallocated.repr)) && overallocated.limit == old(overallocated.limit)
    {
      overallocated.AddNew(address, size, dev);
    }

    method AppendAsync(address: int, size: nat, dev: nat)
      requires Ready() && dev < DEVICE_MAX_COUNT
      modifies allocAsync.repr
      ensures Ready() && Record() == old(Record()) && Sync() == old(Sync())
      ensures Async() == old(Async()) + [Allocation(address, size, dev)]
      ensures fresh(allocAsync.repr - old(allocAsync.repr)) && allocAsync.limit == old(allocAsync.limit)
      ensures overallocated.repr == old(overallocated.repr)
    {
      allocAsync.AddNew(address, size, dev);
    }

    /** The first entry at an address taken out of one of the lists. */
    method TakeSync(address: int) returns (found: bool, size: nat, dev: nat)
      requires Ready()
      modifies overallocated.repr
      ensures Ready() && Record() == old(Record()) && Async() == old(Async())
      ensures overallocated.repr == old(overallocated.repr) && overallocated.limit == old(overallocated.limit)
      ensures found <==> IndexOf(old(Sync()), address) < |old(Sync())|
      ensures !found ==> Sync() == old(Sync())
      ensures found ==>
                var c, i := old(Sync()), IndexOf(old(Sync()), address);
                Sync() == Without(c, i) && c[i] == Allocation(address, size, dev)
    {
      ghost var c, i := Sync(), IndexOf(Sync(), address);
      if i < |c| { DevicesWithout(c, i); }
      found, size, dev := overallocated.Take(address);
    }

    method TakeAsync(address: int) returns (found: bool, size: nat, dev: nat)
      requires Ready()
      modifies allocAsync.repr
      ensures Ready() && Record() == old(Record()) && Sync() == old(Sync())
      ensures allocAsync.repr == old(allocAsync.repr) && allocAsync.limit == old(allocAsync.limit)
      ensures found <==> IndexOf(old(Async()), address) < |old(Async())|
      ensures !found ==> Async() == old(Async())
      ensures found ==>
                var c, i := old(Async()), IndexOf(old(Async()), address);
                Async() == Without(c, i) && c[i] == Allocation(address, size, dev)
      ensures overallocated.repr == old(overallocated.repr)
    {
      ghost var c, i := Async(), IndexOf(Async(), address);
      if i < |c| { DevicesWithout(c, i); }
      found, size, dev := allocAsync.Take(address);
    }

    method MoveLimit(amount: int)
      requires Ready()
      modifies allocAsync`limit
      ensures Ready() && Record() == old(Record()) && Sync() == old(Sync()) && Async() == old(Async())
      ensures allocAsync.limit == old(allocAsync.limit) + amount
      ensures overallocated.repr == old(overallocated.repr) && allocAsync.repr == old(allocAsync.repr)
    {
      allocAsync.limit := allocAsync.limit + amount;
    }

    /** Charges or discharges tracked bytes on this process's own slot. */
    method ChargeOwn(dev: nat, size: nat, add: bool, ghost dead: set<int>)
      requires Ready() && dev < DEVICE_MAX_COUNT && info.pid !in dead
      modifies info.region.procs
      ensures Lists() && Sync() == old(Sync()) && Async() == old(Async()) && info.Registered()
      ensures add || size <= old(Record()).used[info.cudaToNvml[dev]].total ==> Mine()
      ensures Record() == Charge(old(Record()), info.cudaToNvml[dev], if add then size else 0 - size, 2)
      ensures add ==> InUse(info.cudaToNvml[dev], dead) == old(InUse(info.cudaToNvml[dev], dead)) + size
      ensures overallocated.repr == old(overallocated.repr) && allocAsync.repr == old(allocAsync.repr)
    {
      ghost var live, my, m := info.LiveRange(), info.mySlot, info.cudaToNvml[dev];
      ghost var amount := if add then size else 0 - size;
      ChargeInPlace(live, my, m, amount, dead);
      if add {
        var _ := info.AddGpuDeviceMemoryUsage(info.pid, dev, size, 2);
      } else {
        var _ := info.RmGpuDeviceMemoryUsage(info.pid, dev, size, 2);
      }
      assert info.LiveRange() == live[my := Charge(live[my], m, amount, 2)];
    }

    /** A new entry and the charge for it. */
    method Track(address: int, size: nat, dev: nat, ghost dead: set<int>)
      requires Valid() && dev < DEVICE_MAX_COUNT && info.pid !in dead
      modifies overallocated.repr
      modifies info.region.procs
      ensures Valid()
      ensures Sync() == old(Sync()) + [Allocation(address, size, dev)]
      ensures Async() == old(Async()) && fresh(overallocated.repr - old(overallocated.repr))
      ensures Record() == Charge(old(Record()), info.cudaToNvml[dev], size, 2)
      ensures InUse(info.cudaToNvml[dev], dead) == old(InUse(info.cudaToNvml[dev], dead)) + size
    {
      ghost var a := Allocation(address, size, dev);
      AppendSync(address, size, dev);
      ChargeOwn(dev, size, true, dead);
      BooksAfterAdd(old(Record()), old(Sync()), Async(), a, info.cudaToNvml);
    }

    /** Entry and charge, others running before and after. */
    method Commit(address: int, size: nat, dev: nat, ghost dead: set<int>, atCharge: Table, atReturn: Table)
      requires Valid() && dev < DEVICE_MAX_COUNT
      requires Foreign(atCharge, info.pid) && Foreign(atReturn, info.pid)
      modifies info.region`procNum, info.region.procs
      modifies overallocated.repr
      ensures Valid()
      ensures Sync() == old(Sync()) + [Allocation(address, size, dev)]
      ensures Record() == Charge(old(Record()), info.cudaToNvml[dev], size, 2)
      ensures InUse(dev, dead) == UsageBeside(atReturn, Record(), dev, dead) + info.initialOffset
      ensures Async() == old(Async()) && fresh(overallocated.repr - old(overallocated.repr))
    {
      Meanwhile(atCharge, dev, 0, dead);
      Track(address, size, dev, {});
      assert fresh(overallocated.repr - old(overallocated.repr));
      Meanwhile(atReturn, dev, 0, dead);
    }

    /** The check, and entry and charge if there is room. */
    method TrackIfRoom(address: int, size: nat, dev: nat, entryOk: bool, dead: set<int>, atCharge: Table, atReturn: Table)
      returns (answer: Answer)
      requires Valid() && dev < DEVICE_MAX_COUNT
      requires 0 !in dead && info.pid !in dead && Foreign(atCharge, info.pid) && Foreign(atReturn, info.pid)
      modifies info`mySlot, info.region`procNum, info.region.procs
      modifies overallocated.repr
      ensures Valid() && answer == old(Verdict(dev, size, dead))
      ensures if answer == Room && entryOk then
                && Sync() == old(Sync()) + [Allocation(address, size, dev)]
                && Record() == Charge(old(Record()), info.cudaToNvml[dev], size, 2)
                && InUse(dev, dead) == UsageBeside(atReturn, Record(), dev, dead) + info.initialOffset
              else
                Sync() == old(Sync()) && Record() == old(Record())
      ensures Async() == old(Async()) && fresh(overallocated.repr - old(overallocated.repr))
    {
      answer := Check(dev, size, dead);
      if answer == Room && entryOk {
        Commit(address, size, dev, dead, atCharge, atReturn);
      }
    }

    /** From the lock to the unlock. The entry failure returns without the unlock. */
    method TrackLocked(address: int, size: nat, dev: nat, entryOk: bool, dead: set<int>, refusal: int,
                       atCharge: Table, atReturn: Table) returns (res: Outcome)
      requires Valid() && dev < DEVICE_MAX_COUNT && refusal != CUDA_SUCCESS
      requires 0 !in dead && info.pid !in dead && Foreign(atCharge, info.pid) && Foreign(atReturn, info.pid)
      modifies this`locked, info`mySlot, info.region`procNum, info.region.procs
      modifies overallocated.repr
      ensures Valid()
      ensures res == LockedOutcome(old(locked), old(Verdict(dev, size, dead)), entryOk, refusal)
      ensures locked == LeftLocked(old(locked), old(Verdict(dev, size, dead)), entryOk)
      ensures if res == Returns(CUDA_SUCCESS) then
                && Sync() == old(Sync()) + [Allocation(address, size, dev)]
                && Record() == Charge(old(Record()), info.cudaToNvml[dev], size, 2)
                && InUse(dev, dead) == UsageBeside(atReturn, Record(), dev, dead) + info.initialOffset
              else
                Sync() == old(Sync()) && Record() == old(Record())
      ensures Async() == old(Async()) && fresh(overallocated.repr - old(overallocated.repr))
    {
      var got := Lock();
      if !got {
        return Hangs;
      }
      var answer := TrackIfRoom(address, size, dev, entryOk, dead, atCharge, atReturn);
      assert fresh(overallocated.repr - old(overallocated.repr));
      if answer == Spins {
        return Hangs;
      }
      if answer == Room && !entryOk {
        return Returns(-1);
      }
      Unlock();
      return Returns(if answer == OutOfMemory then refusal else CUDA_SUCCESS);
    }

    /** The wait for the lock, others running, and what follows. */
    method LockAndTrack(address: int, size: nat, dev: nat, entryOk: bool, dead: set<int>,
                        atLock: Table, atCharge: Table, atReturn: Table) returns (res: Outcome)
      requires Valid() && dev < DEVICE_MAX_COUNT && 0 !in dead && info.pid !in dead
      requires Foreign(atLock, info.pid) && Foreign(atCharge, info.pid) && Foreign(atReturn, info.pid)
      modifies this`locked, info`mySlot, info.region`procNum, info.region.procs
      modifies overallocated.repr
      ensures Valid()
      ensures res == LockedOutcome(old(locked), old(VerdictBeside(atLock, dev, size, dead)), entryOk, CUDA_ERROR_OUT_OF_MEMORY)
      ensures locked == LeftLocked(old(locked), old(VerdictBeside(atLock, dev, size, dead)), entryOk)
      ensures if res == Returns(CUDA_SUCCESS) then
                && Sync() == old(Sync()) + [Allocation(address, size, dev)]
                && Record() == Charge(old(Record()), info.cudaToNvml[dev], size, 2)
                && InUse(dev, dead) == UsageBeside(atReturn, Record(), dev, dead) + info.initialOffset
              else
                Sync() == old(Sync()) && Record() == old(Record())
      ensures Async() == old(Async()) && fresh(overallocated.repr - old(overallocated.repr))
    {
      Meanwhile(atLock, dev, size, dead);
      res := TrackLocked(address, size, dev, entryOk, dead, CUDA_ERROR_OUT_OF_MEMORY, atCharge, atReturn);
    }

    /** Before the lock: the first check, and the driver. */
    method Obtain(size: nat, dev: nat, driver: Driver, dead: set<int>) returns (early: Option<Outcome>)
      requires Valid() && dev < DEVICE_MAX_COUNT && 0 !in dead && info.pid !in dead
      modifies info`mySlot, info.region`procNum, info.region.procs
      ensures Valid() && Record() == old(Record()) && Sync() == old(Sync()) && Async() == old(Async())
      ensures overallocated.repr == old(overallocated.repr)
      ensures early == match old(Verdict(dev, size, dead))
                       case Spins => Some(Hangs)
                       case OutOfMemory => Some(Returns(CUDA_ERROR_OUT_OF_MEMORY))
                       case Room => if driver.Failed? then Some(Returns(driver.code)) else None
    {
      var answer := Check(dev, size, dead);
      if answer == Spins {
        return Some(Hangs);
      }
      if answer == OutOfMemory {
        return Some(Returns(CUDA_ERROR_OUT_OF_MEMORY));
      }
      if driver.Failed? {
        return Some(Returns(driver.code));
      }
      return None;
    }

    /** Checks, allocates, takes the lock, checks again, and commits or gives the memory back. */
    method AddChunk(size: nat, dev: nat, driver: Driver, entryOk: bool, dead: set<int>,
                    atLock: Table, atCharge: Table, atReturn: Table) returns (res: Outcome, address: int)
      requires Valid() && dev < DEVICE_MAX_COUNT
      requires 0 !in dead && info.pid !in dead && (driver.Failed? ==> driver.code != CUDA_SUCCESS)
      requires Foreign(atLock, info.pid) && Foreign(atCharge, info.pid) && Foreign(atReturn, info.pid)
      modifies this`locked, info`mySlot, info.region`procNum, info.region.procs
      modifies overallocated.repr
      ensures Valid()
      ensures res == match old(Verdict(dev, size, dead))
                     case Spins => Hangs
                     case OutOfMemory => Returns(CUDA_ERROR_OUT_OF_MEMORY)
                     case Room =>
                       if driver.Failed? then Returns(driver.code)
                       else LockedOutcome(old(locked), old(VerdictBeside(atLock, dev, size, dead)), entryOk, CUDA_ERROR_OUT_OF_MEMORY)
      ensures locked == if old(Verdict(dev, size, dead)) == Room && driver.Allocated?
                        then LeftLocked(old(locked), old(VerdictBeside(atLock, dev, size, dead)), entryOk)
                        else old(locked)
      ensures res == Returns(CUDA_SUCCESS) ==>
                && driver == Allocated(address)
                && Sync() == old(Sync()) + [Allocation(address, size, dev)]
                && Record() == Charge(old(Record()), info.cudaToNvml[dev], size, 2)
                && InUse(dev, dead) == UsageBeside(atReturn, Record(), dev, dead) + info.initialOffset
                && (info.cudaToNvml[dev] == dev && info.region.limit[dev] != 0 ==>
                      InUse(dev, dead) <= info.region.limit[dev]
                                          + Tally(atReturn, LiveUsage(dev, dead)) - Tally(atLock, LiveUsage(dev, dead)))
      ensures res != Returns(CUDA_SUCCESS) ==> Sync() == old(Sync()) && Record() == old(Record())
      ensures Async() == old(Async()) && fresh(overallocated.repr - old(overallocated.repr))
    {
      ghost var before := Record();
      address := 0;
      var early := Obtain(size, dev, driver, dead);
      if early.Some? {
        return early.value, address;
      }
      address := driver.address;
      assert VerdictBeside(atLock, dev, size, dead) == old(VerdictBeside(atLock, dev, size, dead));
      res := LockAndTrack(address, size, dev, entryOk, dead, atLock, atCharge, atReturn);
      assert fresh(overallocated.repr - old(overallocated.repr));
      if res == Returns(CUDA_SUCCESS) {
        if info.cudaToNvml[dev] == dev { WithinLimit(before, Record(), atLock, atReturn, dev, size, dead); }
      }
    }

    /** The usage at the return is the limit at most, but for what others did since the check. */
    lemma WithinLimit(before: ProcSlot, after: ProcSlot, atLock: Table, atReturn: Table, dev: nat, size: nat, dead: set<int>)
      requires dev < DEVICE_MAX_COUNT && Live(before, dead) && after == Charge(before, dev, size, 2)
      ensures UsageBeside(atReturn, after, dev, dead) ==
              UsageBeside(atLock, before, dev, dead) + size
              + Tally(atReturn, LiveUsage(dev, dead)) - Tally(atLock, LiveUsage(dev, dead))
    {}

    /** Tracks memory that is allocated already; refuses what does not fit. */
    method AddChunkOnly(address: int, size: nat, dev: nat, entryOk: bool, dead: set<int>, atCharge: Table, atReturn: Table)
      returns (res: Outcome)
      requires Valid() && dev < DEVICE_MAX_COUNT
      requires 0 !in dead && info.pid !in dead && Foreign(atCharge, info.pid) && Foreign(atReturn, info.pid)
      modifies this`locked, info`mySlot, info.region`procNum, info.region.procs
      modifies overallocated.repr
      ensures Valid()
      ensures res == LockedOutcome(old(locked), old(Verdict(dev, size, dead)), entryOk, -1)
      ensures locked == LeftLocked(old(locked), old(Verdict(dev, size, dead)), entryOk)
      ensures if res == Returns(CUDA_SUCCESS) then
                && Sync() == old(Sync()) + [Allocation(address, size, dev)]
                && Record() == Charge(old(Record()), info.cudaToNvml[dev], size, 2)
                && InUse(dev, dead) == UsageBeside(atReturn, Record(), dev, dead) + info.initialOffset
              else
                Sync() == old(Sync()) && Record() == old(Record())
      ensures Async() == old(Async()) && fresh(overallocated.repr - old(overallocated.repr))
    {
      res := TrackLocked(address, size, dev, entryOk, dead, -1, atCharge, atReturn);
    }

    /** The list and counter updates of a free. */
    method ReturnSync(dptr: int) returns (found: bool)
      requires Ready()
      modifies info.region.procs, overallocated.repr
      ensures Lists() && info.Registered() && Async() == old(Async())
      ensures found <==> IndexOf(old(Sync()), dptr) < |old(Sync())|
      ensures !found ==> Sync() == old(Sync()) && Record() == old(Record()) && Mine()
      ensures found ==>
                var c, i := old(Sync()), IndexOf(old(Sync()), dptr);
                var m := info.cudaToNvml[c[i].dev];
                && Sync() == Without(c, i)
                && Record() == Charge(old(Record()), m, 0 - c[i].length, 2)
                && (c[i].length <= old(Record()).used[m].total ==> Mine())
      ensures overallocated.repr == old(overallocated.repr)
    {
      var size, dev;
      found, size, dev := TakeSync(dptr);
      if found {
        ChargeOwn(dev, size, false, {});
      }
    }

    /** Untracks the first allocation at an address and discharges it; takes no lock, so that
        remove_chunk_only is this. */
    method RemoveChunkOnly(dptr: int) returns (res: int)
      requires Valid()
      modifies info.region.procs
      modifies overallocated.repr
      ensures Valid() && overallocated.repr == old(overallocated.repr) && Async() == old(Async())
      ensures var i, c := IndexOf(old(Sync()), dptr), old(Sync());
              if i < |c| then
                && res == 0 && Sync() == Without(c, i)
                && Record() == Charge(old(Record()), info.cudaToNvml[c[i].dev], 0 - c[i].length, 2)
              else
                res == -1 && Sync() == c && Record() == old(Record())
    {
      ghost var c, i, before := Sync(), IndexOf(Sync(), dptr), Record();
      var found := ReturnSync(dptr);
      if !found {
        return -1;
      }
      BooksCover(before, c, Async(), i, info.cudaToNvml);
      BooksAfterRemove(before, c, Async(), i, info.cudaToNvml[c[i].dev], info.cudaToNvml);
      return 0;
    }

    /** The same under the lock, which an empty list spares. */
    method RemoveChunk(dptr: int) returns (res: Outcome)
      requires Valid()
      modifies this`locked, info.region.procs
      modifies overallocated.repr
      ensures Valid() && overallocated.repr == old(overallocated.repr) && Async() == old(Async())
      ensures locked == old(locked)
      ensures var i, c := IndexOf(old(Sync()), dptr), old(Sync());
              if c != [] && old(locked) then
                res == Hangs && Sync() == c && Record() == old(Record())
              else if i < |c| then
                && res == Returns(0) && Sync() == Without(c, i)
                && Record() == Charge(old(Record()), info.cudaToNvml[c[i].dev], 0 - c[i].length, 2)
              else
                res == Returns(-1) && Sync() == c && Record() == old(Record())
    {
      if overallocated.length == 0 {
        res := Returns(-1);
      } else {
        var got := Lock();
        if got {
          var code := RemoveChunkOnly(dptr);
          Unlock();
          res := Returns(code);
        } else {
          res := Hangs;
        }
      }
    }

    /** What an asynchronous allocation is charged: what raises the pool's high water, at most its size. */
    static function PoolCharge(limit: int, bytes: nat, size: nat): nat {
      if bytes == 0 then size
      else if bytes > limit then (if bytes - limit < size then bytes - limit else size)
      else 0
    }

    /** Part of the pool's growth, if it grew, is charged, and the limit raised by as much. */
    method ChargeGrowth(size: nat, dev: nat, bytes: nat) returns (length: nat)
      requires Ready() && dev < DEVICE_MAX_COUNT
      modifies info.region.procs, allocAsync`limit
      ensures Ready() && Sync() == old(Sync()) && Async() == old(Async())
      ensures length == PoolCharge(old(allocAsync.limit), bytes, size)
      ensures if bytes != 0 && bytes > old(allocAsync.limit) then
                && Record() == Charge(old(Record()), info.cudaToNvml[dev], length, 2)
                && allocAsync.limit == old(allocAsync.limit) + length
              else
                Record() == old(Record()) && allocAsync.limit == old(allocAsync.limit)
      ensures overallocated.repr == old(overallocated.repr) && allocAsync.repr == old(allocAsync.repr)
      ensures GrowthCharged(bytes, size, old(allocAsync.limit), allocAsync.limit, length, old(Record()), Record(), info.cudaToNvml[dev])
    {
      if bytes == 0 {
        length := size;
      } else if bytes <= allocAsync.limit {
        length := 0;
      } else {
        var room := bytes - allocAsync.limit;
        length := if room < size then room else size;
        ChargeOwn(dev, length, true, {});
        MoveLimit(length);
      }
    }

    /** The new entry: the books are right with it where its bytes were charged. */
    method EnterAsync(address: int, length: nat, dev: nat, ghost bytes: nat, ghost before: ProcSlot, ghost limit: int)
      requires Ready() && dev < DEVICE_MAX_COUNT && limit == TotalLength(Async()) <= highWater
      requires Books(before, Sync(), Async(), info.cudaToNvml)
      requires if allocAsync.limit == limit then Record() == before || (length == 0 && Record() == Charge(before, info.cudaToNvml[dev], 0, 2))
               else Record() == Charge(before, info.cudaToNvml[dev], length, 2) && allocAsync.limit == limit + length <= bytes
      modifies this`highWater, allocAsync.repr
      ensures Lists() && info.Registered() && Sync() == old(Sync()) && allocAsync.limit == old(allocAsync.limit)
      ensures Async() == old(Async()) + [Allocation(address, length, dev)]
      ensures highWater == (if bytes > old(highWater) then bytes else old(highWater))
      ensures Valid() <==> allocAsync.limit == limit + length
      ensures fresh(allocAsync.repr - old(allocAsync.repr)) && overallocated.repr == old(overallocated.repr)
      ensures Record() == old(Record())
    {
      ghost var c, a := Async(), Allocation(address, length, dev);
      BytesAppend(c, a, info.cudaToNvml, 0);
      if allocAsync.limit == limit + length {
        BooksAfterAsync(before, Record(), c, Sync(), a, info.cudaToNvml);
      }
      highWater := if bytes > highWater then bytes else highWater;
      AppendAsync(address, length, dev);
      assert Pooled() <==> allocAsync.limit == limit + length;
      assert Pooled() ==> Books(Record(), Sync(), Async(), info.cudaToNvml);
      assert Valid() <==> Pooled();
    }

    /** The entry and the charge for the pool reading at hand. */
    method BookPool(address: int, size: nat, dev: nat, bytes: nat)
      requires Valid() && dev < DEVICE_MAX_COUNT
      modifies this`highWater, info.region.procs, allocAsync.repr
      ensures Lists() && info.Registered() && Sync() == old(Sync())
      ensures Async() == old(Async()) + [Allocation(address, PoolCharge(old(allocAsync.limit), bytes, size), dev)]
      ensures highWater == (if bytes > old(highWater) then bytes else old(highWater))
      ensures bytes != 0 ==> (allocAsync.limit <= bytes <==> old(allocAsync.limit) <= bytes)
      ensures Valid() <==> bytes != 0 || size == 0
      ensures fresh(allocAsync.repr - old(allocAsync.repr)) && overallocated.repr == old(overallocated.repr)
      ensures GrowthCharged(bytes, size, old(allocAsync.limit), allocAsync.limit, Async()[|old(Async())|].length, old(Record()), Record(), info.cudaToNvml[dev])
    {
      ghost var before, limit := Record(), allocAsync.limit;
      var length := ChargeGrowth(size, dev, bytes);
      EnterAsync(address, length, dev, bytes, before, limit);
    }

    /** The limit check, and other processes running after it. */
    method CheckAmongOthers(dev: nat, size: nat, dead: set<int>, others: Table) returns (answer: Answer)
      requires Valid() && dev < DEVICE_MAX_COUNT && 0 !in dead && info.pid !in dead && Foreign(others, info.pid)
      modifies info`mySlot, info.region`procNum, info.region.procs
      ensures Valid() && Record() == old(Record()) && Sync() == old(Sync()) && Async() == old(Async())
      ensures answer == old(Verdict(dev, size, dead))
      ensures allocAsync.limit == old(allocAsync.limit) && allocAsync.repr == old(allocAsync.repr)
      ensures overallocated.repr == old(overallocated.repr)
    {
      answer := Check(dev, size, dead);
      Meanwhile(others, dev, 0, dead);
    }

    /** Charges an asynchronous allocation by the growth of the pool. The books stay right
        exactly when the pool reports a high water at all, or nothing was asked for. */
    method AddChunkAsync(size: nat, dev: nat, driver: Driver, pool: Pool, entryOk: bool, dead: set<int>, atCharge: Table)
      returns (res: Outcome, address: int)
      requires Valid() && dev < DEVICE_MAX_COUNT && 0 !in dead && info.pid !in dead && Foreign(atCharge, info.pid)
      requires (driver.Failed? ==> driver.code != CUDA_SUCCESS) && (pool.NoReading? ==> pool.code != CUDA_SUCCESS)
      modifies this`highWater, info`mySlot, info.region`procNum, info.region.procs
      modifies allocAsync.repr
      ensures Lists() && info.Registered() && Sync() == old(Sync())
      ensures res == AsyncOutcome(old(Verdict(dev, size, dead)), entryOk, driver, pool)
      ensures res == Returns(CUDA_SUCCESS) ==>
                && driver == Allocated(address)
                && Async() == old(Async()) + [Allocation(address, PoolCharge(old(allocAsync.limit), pool.bytes, size), dev)]
                && highWater == (if pool.bytes > old(highWater) then pool.bytes else old(highWater))
                && (pool.bytes != 0 ==> (allocAsync.limit <= pool.bytes <==> old(allocAsync.limit) <= pool.bytes))
      ensures res != Returns(CUDA_SUCCESS) ==>
                Async() == old(Async()) && Record() == old(Record()) && highWater == old(highWater)
      ensures Valid() <==> res != Returns(CUDA_SUCCESS) || pool.bytes != 0 || size == 0
      ensures fresh(allocAsync.repr - old(allocAsync.repr)) && overallocated.repr == old(overallocated.repr)
      ensures res == Returns(CUDA_SUCCESS) ==>
                GrowthCharged(pool.bytes, size, old(allocAsync.limit), allocAsync.limit, Async()[|old(Async())|].length, old(Record()), Record(), info.cudaToNvml[dev])
    {
      address := 0;
      var answer := CheckAmongOthers(dev, size, dead, atCharge);
      if answer == Spins {
        res := Hangs;
      } else if answer == OutOfMemory || !entryOk {
        res := Returns(-1);
      } else if driver.Failed? {
        res := Returns(driver.code);
      } else {
        address := driver.address;
        if pool.NoReading? {
          res := Returns(pool.code);
        } else {
          BookPool(address, size, dev, pool.bytes);
          assert fresh(allocAsync.repr - old(allocAsync.repr));
          res := Returns(CUDA_SUCCESS);
        }
      }
    }

    /** The same under the lock: an entry failure is unlocked here, a check that hangs is not. */
    method AllocateAsyncRaw(size: nat, dev: nat, driver: Driver, pool: Pool, entryOk: bool, dead: set<int>, atCharge: Table)
      returns (res: Outcome, address: int)
      requires Valid() && dev < DEVICE_MAX_COUNT && 0 !in dead && info.pid !in dead && Foreign(atCharge, info.pid)
      requires (driver.Failed? ==> driver.code != CUDA_SUCCESS) && (pool.NoReading? ==> pool.code != CUDA_SUCCESS)
      modifies this`locked, this`highWater, info`mySlot, info.region`procNum, info.region.procs
      modifies allocAsync.repr
      ensures Lists() && info.Registered() && Sync() == old(Sync())
      ensures res == if old(locked) then Hangs else AsyncOutcome(old(Verdict(dev, size, dead)), entryOk, driver, pool)
      ensures locked <==> old(locked) || old(Verdict(dev, size, dead)) == Spins
      ensures if res == Returns(CUDA_SUCCESS) then
                && driver == Allocated(address)
                && Async() == old(Async()) + [Allocation(address, PoolCharge(old(allocAsync.limit), pool.bytes, size), dev)]
              else
                Async() == old(Async()) && Record() == old(Record())
      ensures Valid() <==> res != Returns(CUDA_SUCCESS) || pool.bytes != 0 || size == 0
      ensures fresh(allocAsync.repr - old(allocAsync.repr)) && overallocated.repr == old(overallocated.repr)
      ensures highWater == if res == Returns(CUDA_SUCCESS) && pool.bytes > old(highWater) then pool.bytes else old(highWater)
      ensures res == Returns(CUDA_SUCCESS) ==>
                GrowthCharged(pool.bytes, size, old(allocAsync.limit), allocAsync.limit, Async()[|old(Async())|].length, old(Record()), Record(), info.cudaToNvml[dev])
    {
      res, address := Hangs, 0;
      var got := Lock();
      if got {
        assert Verdict(dev, size, dead) == old(Verdict(dev, size, dead)) && allocAsync.limit == old(allocAsync.limit);
        res, address := AddChunkAsync(size, dev, driver, pool, entryOk, dead, atCharge);
        assert fresh(allocAsync.repr - old(allocAsync.repr)) && overallocated.repr == old(overallocated.repr);
        if res != Hangs {
          Unlock();
        }
      }
    }

    /** The list, limit and counter updates of an asynchronous free. */
    method ReturnAsync(dptr: int, dev: nat) returns (found: bool)
      requires Ready() && dev < DEVICE_MAX_COUNT
      modifies info.region.procs, allocAsync.repr
      ensures Lists() && info.Registered() && Sync() == old(Sync())
      ensures found <==> IndexOf(old(Async()), dptr) < |old(Async())|
      ensures !found ==>
                Async() == old(Async()) && Record() == old(Record()) && Mine() && allocAsync.limit == old(allocAsync.limit)
      ensures found ==>
                var c, i, m := old(Async()), IndexOf(old(Async()), dptr), info.cudaToNvml[dev];
                && Async() == Without(c, i) && allocAsync.limit == old(allocAsync.limit) - c[i].length
                && Record() == Charge(old(Record()), m, 0 - c[i].length, 2)
                && (c[i].length <= old(Record()).used[m].total ==> Mine())
      ensures allocAsync.repr == old(allocAsync.repr) && overallocated.repr == old(overallocated.repr)
    {
      var size, chargedDev;
      found, size, chargedDev := TakeAsync(dptr);
      if found {
        MoveLimit(0 - (size as int));
        ChargeOwn(dev, size, false, {});
      }
    }

    /** Untracks an asynchronous allocation and discharges it on the current device. The books
        stay right exactly when that is the device it was charged on, or it was free of charge. */
    method RemoveChunkAsync(dptr: int, dev: nat) returns (res: int)
      requires Valid() && dev < DEVICE_MAX_COUNT
      modifies info.region.procs
      modifies allocAsync.repr
      ensures Lists() && info.Registered()
      ensures var i, c := IndexOf(old(Async()), dptr), old(Async());
              if i < |c| then
                && res == 0 && Async() == Without(c, i)
                && Record() == Charge(old(Record()), info.cudaToNvml[dev], 0 - c[i].length, 2)
                && (Valid() <==> c[i].length == 0 || info.cudaToNvml[dev] == info.cudaToNvml[c[i].dev])
              else
                res == -1 && Async() == c && Record() == old(Record()) && Valid()
      ensures allocAsync.repr == old(allocAsync.repr) && overallocated.repr == old(overallocated.repr)
      ensures Sync() == old(Sync())
    {
      ghost var c, i, before, m := Async(), IndexOf(Async(), dptr), Record(), info.cudaToNvml[dev];
      var found := ReturnAsync(dptr, dev);
      if !found {
        return -1;
      }
      BytesWithout(c, i, info.cudaToNvml, 0);
      BooksCommute(before, Sync(), c, info.cudaToNvml);
      BooksCommute(Record(), Sync(), Async(), info.cudaToNvml);
      if c[i].length == 0 || m == info.cudaToNvml[c[i].dev] {
        BooksAfterRemove(before, c, Sync(), i, m, info.cudaToNvml);
        if m == info.cudaToNvml[c[i].dev] { BooksCover(before, c, Sync(), i, info.cudaToNvml); }
      } else {
        BooksBroken(before, c, Sync(), i, m, info.cudaToNvml);
      }
      return 0;
    }

    /** The same under the lock. */
    method FreeRawAsync(dptr: int, dev: nat) returns (res: Outcome)
      requires Valid() && dev < DEVICE_MAX_COUNT
      modifies this`locked, info.region.procs
      modifies allocAsync.repr
      ensures Lists() && info.Registered() && locked == old(locked)
      ensures var i, c := IndexOf(old(Async()), dptr), old(Async());
              if old(locked) then
                res == Hangs && Async() == c && Record() == old(Record()) && Valid()
              else if i < |c| then
                && res == Returns(0) && Async() == Without(c, i)
                && Record() == Charge(old(Record()), info.cudaToNvml[dev], 0 - c[i].length, 2)
                && (Valid() <==> c[i].length == 0 || info.cudaToNvml[dev] == info.cudaToNvml[c[i].dev])
              else
                res == Returns(-1) && Async() == c && Record() == old(Record()) && Valid()
      ensures allocAsync.repr == old(allocAsync.repr) && overallocated.repr == old(overallocated.repr)
      ensures Sync() == old(Sync())
    {
      res := Hangs;
      if !locked {
        locked := true;
        var code := RemoveChunkAsync(dptr, dev);
        Unlock();
        res := Returns(code);
      }
    }
  }

  /** Untracking the allocation tracked last undoes what tracking it did, if the mutex is free. */
  method RemoveLast(al: Allocator, address: int, ghost c: seq<Allocation>, ghost a: Allocation, ghost before: ProcSlot)
    returns (res: Outcome)
    requires al.Valid() && al.Sync() == c + [a] && a.address == address && a.dev < DEVICE_MAX_COUNT
    requires forall i | 0 <= i < |c| :: c[i].address != address
    requires al.Record() == Charge(before, al.info.cudaToNvml[a.dev], a.length, 2)
    modifies al`locked, al.info.region.procs
    modifies al.overallocated.repr
    ensures al.Valid() && al.locked == old(al.locked)
    ensures if al.locked then res == Hangs && al.Sync() == old(al.Sync()) && al.Record() == old(al.Record())
            else res == Returns(0) && al.Sync() == c && al.Record().used == before.used
  {
    ghost var charged, m := al.Record(), al.info.cudaToNvml[a.dev];
    AddRemoveRestores(c, a);
    ChargeBack(before, charged, m, a.length);
    res := al.RemoveChunk(address);
  }

  /** Tracking memory at a fresh address and untracking it again leaves the list and every
      counter of the slot as they were; it returns exactly when the mutex is free and no odd
      slot keeps the check waiting. */
  method AddThenRemove(al: Allocator, address: int, size: nat, dev: nat, dead: set<int>, atCharge: Table, atReturn: Table)
    returns (res: Outcome)
    requires al.Valid() && dev < DEVICE_MAX_COUNT && 0 !in dead && al.info.pid !in dead
    requires Foreign(atCharge, al.info.pid) && Foreign(atReturn, al.info.pid)
    requires forall i | 0 <= i < |al.Sync()| :: al.Sync()[i].address != address
    modifies al`locked, al.info`mySlot, al.info.region`procNum, al.info.region.procs
    modifies al.overallocated.repr
    ensures res == LockedOutcome(old(al.locked), old(al.Verdict(dev, size, dead)), true, -1)
    ensures al.locked <==> res == Hangs
    ensures al.Valid() && al.Sync() == old(al.Sync())
    ensures al.Record().used == old(al.Record()).used
  {
    ghost var c, before := al.Sync(), al.Record();
    res := al.AddChunkOnly(address, size, dev, true, dead, atCharge, atReturn);
    if res == Returns(0) {
      res := RemoveLast(al, address, c, Allocation(address, size, dev), before);
    }
  }

  // ----- Sequences of calls

  /** A call by some thread of the process, with what it meets. */
  datatype Call =
    | Add(size: nat, dev: nat, driver: Driver, entryOk: bool, dead: set<int>, atLock: Table, atCharge: Table, atReturn: Table)
    | AddOnly(address: int, size: nat, dev: nat, entryOk: bool, dead: set<int>, atCharge: Table, atReturn: Table)
    | Remove(dptr: int)
    | RemoveOnly(dptr: int)
    | AllocAsync(size: nat, dev: nat, driver: Driver, pool: Pool, entryOk: bool, dead: set<int>, atCharge: Table)
    | FreeAsync(dptr: int, dev: nat)

  ghost predicate Possible(call: Call, pid: int) {
    match call
    case Add(_, dev, driver, _, dead, atLock, atCharge, atReturn) =>
      && dev < DEVICE_MAX_COUNT && 0 !in dead && pid !in dead && (driver.Failed? ==> driver.code != CUDA_SUCCESS)
      && Foreign(atLock, pid) && Foreign(atCharge, pid) && Foreign(atReturn, pid)
    case AddOnly(_, _, dev, _, dead, atCharge, atReturn) =>
      dev < DEVICE_MAX_COUNT && 0 !in dead && pid !in dead && Foreign(atCharge, pid) && Foreign(atReturn, pid)
    case AllocAsync(_, dev, driver, pool, _, dead, atCharge) =>
      && dev < DEVICE_MAX_COUNT && 0 !in dead && pid !in dead && Foreign(atCharge, pid)
      && (driver.Failed? ==> driver.code != CUDA_SUCCESS) && (pool.NoReading? ==> pool.code != CUDA_SUCCESS)
    case FreeAsync(_, dev) => dev < DEVICE_MAX_COUNT
    case _ => true
  }

  /** Asynchronous calls are made on NVML device m, and find a high water there. */
  predicate OnDevice(call: Call, cudaToNvml: seq<nat>, m: nat) {
    match call
    case AllocAsync(size, dev, _, pool, _, _, _) =>
      && dev < |cudaToNvml| && cudaToNvml[dev] == m
      && (pool.HighWater? ==> pool.bytes != 0 || size == 0)
    case FreeAsync(_, dev) => dev < |cudaToNvml| && cudaToNvml[dev] == m
    case _ => true
  }

  /** What a call may answer once the mutex has been left taken: nothing is tracked any more,
      and what reaches the lock hangs. */
  predicate Blocked(call: Call, res: Outcome) {
    match call
    case Add(_, _, _, _, _, _, _, _) => res != Returns(CUDA_SUCCESS)
    case Remove(_) => res == Hangs || res == Returns(-1)
    case RemoveOnly(_) => res.Returns?
    case _ => res == Hangs
  }

  /** The greatest pool reading after a call, and after a sequence of them. */
  function Peak(reading: nat, call: Call, res: Outcome): nat {
    if call.AllocAsync? && call.pool.HighWater? && res == Returns(CUDA_SUCCESS) && call.pool.bytes > reading
    then call.pool.bytes else reading
  }

  function PeakOf(reading: nat, calls: seq<Call>, results: seq<Outcome>): nat
    requires |calls| == |results|
    decreases |calls|
  {
    if calls == [] then reading else PeakOf(Peak(reading, calls[0], results[0]), calls[1..], results[1..])
  }

  predicate AllBlocked(calls: seq<Call>, results: seq<Outcome>)
    requires |calls| == |results|
  {
    forall i | 0 <= i < |results| :: Blocked(calls[i], results[i])
  }

  lemma OneMoreCall(reading: nat, calls: seq<Call>, res: Outcome, rest: seq<Outcome>)
    requires |calls| == 1 + |rest|
    ensures PeakOf(reading, calls, [res] + rest) == PeakOf(Peak(reading, calls[0], res), calls[1..], rest)
    ensures AllBlocked(calls, [res] + rest) <==> Blocked(calls[0], res) && AllBlocked(calls[1..], rest)
  {
    var results := [res] + rest;
    assert results[0] == res && results[1..] == rest;
    forall i | 0 <= i < |calls| ensures Blocked(calls[i], results[i]) <==>
        if i == 0 then Blocked(calls[0], res) else Blocked(calls[1..][i - 1], rest[i - 1])
    {}
    if AllBlocked(calls, results) {
      forall i | 0 <= i < |rest| ensures Blocked(calls[1..][i], rest[i]) {
        assert Blocked(calls[i + 1], results[i + 1]);
      }
    }
  }

  /** Every asynchronous allocation is on NVML device m. */
  ghost predicate AllOn(c: seq<Allocation>, cudaToNvml: seq<nat>, m: nat) {
    forall i | 0 <= i < |c| :: c[i].dev < |cudaToNvml| && cudaToNvml[c[i].dev] == m
  }

  /** All asynchronous calls are on m, and so is what the first ones may free. */
  ghost predicate OneDevice(calls: seq<Call>, c: seq<Allocation>, cudaToNvml: seq<nat>, m: nat) {
    && (forall i | 0 <= i < |calls| :: OnDevice(calls[i], cudaToNvml, m))
    && ((exists i :: 0 <= i < |calls| && calls[i].FreeAsync?) ==> AllOn(c, cudaToNvml, m))
  }

  lemma AllOnChanges(c: seq<Allocation>, a: Allocation, i: nat, cudaToNvml: seq<nat>, m: nat)
    requires AllOn(c, cudaToNvml, m)
    ensures a.dev < |cudaToNvml| && cudaToNvml[a.dev] == m ==> AllOn(c + [a], cudaToNvml, m)
    ensures i < |c| ==> AllOn(Without(c, i), cudaToNvml, m)
  {}

  lemma OneDeviceRest(calls: seq<Call>, c: seq<Allocation>, d: seq<Allocation>, cudaToNvml: seq<nat>, m: nat)
    requires calls != [] && OneDevice(calls, c, cudaToNvml, m) && (AllOn(c, cudaToNvml, m) ==> AllOn(d, cudaToNvml, m))
    ensures OneDevice(calls[1..], d, cudaToNvml, m)
  {
    if i :| 0 <= i < |calls[1..]| && calls[1..][i].FreeAsync? {
      assert calls[i + 1].FreeAsync?;
    }
  }

  method ServeAlloc(al: Allocator, call: Call, ghost m: nat) returns (res: Outcome)
    requires al.Valid() && Possible(call, al.info.pid) && call.AllocAsync?
    requires al.locked || (call.dev < |al.info.cudaToNvml| && al.info.cudaToNvml[call.dev] == m)
    modifies al`locked, al`highWater, al.info`mySlot, al.info.region`procNum, al.info.region.procs
    modifies al.allocAsync.repr
    ensures res == Returns(CUDA_SUCCESS) ==> call.pool.HighWater?
    ensures al.Valid() <==> res != Returns(CUDA_SUCCESS) || call.pool.bytes != 0 || call.size == 0
    ensures old(al.locked) ==> al.locked && Blocked(call, res)
    ensures AllOn(old(al.Async()), al.info.cudaToNvml, m) ==> AllOn(al.Async(), al.info.cudaToNvml, m)
    ensures al.highWater == Peak(old(al.highWater), call, res)
    ensures fresh(al.allocAsync.repr - old(al.allocAsync.repr)) && al.overallocated.repr == old(al.overallocated.repr)
  {
    ghost var c := al.Async();
    var address;
    res, address := al.AllocateAsyncRaw(call.size, call.dev, call.driver, call.pool, call.entryOk, call.dead, call.atCharge);
    if AllOn(c, al.info.cudaToNvml, m) && res == Returns(CUDA_SUCCESS) {
      AllOnChanges(c, al.Async()[|c|], 0, al.info.cudaToNvml, m);
    }
  }

  method ServeFree(al: Allocator, call: Call, ghost m: nat) returns (res: Outcome)
    requires al.Valid() && Possible(call, al.info.pid) && call.FreeAsync?
    requires al.locked || (OnDevice(call, al.info.cudaToNvml, m) && AllOn(al.Async(), al.info.cudaToNvml, m))
    modifies al`locked, al.info.region.procs
    modifies al.allocAsync.repr
    ensures al.Valid() && al.locked == old(al.locked) && (al.locked ==> res == Hangs)
    ensures AllOn(old(al.Async()), al.info.cudaToNvml, m) ==> AllOn(al.Async(), al.info.cudaToNvml, m)
    ensures al.allocAsync.repr == old(al.allocAsync.repr) && al.overallocated.repr == old(al.overallocated.repr)
  {
    ghost var c, i := al.Async(), IndexOf(al.Async(), call.dptr);
    if AllOn(c, al.info.cudaToNvml, m) { AllOnChanges(c, Allocation(0, 0, 0), i, al.info.cudaToNvml, m); }
    res := al.FreeRawAsync(call.dptr, call.dev);
  }

  method Serve(al: Allocator, call: Call, ghost m: nat) returns (res: Outcome)
    requires al.Valid() && Possible(call, al.info.pid)
    requires al.locked || (OnDevice(call, al.info.cudaToNvml, m) && (call.FreeAsync? ==> AllOn(al.Async(), al.info.cudaToNvml, m)))
    modifies al`locked, al`highWater, al.info`mySlot, al.info.region`procNum, al.info.region.procs
    modifies al.overallocated.repr
    modifies al.allocAsync.repr
    ensures al.Valid() && (old(al.locked) ==> al.locked && Blocked(call, res))
    ensures AllOn(old(al.Async()), al.info.cudaToNvml, m) ==> AllOn(al.Async(), al.info.cudaToNvml, m)
    ensures al.highWater == Peak(old(al.highWater), call, res)
    ensures fresh(al.overallocated.repr - old(al.overallocated.repr)) && fresh(al.allocAsync.repr - old(al.allocAsync.repr))
  {
    match call {
      case Add(size, dev, driver, entryOk, dead, atLock, atCharge, atReturn) =>
        var address;
        res, address := al.AddChunk(size, dev, driver, entryOk, dead, atLock, atCharge, atReturn);
      case AddOnly(address, size, dev, entryOk, dead, atCharge, atReturn) =>
        res := al.AddChunkOnly(address, size, dev, entryOk, dead, atCharge, atReturn);
      case Remove(dptr) =>
        res := al.RemoveChunk(dptr);
      case RemoveOnly(dptr) =>
        var code := al.RemoveChunkOnly(dptr);
        res := Returns(code);
      case AllocAsync(_, _, _, _, _, _, _) =>
        res := ServeAlloc(al, call, m);
      case FreeAsync(_, _) =>
        res := ServeFree(al, call, m);
    }
  }

  /** After every sequence of calls in which the asynchronous ones are on one device, whose pool
      reports a high water, the slot is charged exactly what the two lists hold, and the bytes
      of the asynchronous list are its limit and at most the greatest reading. A mutex once
      left taken stays so, and blocks all later calls. */
  method ServeAll(al: Allocator, calls: seq<Call>, ghost m: nat) returns (results: seq<Outcome>)
    requires al.Valid() && forall i | 0 <= i < |calls| :: Possible(calls[i], al.info.pid)
    requires al.locked || OneDevice(calls, al.Async(), al.info.cudaToNvml, m)
    modifies al`locked, al`highWater, al.info`mySlot, al.info.region`procNum, al.info.region.procs
    modifies al.overallocated.repr
    modifies al.allocAsync.repr
    ensures al.Valid() && |results| == |calls|
    ensures Books(al.Record(), al.Sync(), al.Async(), al.info.cudaToNvml)
    ensures al.allocAsync.limit == TotalLength(al.Async()) <= al.highWater == PeakOf(old(al.highWater), calls, results)
    ensures old(al.locked) ==> al.locked && AllBlocked(calls, results)
    ensures fresh(al.overallocated.repr - old(al.overallocated.repr)) && fresh(al.allocAsync.repr - old(al.allocAsync.repr))
    decreases |calls|
  {
    if calls == [] {
      results := [];
    } else {
      ghost var c := al.Async();
      var res := Serve(al, calls[0], m);
      if !old(al.locked) { OneDeviceRest(calls, c, al.Async(), al.info.cudaToNvml, m); }
      var rest := ServeAll(al, calls[1..], m);
      results := [res] + rest;
      OneMoreCall(old(al.highWater), calls, res, rest);
    }
  }

  /** One entry failure in a state with room leaves it so. */
  method EntryFailureBlocks(al: Allocator, address: int, size: nat, dev: nat, dead: set<int>, calls: seq<Call>)
    returns (first: Outcome, results: seq<Outcome>)
    requires al.Valid() && !al.locked && Possible(AddOnly(address, size, dev, false, dead, [], []), al.info.pid)
    requires al.Verdict(dev, size, dead) == Room
    requires forall i | 0 <= i < |calls| :: Possible(calls[i], al.info.pid)
    modifies al`locked, al`highWater, al.info`mySlot, al.info.region`procNum, al.info.region.procs
    modifies al.overallocated.repr
    modifies al.allocAsync.repr
    ensures first == Returns(-1) && al.Valid() && al.locked
    ensures |results| == |calls| && AllBlocked(calls, results)
  {
    first := al.AddChunkOnly(address, size, dev, false, dead, [], []);
    results := ServeAll(al, calls, 0);
  }
}
