/** The ring of recent (thread, symbol address) pairs by which dlsym detects recursion. */
module DlsymRing {

  const DLMAP_SIZE := 100

  datatype Pair = Pair(tid: int, pointer: int)

  // ----- The sliding window the ring stands for

  function Window(r: seq<Pair>): (w: seq<Pair>)
    ensures |w| <= DLMAP_SIZE
  {
    if |r| <= DLMAP_SIZE then r else r[|r| - DLMAP_SIZE..]
  }

  /** The pairs recorded over a history of calls: a call records its pair unless it is
      among the last hundred recorded. */
  function Recorded(calls: seq<Pair>): seq<Pair> {
    if calls == [] then []
    else
      var r, p := Recorded(calls[..|calls| - 1]), calls[|calls| - 1];
      if p in Window(r) then r else r + [p]
  }

  lemma NumberInWindow(r: seq<Pair>, i: nat)
    requires i < |r| && |r| - i <= DLMAP_SIZE
    ensures r[i] in Window(r)
  {
    assert Window(r)[if |r| <= DLMAP_SIZE then i else i - (|r| - DLMAP_SIZE)] == r[i];
  }

  /** The last hundred recorded pairs are distinct after every history, and the pair of the
      last call is among them; what was recorded before it stays, and it is added exactly if
      it was not in the window. */
  lemma {:induction false} RecordedWindow(calls: seq<Pair>)
    ensures var r := Recorded(calls);
            && (forall i, j | 0 <= i < j < |r| && j - i < DLMAP_SIZE :: r[i] != r[j])
            && (calls != [] ==> calls[|calls| - 1] in Window(r))
    ensures calls != [] ==>
              var before, r, p := Recorded(calls[..|calls| - 1]), Recorded(calls), calls[|calls| - 1];
              && before <= r
              && (p in Window(before) ==> r == before)
              && (p !in Window(before) ==> |r| == |before| + 1 && r[|before|] == p)
  {
    if calls != [] {
      var front := calls[..|calls| - 1];
      RecordedWindow(front);
      var r, p := Recorded(front), calls[|calls| - 1];
      if p !in Window(r) {
        forall i | 0 <= i < |r| && |r| - i < DLMAP_SIZE ensures r[i] != p {
          NumberInWindow(r, i);
        }
        NumberInWindow(r + [p], |r|);
      }
    }
  }

  /** The latest number below count that falls on cell i of the ring. */
  function Latest(count: nat, i: nat): (k: nat)
    requires i < DLMAP_SIZE && i < count
    ensures k < count && count - k <= DLMAP_SIZE && k % DLMAP_SIZE == i
  {
    count - 1 - (count - 1 - i) % DLMAP_SIZE
  }

  /** The ring holds the window, each pair in the cell of its number. */
  ghost predicate Mirrors(ring: seq<Pair>, r: seq<Pair>) {
    && |ring| == DLMAP_SIZE
    && forall k | 0 <= k < |r| && |r| - k <= DLMAP_SIZE :: ring[k % DLMAP_SIZE] == r[k]
  }

  lemma CellInWindow(ring: seq<Pair>, r: seq<Pair>, i: nat)
    requires Mirrors(ring, r) && i < |r| && i < DLMAP_SIZE
    ensures ring[i] in Window(r)
  {
    var k := Latest(|r|, i);
    assert ring[k % DLMAP_SIZE] == r[k];
    NumberInWindow(r, k);
  }

  /** A pair that no used cell holds is not in the window. */
  lemma NotInCells(ring: seq<Pair>, r: seq<Pair>, p: Pair)
    requires Mirrors(ring, r) && forall i | 0 <= i < |r| && i < DLMAP_SIZE :: ring[i] != p
    ensures p !in Window(r)
  {
    forall w | 0 <= w < |Window(r)| ensures Window(r)[w] != p {
      var k := if |r| <= DLMAP_SIZE then w else w + (|r| - DLMAP_SIZE);
      assert ring[k % DLMAP_SIZE] == r[k];
    }
  }

  /** The used cells hold exactly the pairs of the window. */
  lemma CellsAreWindow(ring: seq<Pair>, r: seq<Pair>, p: Pair)
    requires Mirrors(ring, r)
    ensures (exists i :: 0 <= i < |r| && i < DLMAP_SIZE && ring[i] == p) <==> p in Window(r)
  {
    if i :| 0 <= i < |r| && i < DLMAP_SIZE && ring[i] == p {
      CellInWindow(ring, r, i);
    } else {
      NotInCells(ring, r, p);
    }
  }

  lemma MirrorsAfterRecord(ring: seq<Pair>, r: seq<Pair>, p: Pair)
    requires Mirrors(ring, r)
    ensures Mirrors(ring[|r| % DLMAP_SIZE := p], r + [p])
  {
    forall k | 0 <= k < |r| && |r| + 1 - k <= DLMAP_SIZE ensures k % DLMAP_SIZE != |r| % DLMAP_SIZE {
      assert (|r| - k) % DLMAP_SIZE == |r| - k;
    }
  }

  class DlMap {
    const dlmap: array<Pair>
    var count: int
    ghost var calls: seq<Pair>

    ghost predicate Valid()
      reads this, dlmap
    {
      count == |Recorded(calls)| && Mirrors(dlmap[..], Recorded(calls))
    }

    constructor ()
      ensures Valid() && calls == [] && dlmap.Length == 100
    {
      dlmap := new Pair[DLMAP_SIZE](_ => Pair(0, 0));
      count, calls := 0, [];
    }

    /** The scan of the used cells, from the last to the first. */
    method Scan(tid: int, pointer: int) returns (found: bool)
      requires 0 <= count && dlmap.Length == DLMAP_SIZE
      ensures found <==> exists i :: 0 <= i < count && i < DLMAP_SIZE && dlmap[..][i] == Pair(tid, pointer)
    {
      var cursor := if count < DLMAP_SIZE then count else DLMAP_SIZE;
      var i := cursor - 1;
      while i >= 0
        invariant -1 <= i < cursor
        invariant forall j | i < j < cursor :: dlmap[..][j] != Pair(tid, pointer)
      {
        if dlmap[i].pointer == pointer && dlmap[i].tid == tid {
          assert dlmap[..][i] == Pair(tid, pointer);
          return true;
        }
        i := i - 1;
      }
      return false;
    }

    /** Answers whether the pair was recorded within the last hundred, and records it if not. */
    method CheckDlmap(tid: int, pointer: int) returns (found: int)
      requires Valid()
      modifies this, dlmap
      ensures Valid() && calls == old(calls) + [Pair(tid, pointer)]
      ensures found == if Pair(tid, pointer) in Window(Recorded(old(calls))) then 1 else 0
    {
      var seen := Scan(tid, pointer);
      CellsAreWindow(dlmap[..], Recorded(calls), Pair(tid, pointer));
      if seen {
        assert (calls + [Pair(tid, pointer)])[..|calls|] == calls;
        calls := calls + [Pair(tid, pointer)];
        return 1;
      }
      Record(tid, pointer);
      return 0;
    }

    /** The part after the scan: the pair overwrites the cell whose turn it is. */
    method Record(tid: int, pointer: int)
      requires Valid() && Pair(tid, pointer) !in Window(Recorded(calls))
      modifies this, dlmap
      ensures Valid() && calls == old(calls) + [Pair(tid, pointer)]
    {
      ghost var r, ring, p := Recorded(calls), dlmap[..], Pair(tid, pointer);
      assert (calls + [p])[..|calls|] == calls;
      var cursor := count % DLMAP_SIZE;
      dlmap[cursor] := Pair(tid, pointer);
      count := count + 1;
      calls := calls + [p];
      MirrorsAfterRecord(ring, r, p);
      assert dlmap[..] == ring[|r| % DLMAP_SIZE := p];
    }
  }
}
