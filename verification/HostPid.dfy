/** Finding this process's pid on the host: the pid that a device reports after the primary
    context was created and did not report before. */
module HostPid {

  ghost predicate Distinct(s: seq<int>) {
    forall i, j | 0 <= i < j < |s| :: s[i] != s[j]
  }

  ghost function Pids(s: seq<int>): set<int> {
    set p | p in s
  }

  /** s extended by those of a sample it lacks, in the order they first occur. */
  function Merged(sample: seq<int>, s: seq<int>): (m: seq<int>)
    ensures |s| <= |m| <= |s| + |sample|
  {
    if sample == [] then s
    else
      var m, p := Merged(sample[..|sample| - 1], s), sample[|sample| - 1];
      if p in m then m else m + [p]
  }

  /** What is there stays in front; nothing is repeated that was not; the pids are the union. */
  lemma {:induction false} MergedIsUnion(sample: seq<int>, s: seq<int>)
    ensures var m := Merged(sample, s);
            && m[..|s|] == s
            && (Distinct(s) ==> Distinct(m))
            && Pids(m) == Pids(s) + Pids(sample)
  {
    if sample != [] {
      var front, p := sample[..|sample| - 1], sample[|sample| - 1];
      MergedIsUnion(front, s);
      assert sample == front + [p];
      assert Pids(sample) == Pids(front) + {p};
      var m := Merged(front, s);
      if p !in m { assert Pids(m + [p]) == Pids(m) + {p}; }
    }
  }

  /** Adds the pids of a sample that the list does not hold yet. */
  method MergePid(prev: nat, current: nat, sub: array<int>, merged: array<int>) returns (now: nat)
    requires prev <= sub.Length && current + prev <= merged.Length && sub != merged
    modifies merged
    ensures now <= merged.Length && merged[..now] == Merged(sub[..prev], old(merged[..current]))
  {
    now := current;
    for i := 0 to prev
      invariant current <= now <= current + i
      invariant merged[..now] == Merged(sub[..i], old(merged[..current]))
    {
      var found := false;
      var j := 0;
      while j < now
        invariant 0 <= j <= now && !found
        invariant forall k | 0 <= k < j :: merged[k] != sub[i]
      {
        if sub[i] == merged[j] {
          found := true;
          break;
        }
        j := j + 1;
      }
      assert sub[..i + 1][..i] == sub[..i];
      if !found {
        ghost var before := merged[..now];
        merged[now] := sub[i];
        now := now + 1;
        assert merged[..now] == before + [sub[i]];
      } else {
        assert merged[j] in merged[..now];
      }
    }
  }

  /** The first pid of the second list that the first lacks, or 0; and 0 whenever the lists
      are equally long. */
  method GetExtraPid(prev: nat, current: nat, before: array<int>, after: array<int>) returns (pid: int)
    requires prev <= before.Length && current <= after.Length
    ensures if current == prev then pid == 0
            else if exists i :: 0 <= i < current && after[i] !in before[..prev] then
              exists i :: 0 <= i < current && after[i] == pid && pid !in before[..prev]
                          && forall k | 0 <= k < i :: after[k] in before[..prev]
            else pid == 0
  {
    if current == prev {   // unsigned: current - prev <= 0 holds only for equal counts
      return 0;
    }
    for i := 0 to current
      invariant forall k | 0 <= k < i :: after[k] in before[..prev]
    {
      var found := false;
      var j := 0;
      while j < prev
        invariant 0 <= j <= prev && !found
        invariant forall k | 0 <= k < j :: before[k] != after[i]
      {
        if after[i] == before[j] {
          found := true;
          break;
        }
        j := j + 1;
      }
      if !found {
        return after[i];
      } else {
        assert before[j] in before[..prev];
      }
    }
    return 0;
  }

  lemma {:induction false} DistinctCount(s: seq<int>)
    requires Distinct(s)
    ensures |Pids(s)| == |s|
  {
    if s != [] {
      var front, p := s[..|s| - 1], s[|s| - 1];
      DistinctCount(front);
      assert Pids(s) == Pids(front) + {p};
    } else {
      assert Pids(s) == {};
    }
  }

  lemma SamePids(s: seq<int>, t: seq<int>, q: int)
    requires Pids(s) == Pids(t)
    ensures q in s <==> q in t
  {
    assert q in s <==> q in Pids(s);
    assert q in t <==> q in Pids(t);
  }

  lemma OneMore(b: seq<int>, a: seq<int>, p: int)
    requires Distinct(b) && Distinct(a) && p !in b && Pids(a) == Pids(b) + {p}
    ensures |a| == |b| + 1 && p in a && forall q | q in a && q !in b :: q == p
  {
    DistinctCount(b);
    DistinctCount(a);
    assert p in Pids(a);
    forall q | q in a && q !in b ensures q == p {
      assert q in Pids(a) && q !in Pids(b);
    }
  }

  /** The two samples merged separately and compared: a single new pid is found, whatever the
      order and the repeats in the samples. */
  method DiscoverHostPid(first: array<int>, firstCount: nat, second: array<int>, secondCount: nat) returns (pid: int)
    requires firstCount <= first.Length && secondCount <= second.Length
    ensures forall p | p !in first[..firstCount]
              && Pids(second[..secondCount]) == Pids(first[..firstCount]) + {p} :: pid == p
    ensures pid != 0 ==> pid in second[..secondCount] && pid !in first[..firstCount]
  {
    var before := new int[firstCount];
    var after := new int[secondCount];
    var previous := MergePid(firstCount, 0, first, before);
    var running := MergePid(secondCount, 0, second, after);
    ghost var b, a := before[..previous], after[..running];
    assert b == Merged(first[..firstCount], []) && a == Merged(second[..secondCount], []);
    MergedIsUnion(first[..firstCount], []);
    MergedIsUnion(second[..secondCount], []);
    pid := GetExtraPid(previous, running, before, after);
    forall q ensures (q in b <==> q in first[..firstCount]) && (q in a <==> q in second[..secondCount]) {
      SamePids(b, first[..firstCount], q);
      SamePids(a, second[..secondCount], q);
    }
    forall p | p !in first[..firstCount] && Pids(second[..secondCount]) == Pids(first[..firstCount]) + {p}
      ensures pid == p
    {
      OneMore(b, a, p);
    }
  }
}
