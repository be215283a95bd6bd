/** CUDA_VISIBLE_DEVICES: its parse into the device map, and the map's inverse. */
module VisibleDevices {
  import opened Common
  import opened Numerals

  function Commas(s: string): nat {
    if s == [] then 0 else Commas(s[..|s| - 1]) + if s[|s| - 1] == ',' then 1 else 0
  }

  /** One number after each comma. */
  function AfterCommas(s: string): seq<int> {
    if s == [] then []
    else if s[0] == ',' then [Atoi(s[1..])] + AfterCommas(s[1..])
    else AfterCommas(s[1..])
  }

  /** What the parse stores: the number in front, then one after each later comma. */
  function Entries(s: string): seq<int>
    requires s != []
  {
    [Atoi(s)] + AfterCommas(s[1..])
  }

  /** The numbers with a comma and a gap between them. */
  function Join(ns: seq<nat>, gap: string): string
    requires ns != []
  {
    if |ns| == 1 then Print(ns[0]) else Print(ns[0]) + ("," + (gap + Join(ns[1..], gap)))
  }

  lemma {:induction false} AfterCommasSkips(s: string, rest: string)
    requires ',' !in s
    ensures AfterCommas(s + rest) == AfterCommas(rest)
  {
    if s == [] {
      assert s + rest == rest;
    } else {
      assert (s + rest)[1..] == s[1..] + rest;
      AfterCommasSkips(s[1..], rest);
    }
  }

  lemma JoinStarts(ns: seq<nat>, gap: string)
    requires ns != []
    ensures Join(ns, gap) != [] && '0' <= Join(ns, gap)[0] <= '9'
  {
    PrintDecimal(ns[0]);
  }

  lemma NoComma(gap: string, n: nat)
    requires AllSpace(gap)
    ensures var head := gap + Print(n); head != [] && ',' !in head && ',' !in head[1..]
  {
    var head := gap + Print(n);
    PrintDecimal(n);
    forall i | 0 <= i < |head| ensures head[i] != ',' {
      assert head[i] == if i < |gap| then gap[i] else Print(n)[i - |gap|];
    }
  }

  lemma EntriesSplit(head: string, rest: string)
    requires head != [] && ',' !in head[1..]
    ensures Entries(head + rest) == [Atoi(head + rest)] + AfterCommas(rest)
  {
    assert (head + rest)[1..] == head[1..] + rest;
    AfterCommasSkips(head[1..], rest);
  }

  /** A printed number after some space, alone or before a comma and more, is one entry. */
  lemma FirstEntry(gap: string, n: nat, rest: string)
    requires AllSpace(gap) && (rest == [] || rest[0] == ',')
    ensures var t := gap + (Print(n) + rest); t != [] && Entries(t) == [n] + AfterCommas(rest)
  {
    var t, head := gap + (Print(n) + rest), gap + Print(n);
    AtoiSpaced(gap, n, rest);
    NoComma(gap, n);
    assert t == head + rest;
    EntriesSplit(head, rest);
  }

  lemma {:induction false} AfterComma(t: string)
    requires t != [] && t[0] != ','
    ensures AfterCommas("," + t) == Entries(t)
  {
    assert ("," + t)[1..] == t;
  }

  /** What follows the comma in a printed list is read as the rest of the list. */
  lemma {:induction false} ParseAfterGap(ns: seq<nat>, gap: string, before: string)
    requires ns != [] && AllSpace(gap) && AllSpace(before)
    ensures var t := before + Join(ns, gap); t != [] && t[0] != ',' && Entries(t) == ns
    decreases |ns|
  {
    JoinStarts(ns, gap);
    var t := before + Join(ns, gap);
    if |ns| == 1 {
      FirstEntry(before, ns[0], []);
      assert Print(ns[0]) + [] == Print(ns[0]);
    } else {
      var rest := gap + Join(ns[1..], gap);
      ParseAfterGap(ns[1..], gap, gap);
      FirstEntry(before, ns[0], "," + rest);
      AfterComma(rest);
    }
  }

  /** Parsing a printed list gives the list back, with or without space after the commas. */
  lemma ParseOfJoin(ns: seq<nat>, gap: string)
    requires ns != [] && AllSpace(gap)
    ensures Join(ns, gap) != [] && Entries(Join(ns, gap)) == ns
  {
    ParseAfterGap(ns, gap, []);
    assert [] + Join(ns, gap) == Join(ns, gap);
  }

  lemma {:induction false} CommasFront(s: string)
    requires s != []
    ensures Commas(s) == Commas(s[1..]) + if s[0] == ',' then 1 else 0
  {
    if |s| == 1 {
      assert s[..0] == [] && s[1..] == [];
    } else {
      CommasFront(s[..|s| - 1]);
      assert s[1..][..|s| - 2] == s[..|s| - 1][1..];
    }
  }

  lemma {:induction false} AfterCommasCount(s: string)
    ensures |AfterCommas(s)| == Commas(s)
  {
    if s != [] {
      CommasFront(s);
      AfterCommasCount(s[1..]);
    }
  }

  /** The parse stores as many numbers as getenvcount counts, unless a comma comes first. */
  lemma {:induction false} CountsAgree(s: string)
    requires s != []
    ensures |Entries(s)| == Commas(s) + 1 <==> s[0] != ','
  {
    CommasFront(s);
    AfterCommasCount(s[1..]);
  }

  /** Fills the map with the identity and, if asked, its front with the numbers listed. With
      more numbers than entries it stops at the store past the map and reports the overrun. */
  method ParseCudaVisibleEnv(s: string, virtualize: bool, map_: array<int>) returns (count: nat, overrun: bool)
    requires map_.Length == DEVICE_MAX_COUNT
    modifies map_
    ensures overrun <==> virtualize && s != [] && |Entries(s)| > DEVICE_MAX_COUNT
    ensures overrun ==> count == DEVICE_MAX_COUNT && map_[..] == Entries(s)[..DEVICE_MAX_COUNT]
    ensures !overrun ==> count == if virtualize && s != [] then |Entries(s)| else 0
    ensures count <= DEVICE_MAX_COUNT
    ensures virtualize && s != [] ==> map_[..count] <= Entries(s)
    ensures forall i | count <= i < DEVICE_MAX_COUNT :: map_[i] == i
  {
    count, overrun := 0, false;
    for i := 0 to DEVICE_MAX_COUNT
      invariant forall j | 0 <= j < i :: map_[j] == j
    {
      map_[i] := i;
    }
    if virtualize {
      for i := 0 to |s|
        invariant count <= DEVICE_MAX_COUNT && (i == 0 <==> count == 0) && !overrun
        invariant i > 0 ==> map_[..count] + AfterCommas(s[i..]) == Entries(s)
        invariant forall j | count <= j < DEVICE_MAX_COUNT :: map_[j] == j
      {
        if i > 0 { assert s[i..][0] == s[i] && s[i..][1..] == s[i + 1..]; }
        if s[i] == ',' || i == 0 {
          var tmp := if i == 0 then Atoi(s) else Atoi(s[i + 1..]);
          ghost var front := map_[..count];
          assert i > 0 ==> |Entries(s)| >= count + 1;
          if count == map_.Length {
            assert map_[..] == front;
            return count, true;
          }
          map_[count] := tmp;
          count := count + 1;
          assert map_[..count] == front + [tmp];
        }
      }
      assert s != [] ==> s[|s|..] == [] && map_[..count] + [] == map_[..count];
    }
  }

  method GetEnvCount(s: string) returns (count: int)
    ensures count == if s == [] then -1 else Commas(s) + 1
  {
    if s == [] {
      return -1;
    }
    count := 0;
    for i := 0 to |s|
      invariant count == Commas(s[..i])
    {
      assert s[..i + 1][..i] == s[..i];
      if s[i] == ',' {
        count := count + 1;
      }
    }
    assert s[..|s|] == s;
    count := count + 1;
  }

  /** NotFound is -1 returned as an unsigned int, Overrun a read past the map. */
  datatype Lookup = Cuda(index: nat) | NotFound | Overrun

  /** The first CUDA device mapped to an NVML device; with more devices than entries the search
      leaves the map unless it finds one in it. */
  method NvmlToCudaMap(map_: array<int>, devcount: nat, nvmldev: int) returns (r: Lookup)
    ensures if nvmldev in map_[..if devcount < map_.Length then devcount else map_.Length] then
              r.Cuda? && r.index < devcount && r.index < map_.Length
              && map_[r.index] == nvmldev && nvmldev !in map_[..r.index]
            else r == if devcount > map_.Length then Overrun else NotFound
  {
    for i := 0 to devcount
      invariant i <= map_.Length && nvmldev !in map_[..i]
    {
      if i == map_.Length {
        return Overrun;
      }
      if map_[i] == nvmldev {
        return Cuda(i);
      }
    }
    return NotFound;
  }

  /** Distinct devices printed into the variable, parsed back and looked up: the i-th one listed
      is CUDA device i, even where the identity in the tail repeats its number. */
  method VisibleDevicesRoundTrip(ns: seq<nat>, gap: string, devcount: nat, i: nat) returns (count: nat, envCount: int, r: Lookup)
    requires 0 < |ns| <= DEVICE_MAX_COUNT && |ns| <= devcount && i < |ns|
    requires AllSpace(gap) && forall j, k | 0 <= j < k < |ns| :: ns[j] != ns[k]
    ensures count == envCount == |ns| && r == Cuda(i)
  {
    ParseOfJoin(ns, gap);
    JoinStarts(ns, gap);
    CountsAgree(Join(ns, gap));
    var map_ := new int[DEVICE_MAX_COUNT];
    var overrun;
    count, overrun := ParseCudaVisibleEnv(Join(ns, gap), true, map_);
    envCount := GetEnvCount(Join(ns, gap));
    assert forall j | 0 <= j < count :: map_[..count][j] == map_[j];
    ghost var searched := map_[..if devcount < map_.Length then devcount else map_.Length];
    assert searched[i] == map_[i] == ns[i];
    r := NvmlToCudaMap(map_, devcount, ns[i]);
    assert forall k | 0 <= k < r.index :: map_[..r.index][k] == map_[k];
  }
}
