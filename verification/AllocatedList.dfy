/** The intrusive doubly linked list of tracked allocations. */
module AllocatedList {

  /** What a list entry records about one allocation. */
  datatype Allocation = Allocation(address: int, length: nat, dev: nat)

  class Entry {
    var address: int
    var length: nat
    var dev: nat
    var next: Entry?
    var prev: Entry?

    constructor (address: int, length: nat, dev: nat)
      ensures Value() == Allocation(address, length, dev) && next == null && prev == null
    {
      this.address, this.length, this.dev := address, length, dev;
      next, prev := null, null;
    }

    function Value(): Allocation
      reads this
    {
      Allocation(address, length, dev)
    }
  }

  /** The position of the first allocation at an address, or the length. */
  function IndexOf(c: seq<Allocation>, address: int): (i: nat)
    ensures i <= |c| && (i < |c| ==> c[i].address == address)
    ensures forall j | 0 <= j < i :: c[j].address != address
  {
    if c == [] || c[0].address == address then 0 else 1 + IndexOf(c[1..], address)
  }

  function Without(c: seq<Allocation>, i: nat): seq<Allocation>
    requires i < |c|
  {
    c[..i] + c[i + 1..]
  }

  class EntryList {
    var head: Entry?
    var tail: Entry?
    var length: int
    var limit: int
    ghost var nodes: seq<Entry>
    ghost var contents: seq<Allocation>
    ghost var repr: set<object>

    /** The pointers describe nodes, forwards and backwards. */
    ghost predicate Linked()
      reads this, repr
    {
      && this in repr
      && (forall i | 0 <= i < |nodes| :: nodes[i] in repr)
      && (forall i, j | 0 <= i < j < |nodes| :: nodes[i] != nodes[j])
      && head == (if nodes == [] then null else nodes[0])
      && tail == (if nodes == [] then null else nodes[|nodes| - 1])
      && (forall i {:trigger nodes[i].next} | 0 <= i < |nodes| ::
            nodes[i].next == if i + 1 < |nodes| then nodes[i + 1] else null)
      && (forall i {:trigger nodes[i].prev} | 0 <= i < |nodes| ::
            nodes[i].prev == if i > 0 then nodes[i - 1] else null)
    }

    ghost predicate Recorded()
      requires Linked()
      reads this, repr
    {
      && length == |nodes| == |contents|
      && forall i | 0 <= i < |nodes| :: nodes[i].Value() == contents[i]
    }

    ghost predicate Valid()
      reads this, repr
      ensures Valid() ==> this in repr
    {
      Linked() && Recorded()
    }

    constructor ()
      ensures Valid() && nodes == [] && contents == [] && limit == 0 && fresh(repr)
    {
      head, tail, length, limit, nodes, contents := null, null, 0, 0, [], [];
      repr := {this};
    }

    /** LIST_ADD appends a detached entry. */
    method Add(e: Entry)
      requires Valid() && e !in nodes && e.next == null && e.prev == null
      modifies repr, e
      ensures Valid() && nodes == old(nodes) + [e] && repr == old(repr) + {e} && limit == old(limit)
      ensures contents == old(contents) + [old(e.Value())]
    {
      if head == null {
        head := e;
        tail := e;
        length := 1;
      } else {
        e.prev := tail;
        tail.next := e;
        tail := e;
        length := length + 1;
      }
      nodes, contents, repr := nodes + [e], contents + [e.Value()], repr + {e};
    }

    /** A new entry, appended. */
    method AddNew(address: int, size: nat, dev: nat)
      requires Valid()
      modifies repr
      ensures Valid() && contents == old(contents) + [Allocation(address, size, dev)]
      ensures fresh(repr - old(repr)) && limit == old(limit)
    {
      var e := new Entry(0, size, dev);
      e.address := address;
      Add(e);
    }

    /** The pointer part of LIST_REMOVE. */
    method Unlink(e: Entry, ghost i: nat)
      requires Linked() && i < |nodes| && nodes[i] == e
      modifies this`head, this`tail, this`nodes, nodes`next, nodes`prev
      ensures Linked() && nodes == old(nodes)[..i] + old(nodes)[i + 1..]
    {
      assert nodes[i].prev == (if i > 0 then nodes[i - 1] else null);
      assert nodes[i].next == (if i + 1 < |nodes| then nodes[i + 1] else null);
      if e.prev != null {
        e.prev.next := e.next;
      }
      if e.next != null {
        e.next.prev := e.prev;
      }
      if e == tail {
        tail := e.prev;
      }
      if e == head {
        head := e.next;
      }
      ghost var was := nodes;
      nodes := was[..i] + was[i + 1..];
      forall j | 0 <= j < |nodes|
        ensures nodes[j].next == if j + 1 < |nodes| then nodes[j + 1] else null
        ensures nodes[j].prev == if j > 0 then nodes[j - 1] else null
      {
        assert nodes[j] == was[if j < i then j else j + 1];
      }
    }

    /** LIST_REMOVE takes the entry at position i out. */
    method Remove(e: Entry, ghost i: nat)
      requires Valid() && i < |nodes| && nodes[i] == e
      modifies repr
      ensures Valid() && nodes == old(nodes)[..i] + old(nodes)[i + 1..]
      ensures contents == Without(old(contents), i) && repr == old(repr) && limit == old(limit)
    {
      ghost var was, c := nodes, contents;
      Unlink(e, i);
      length := length - 1;
      contents := Without(contents, i);
      forall j | 0 <= j < |nodes| ensures nodes[j].Value() == contents[j] {
        var k := if j < i then j else j + 1;
        assert nodes[j] == was[k] && contents[j] == c[k];
      }
    }

    /** The first entry at an address, found by walking from the head. */
    method Find(address: int) returns (e: Entry?, ghost i: nat)
      requires Valid()
      ensures i == IndexOf(contents, address)
      ensures if i < |nodes| then e == nodes[i] else e == null
    {
      e := head;
      i := 0;
      while e != null
        invariant i <= |nodes|
        invariant if i < |nodes| then e == nodes[i] else e == null
        invariant forall j | 0 <= j < i :: nodes[j].address != address
        decreases |nodes| - i
      {
        if e.address == address {
          break;
        }
        e := e.next;
        i := i + 1;
      }
      ghost var k := IndexOf(contents, address);
      assert k < |nodes| ==> nodes[k].address == address;
    }

    /** Finds the first entry at an address, notes its size and device, and takes it out. */
    method Take(address: int) returns (found: bool, size: nat, dev: nat)
      requires Valid()
      modifies repr
      ensures Valid() && repr == old(repr) && limit == old(limit)
      ensures var c, i := old(contents), IndexOf(old(contents), address);
              if i < |c| then found && contents == Without(c, i) && c[i] == Allocation(address, size, dev)
              else !found && contents == c
    {
      found, size, dev := false, 0, 0;
      if length == 0 {
        return;
      }
      var e, i := Find(address);
      if e == null {
        return;
      }
      found, size, dev := true, e.length, e.dev;
      Remove(e, i);
    }

    /** The total length of all entries. */
    method Size() returns (size: nat)
      requires Valid()
      ensures size == TotalLength(contents)
    {
      if length == 0 {
        return 0;
      }
      size := 0;
      var e := head;
      ghost var i := 0;
      while e != null
        invariant 0 <= i <= |nodes|
        invariant if i < |nodes| then e == nodes[i] else e == null
        invariant size == TotalLength(contents[..i])
        decreases |nodes| - i
      {
        assert contents[..i + 1][..i] == contents[..i];
        size := size + e.length;
        e := e.next;
        i := i + 1;
      }
      assert contents[..|nodes|] == contents;
    }

    /** Following next k times from the head, and prev k times from the tail. */
    ghost function Ahead(k: nat): (e: Entry?)
      requires Valid()
      reads this, repr
      ensures e == if k < |nodes| then nodes[k] else null
    {
      if k == 0 then head
      else
        var p := Ahead(k - 1);
        if p == null then null else p.next
    }

    ghost function Behind(k: nat): (e: Entry?)
      requires Valid()
      reads this, repr
      ensures e == if k < |nodes| then nodes[|nodes| - 1 - k] else null
    {
      if k == 0 then tail
      else
        var p := Behind(k - 1);
        if p == null then null else p.prev
    }

    /** The two traversals visit the same entries in opposite order. */
    lemma TraversalsMirror(k: nat)
      requires Valid()
      ensures k < length ==> Ahead(k) != null && Ahead(k) == Behind(length - 1 - k)
      ensures k >= length ==> Ahead(k) == Behind(k) == null
    {}
  }

  function TotalLength(c: seq<Allocation>): nat {
    if c == [] then 0 else TotalLength(c[..|c| - 1]) + c[|c| - 1].length
  }
}
