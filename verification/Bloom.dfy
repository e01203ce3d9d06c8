/** The bloom filter: an item sets the bits at its hash positions and is reported when all are set. */
module Bloom {

  /** The bit positions of an item; any function will do. */
  type Positions = string -> set<nat>

  predicate Reports(pos: Positions, bits: set<nat>, item: string) { pos(item) <= bits }

  /** The bits set by adding some items. */
  function BitsOf(pos: Positions, items: seq<string>): set<nat>
  {
    if items == [] then {} else BitsOf(pos, items[..|items| - 1]) + pos(items[|items| - 1])
  }

  lemma BitsOfOne(pos: Positions, item: string)
    ensures BitsOf(pos, [item]) == pos(item)
  {
    assert [item][..0] == [];
  }

  lemma {:induction false} BitsOfAppend(pos: Positions, items: seq<string>, more: seq<string>)
    ensures BitsOf(pos, items + more) == BitsOf(pos, items) + BitsOf(pos, more)
  {
    if more == [] {
      assert items + more == items;
    } else {
      BitsOfAppend(pos, items, more[..|more| - 1]);
      assert (items + more)[..|items + more| - 1] == items + more[..|more| - 1];
    }
  }

  /** What was added is reported, however much was added before and after it. */
  lemma {:induction false} NoFalseNegatives(pos: Positions, items: seq<string>, item: string)
    requires item in items
    ensures Reports(pos, BitsOf(pos, items), item)
  {
    if item != items[|items| - 1] {
      NoFalseNegatives(pos, items[..|items| - 1], item);
    }
  }

  /** Whatever is reported has each of its bits set by something that was added. */
  lemma {:induction false} EveryBitHasACause(pos: Positions, items: seq<string>, bit: nat)
    requires bit in BitsOf(pos, items)
    ensures exists item :: item in items && bit in pos(item)
  {
    var last := items[|items| - 1];
    if bit in pos(last) {
      assert last in items;
    } else {
      EveryBitHasACause(pos, items[..|items| - 1], bit);
    }
  }

  /** The filter as an array of bits and k hash functions. */
  class Filter {
    const k: nat
    const hash: (string, nat) -> nat
    const bits: array<bool>

    ghost predicate Valid() { bits.Length > 0 }

    function Position(item: string, i: nat): nat
      requires Valid()
    {
      hash(item, i) % bits.Length
    }

    ghost function Pos(): Positions
      requires Valid()
    {
      (item: string) => set i | 0 <= i < k :: Position(item, i)
    }

    ghost function Model(): set<nat>
      reads bits
    {
      set i | 0 <= i < bits.Length && bits[i]
    }

    constructor (m: nat, k: nat, hash: (string, nat) -> nat)
      requires 0 < m
      ensures Valid() && fresh(bits) && this.k == k && this.hash == hash && bits.Length == m && Model() == {}
    {
      this.k, this.hash := k, hash;
      bits := new bool[m](_ => false);
    }

    method Add(item: string)
      requires Valid()
      modifies bits
      ensures Model() == old(Model()) + Pos()(item)
      ensures forall p | 0 <= p < bits.Length ::
                bits[p] <==> old(bits[p]) || exists i :: 0 <= i < k && p == hash(item, i) % bits.Length
    {
      for i := 0 to k
        invariant Model() == old(Model()) + set j | 0 <= j < i :: Position(item, j)
      {
        var p := Position(item, i);
        label before:
        bits[p] := true;
        assert Model() == old@before(Model()) + {p};
        assert (set j | 0 <= j < i + 1 :: Position(item, j)) == (set j | 0 <= j < i :: Position(item, j)) + {p};
      }
      forall p | 0 <= p < bits.Length
        ensures bits[p] <==> old(bits[p]) || exists i :: 0 <= i < k && p == hash(item, i) % bits.Length
      {
        assert bits[p] <==> p in Model();
        assert old(bits[p]) <==> p in old(Model());
        assert p in Pos()(item) <==> exists i :: 0 <= i < k && p == Position(item, i);
        assert forall i | 0 <= i < k :: Position(item, i) == hash(item, i) % bits.Length;
      }
    }

    method Contains(item: string) returns (found: bool)
      requires Valid()
      ensures found <==> Reports(Pos(), Model(), item)
      ensures found <==> forall i | 0 <= i < k :: bits[hash(item, i) % bits.Length]
    {
      for i := 0 to k
        invariant forall j | 0 <= j < i :: bits[Position(item, j)]
      {
        if !bits[Position(item, i)] {
          assert Position(item, i) in Pos()(item) && !bits[hash(item, i) % bits.Length];
          return false;
        }
      }
      found := true;
      forall i | 0 <= i < k ensures bits[hash(item, i) % bits.Length] { assert bits[Position(item, i)]; }
    }
  }
}
