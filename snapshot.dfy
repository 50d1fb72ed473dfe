/**
 * The numbering all three writers share: they walk the wires in index order
 * and, inside each wire, its thermometers in array order, counting a running
 * index `t` that is never reset between wires. `Entries` is that walk as a
 * sequence; the lemmas below say that entry `k` is numbered `k`, that it
 * belongs to the wire it names, and that every thermometer of every wire
 * appears exactly at position "thermometers on earlier wires + its own index".
 */
module Snapshot {
  import opened TempTypes

  /** One step of the walk: global index `t`, owning wire index `i`, the record. */
  datatype Entry = Entry(num: nat, deviceNum: nat, thermometer: Thermometer)

  /** Number of thermometers on wires `0 .. n - 1`. */
  function CountUpTo(wires: seq<WireView>, n: nat): nat
    requires n <= |wires|
  {
    if n == 0 then 0 else CountUpTo(wires, n - 1) + |wires[n - 1].thermometers|
  }

  /** Sum of `thermo_count` over all wires. */
  function TotalCount(wires: seq<WireView>): nat {
    CountUpTo(wires, |wires|)
  }

  /** The entries of wire `i`: its thermometers numbered from `CountUpTo(wires, i)`. */
  function WireEntries(wires: seq<WireView>, i: nat): (es: seq<Entry>)
    requires i < |wires|
    ensures |es| == |wires[i].thermometers|
  {
    var first := CountUpTo(wires, i);
    var ths := wires[i].thermometers;
    seq(|ths|, j requires 0 <= j < |ths| => Entry(first + j, i, ths[j]))
  }

  /** The walk over wires `0 .. n - 1`. */
  function EntriesUpTo(wires: seq<WireView>, n: nat): (es: seq<Entry>)
    requires n <= |wires|
    ensures |es| == CountUpTo(wires, n)
  {
    if n == 0 then [] else EntriesUpTo(wires, n - 1) + WireEntries(wires, n - 1)
  }

  /** The walk over all wires. */
  function Entries(wires: seq<WireView>): seq<Entry> {
    EntriesUpTo(wires, |wires|)
  }

  lemma {:induction false} CountMonotone(wires: seq<WireView>, n: nat, m: nat)
    requires n <= m <= |wires|
    ensures CountUpTo(wires, n) <= CountUpTo(wires, m)
    decreases m - n
  {
    if n < m {
      CountMonotone(wires, n, m - 1);
    }
  }

  /** A shorter walk is a prefix of a longer one: later wires never renumber earlier entries. */
  lemma {:induction false} EntriesPrefix(wires: seq<WireView>, n: nat, m: nat)
    requires n <= m <= |wires|
    ensures EntriesUpTo(wires, n) <= EntriesUpTo(wires, m)
    decreases m - n
  {
    if n < m {
      EntriesPrefix(wires, n, m - 1);
    }
  }

  /**
   * Thermometer `j` of wire `i` is entry `CountUpTo(wires, i) + j`, numbered
   * with that global index and carrying owner `i`.
   */
  lemma EntryAt(wires: seq<WireView>, i: nat, j: nat)
    requires i < |wires| && j < |wires[i].thermometers|
    ensures CountUpTo(wires, i) + j < |Entries(wires)|
    ensures Entries(wires)[CountUpTo(wires, i) + j]
         == Entry(CountUpTo(wires, i) + j, i, wires[i].thermometers[j])
  {
    EntriesPrefix(wires, i + 1, |wires|);
    assert EntriesUpTo(wires, i + 1) == EntriesUpTo(wires, i) + WireEntries(wires, i);
  }

  /**
   * Every entry of the walk over wires `0 .. n - 1` is numbered by its position
   * and comes from the wire it names, at the offset the numbering implies.
   */
  lemma {:induction false} EntriesUpToOrigin(wires: seq<WireView>, n: nat)
    requires n <= |wires|
    ensures forall k :: 0 <= k < |EntriesUpTo(wires, n)| ==>
      var e := EntriesUpTo(wires, n)[k];
      && e.num == k
      && e.deviceNum < n
      && CountUpTo(wires, e.deviceNum) <= k < CountUpTo(wires, e.deviceNum + 1)
      && e.thermometer == wires[e.deviceNum].thermometers[k - CountUpTo(wires, e.deviceNum)]
    decreases n
  {
    if n > 0 {
      EntriesUpToOrigin(wires, n - 1);
      var es := EntriesUpTo(wires, n);
      assert es == EntriesUpTo(wires, n - 1) + WireEntries(wires, n - 1);
    }
  }

  /** `Entries` numbers the thermometers 0, 1, 2, ... and each entry names its true owner. */
  lemma EntriesOrigin(wires: seq<WireView>)
    ensures |Entries(wires)| == TotalCount(wires)
    ensures forall k :: 0 <= k < |Entries(wires)| ==>
      var e := Entries(wires)[k];
      && e.num == k
      && e.deviceNum < |wires|
      && CountUpTo(wires, e.deviceNum) <= k < CountUpTo(wires, e.deviceNum + 1)
      && e.thermometer == wires[e.deviceNum].thermometers[k - CountUpTo(wires, e.deviceNum)]
  {
    EntriesUpToOrigin(wires, |wires|);
  }

  /** The walk is wire-major: owner indices never decrease along it. */
  lemma EntriesWireMajor(wires: seq<WireView>, k1: nat, k2: nat)
    requires k1 <= k2 < |Entries(wires)|
    ensures Entries(wires)[k1].deviceNum <= Entries(wires)[k2].deviceNum
  {
    EntriesOrigin(wires);
    var d1, d2 := Entries(wires)[k1].deviceNum, Entries(wires)[k2].deviceNum;
    if d2 < d1 {
      CountMonotone(wires, d2 + 1, d1);
      assert false;
    }
  }
}
