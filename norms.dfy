/** The per-furnace norm durations, in minutes, that each metric is compared against. */
module Norms {
  import opened Wrappers

  /** The four norms of one furnace: `цикл1`, `цикл2`, `перерыв`, `общее`. */
  datatype NormSet = NormSet(cycle1: nat, cycle2: nat, pause: nat, total: nat)

  const Furnace1: string := "Печь 1"
  const Furnace2: string := "Печь 2"

  /** The norms dictionary built in `ReportGenerator.__init__`. */
  const Table: map<string, NormSet> := map[
    Furnace1 := NormSet(510, 210, 40, 760),
    Furnace2 := NormSet(660, 210, 40, 910)
  ]

  /** `self.norms[name]`: a name outside the table raises `KeyError`, here `None`. */
  function Lookup(furnace: string): (r: Option<NormSet>)
    ensures r.Some? <==> furnace == Furnace1 || furnace == Furnace2
    ensures r.Some? ==> r.value == Table[furnace]
  {
    if furnace in Table then Some(Table[furnace]) else None
  }

  /** A norm set that can be divided by and whose total is its three parts together. */
  predicate Consistent(n: NormSet) {
    n.cycle1 > 0 && n.cycle2 > 0 && n.pause > 0 && n.total > 0 &&
    n.total == n.cycle1 + n.cycle2 + n.pause
  }

  /** Every configured furnace has positive norms and a total norm of cycle 1 + cycle 2 + break. */
  lemma TableConsistent(furnace: string)
    requires Lookup(furnace).Some?
    ensures Consistent(Lookup(furnace).value)
  {
  }

  /** The spinner's values are exactly the table's keys. */
  lemma TableKeys()
    ensures Table.Keys == {Furnace1, Furnace2}
    ensures Furnace1 != Furnace2
  {
  }
}
