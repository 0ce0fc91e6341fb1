/**
 * The list-numbering registry (`lists`): one entry per ordered list that has
 * been converted, keyed by the list's fresh identifier. Every entry refers to
 * the "contract-list" numbering and carries an instance number equal to the
 * number of "contract-list" entries before it, plus one. Entries are never
 * removed or renumbered.
 */
module ListRegistry {
  import opened Common
  import opened Docx

  /** A list identifier. Fresh identifiers come from a counter (see `Registry.FreshId`). */
  type ListId = nat

  datatype ListEntry = ListEntry(reference: string, instance: nat)

  /** `Object.values(lists).filter(({ ref }) => ref === "contract-list").length` */
  function ContractListCount(lists: map<ListId, ListEntry>): nat
  {
    |set id | id in lists && lists[id].reference == ContractList|
  }

  /**
   * The registry's invariant: `order` lists the registered identifiers in
   * registration order, without repetition; the i-th of them is a
   * "contract-list" entry with instance i + 1; and every identifier was handed
   * out by the fresh-id supply (is below `issued`).
   */
  ghost predicate WellNumbered(lists: map<ListId, ListEntry>, order: seq<ListId>, issued: nat)
  {
    && (forall i :: 0 <= i < |order| ==> order[i] in lists && lists[order[i]] == ListEntry(ContractList, i + 1))
    && (forall i, j :: 0 <= i < j < |order| ==> order[i] != order[j])
    && (forall id :: id in lists ==> id in order && id < issued)
  }

  /** The identifiers occurring in `order`. */
  function ListIds(order: seq<ListId>): (ids: set<ListId>)
    ensures forall id :: id in ids <==> id in order
  {
    set id | id in order
  }

  lemma {:induction false} DistinctCardinality(order: seq<ListId>)
    requires forall i, j :: 0 <= i < j < |order| ==> order[i] != order[j]
    ensures |ListIds(order)| == |order|
  {
    if order != [] {
      var init := order[..|order| - 1];
      var last := order[|order| - 1];
      DistinctCardinality(init);
      var earlier := ListIds(init);
      assert last !in earlier;
      assert ListIds(order) == earlier + {last};
      assert |earlier + {last}| == |earlier| + 1;
    }
  }

  /** The count the source computes equals the number of registrations so far. */
  lemma CountIsRegistrations(lists: map<ListId, ListEntry>, order: seq<ListId>, issued: nat)
    requires WellNumbered(lists, order, issued)
    ensures ContractListCount(lists) == |order|
  {
    assert (set id | id in lists && lists[id].reference == ContractList) == ListIds(order);
    DistinctCardinality(order);
  }

  /** The N registered lists carry N distinct instance numbers, all in 1..N: exactly 1..N. */
  lemma InstancesAreOneToN(lists: map<ListId, ListEntry>, order: seq<ListId>, issued: nat)
    requires WellNumbered(lists, order, issued)
    ensures |lists| == |order|
    ensures forall id :: id in lists ==> 1 <= lists[id].instance <= |order|
    ensures forall a, b :: a in lists && b in lists && a != b ==> lists[a].instance != lists[b].instance
  {
    assert lists.Keys == ListIds(order);
    DistinctCardinality(order);
    forall id | id in lists
      ensures 1 <= lists[id].instance <= |order|
    {
      var i :| 0 <= i < |order| && order[i] == id;
    }
    forall a, b | a in lists && b in lists && a != b
      ensures lists[a].instance != lists[b].instance
    {
      var i :| 0 <= i < |order| && order[i] == a;
      var j :| 0 <= j < |order| && order[j] == b;
    }
  }

  class Registry {
    var lists: map<ListId, ListEntry>
    /** Identifiers handed out so far: 0 .. issued - 1. */
    var issued: nat
    /** Registered identifiers, in registration order. */
    ghost var order: seq<ListId>

    ghost predicate Valid()
      reads this
    {
      WellNumbered(lists, order, issued)
    }

    /** The module-level `const lists = {}`. */
    constructor ()
      ensures Valid() && lists == map[] && order == [] && issued == 0
    {
      lists := map[];
      issued := 0;
      order := [];
    }

    /** `crypto.randomUUID()`: an identifier never handed out before. */
    method FreshId() returns (id: ListId)
      requires Valid()
      modifies this
      ensures Valid()
      ensures id == old(issued) && id !in lists && issued == old(issued) + 1
      ensures lists == old(lists) && order == old(order)
    {
      id := issued;
      issued := issued + 1;
    }

    /** The ordered-list branch of `handleToken`: register `id` with the next instance number. */
    method RegisterOrdered(id: ListId)
      requires Valid() && id !in lists && id < issued
      modifies this
      ensures Valid()
      ensures lists == old(lists)[id := ListEntry(ContractList, |old(order)| + 1)]
      ensures order == old(order) + [id] && issued == old(issued)
    {
      var instanceNum := ContractListCount(lists) + 1;
      CountIsRegistrations(lists, order, issued);
      lists := lists[id := ListEntry(ContractList, instanceNum)];
      order := order + [id];
    }

    /** `lists[id]`, undefined when `id` was never registered. */
    function Lookup(id: ListId): (e: Option<ListEntry>)
      reads this
      requires Valid()
      ensures e.Some? <==> id in lists
      ensures e.Some? ==> e.value.reference == ContractList && 1 <= e.value.instance <= |order|
      ensures forall i :: 0 <= i < |order| && order[i] == id ==> e == Some(ListEntry(ContractList, i + 1))
    {
      if id in lists then Some(lists[id]) else None
    }
  }
}
