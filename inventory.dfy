/** The inventory ledger: the set of prize ids the player owns. */
module Inventory {

  /**
   * `HashSet.Add` on the owned set: whether `id` was new, and the set afterwards.
   */
  function Added(owned: set<string>, id: string): (r: (bool, set<string>))
    // reports true exactly when the id was not owned yet
    ensures r.0 <==> id !in owned
    // the id is owned afterwards, whatever was reported
    ensures id in r.1
    // nothing else joins or leaves the set
    ensures forall other :: other != id ==> (other in r.1 <==> other in owned)
    // adding an owned id changes nothing
    ensures !r.0 ==> r.1 == owned
  {
    (id !in owned, owned + {id})
  }

  /** The owned set after adding `ids` in order. */
  function AddAll(owned: set<string>, ids: seq<string>): set<string>
    decreases |ids|
  {
    if |ids| == 0 then owned else AddAll(Added(owned, ids[0]).1, ids[1..])
  }

  /** How many of the `Add` calls for `ids`, made in order, return true. */
  function NewCount(owned: set<string>, ids: seq<string>): nat
    decreases |ids|
  {
    if |ids| == 0 then 0
    else (if Added(owned, ids[0]).0 then 1 else 0) + NewCount(Added(owned, ids[0]).1, ids[1..])
  }

  /**
   * The owned set only grows, and grows by exactly the ids added; the number
   * of `Add` calls that return true is the number of ids that were new, so a
   * duplicate is reported as new at most once.
   */
  lemma {:induction false} AddAllGrows(owned: set<string>, ids: seq<string>)
    ensures owned <= AddAll(owned, ids)
    ensures forall i :: 0 <= i < |ids| ==> ids[i] in AddAll(owned, ids)
    ensures forall x :: x in AddAll(owned, ids) ==> x in owned || x in ids
    ensures NewCount(owned, ids) == |AddAll(owned, ids) - owned|
    decreases |ids|
  {
    if |ids| > 0 {
      var next := Added(owned, ids[0]).1;
      AddAllGrows(next, ids[1..]);
      assert forall i :: 1 <= i < |ids| ==> ids[1..][i - 1] == ids[i];
      var all := AddAll(owned, ids);
      if ids[0] in owned {
        assert next == owned;
      } else {
        assert all - owned == (all - next) + {ids[0]};
        assert ids[0] !in all - next;
      }
    }
  }

  /** `InventoryService`: the `_ownedPrizeIds` hash set. */
  class InventoryService {
    var owned: set<string>

    constructor ()
      ensures owned == {}
    {
      owned := {};
    }

    method Add(prizeId: string) returns (added: bool)
      modifies this
      ensures (added, owned) == Added(old(owned), prizeId)
    {
      added := prizeId !in owned;
      owned := owned + {prizeId};
    }

    /** A pure lookup. */
    function Has(prizeId: string): (b: bool)
      reads this
      ensures b <==> prizeId in owned
    {
      prizeId in owned
    }

    /** The read-only view `Owned`. */
    function Owned(): (s: set<string>)
      reads this
      ensures forall id :: id in s <==> Has(id)
    {
      owned
    }
  }
}
