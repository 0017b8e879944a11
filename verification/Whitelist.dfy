/** The enumerable set behind the venue whitelist: a value array and a table of one-based positions. */
module Whitelist {
  import opened Chain

  predicate Distinct(s: seq<Address>) {
    forall i, j :: 0 <= i < j < |s| ==> s[i] != s[j]
  }

  /** Swap-and-pop: the last element takes the place of the one at `i`. */
  function SwapPop(s: seq<Address>, i: nat): seq<Address>
    requires i < |s|
  {
    s[i := s[|s| - 1]][..|s| - 1]
  }

  function IndexOf(s: seq<Address>, a: Address): (i: nat)
    requires a in s
    ensures i < |s| && s[i] == a
  {
    if s[0] == a then 0 else 1 + IndexOf(s[1..], a)
  }

  function Elements(s: seq<Address>): set<Address> { set a | a in s }

  datatype Edit = Add(venue: Address) | Remove(venue: Address)

  /** One whitelist edit; an edit that would revert changes nothing. */
  function Applied(s: seq<Address>, e: Edit): seq<Address> {
    match e
    case Add(a) => if a == ZERO || a in s then s else s + [a]
    case Remove(a) => if a in s then SwapPop(s, IndexOf(s, a)) else s
  }

  function Replay(edits: seq<Edit>): seq<Address> {
    if |edits| == 0 then [] else Applied(Replay(edits[..|edits| - 1]), edits[|edits| - 1])
  }

  /** The same history on a plain set. */
  function ReplaySet(edits: seq<Edit>): set<Address> {
    if |edits| == 0 then {}
    else
      var s := ReplaySet(edits[..|edits| - 1]);
      match edits[|edits| - 1]
      case Add(a) => if a == ZERO then s else s + {a}
      case Remove(a) => s - {a}
  }

  lemma SwapPopRemoves(s: seq<Address>, i: nat)
    requires Distinct(s) && i < |s|
    ensures Distinct(SwapPop(s, i)) && Elements(SwapPop(s, i)) == Elements(s) - {s[i]}
    ensures |SwapPop(s, i)| == |s| - 1
  {
    var t := SwapPop(s, i);
    forall a | a in Elements(s) - {s[i]}
      ensures a in t
    {
      var k := IndexOf(s, a);
      assert t[if k == |s| - 1 then i else k] == a;
    }
    forall a | a in Elements(t)
      ensures a in s && a != s[i]
    {
      var k := IndexOf(t, a);
      assert t[k] == if k == i then s[|s| - 1] else s[k];
    }
  }

  /** After any history of edits, enumeration visits each listed venue exactly once. */
  lemma {:induction false} HistoryIsASet(edits: seq<Edit>)
    ensures Distinct(Replay(edits)) && Elements(Replay(edits)) == ReplaySet(edits)
    ensures ZERO !in Replay(edits)
  {
    if |edits| > 0 {
      HistoryIsASet(edits[..|edits| - 1]);
      var s, e := Replay(edits[..|edits| - 1]), edits[|edits| - 1];
      if e.Remove? && e.venue in s {
        SwapPopRemoves(s, IndexOf(s, e.venue));
      }
      if e.Remove? && e.venue !in s {
        assert e.venue !in Elements(s);
      }
      assert ZERO !in Elements(s) ==> ZERO !in Elements(Replay(edits));
      assert ZERO in Replay(edits) ==> ZERO in Elements(Replay(edits));
    }
  }

  /** Every address of `values`, and no other, is in the table, at its place counted from one. */
  ghost predicate Indexed(values: seq<Address>, positions: map<Address, nat>) {
    && (forall i :: 0 <= i < |values| ==> values[i] in positions && positions[values[i]] == i + 1)
    && (forall a :: a in positions ==> 1 <= positions[a] <= |values| && values[positions[a] - 1] == a)
  }

  /** Moving the last address to place `i` and forgetting the one that stood there. */
  lemma SwapPopIndexed(values: seq<Address>, positions: map<Address, nat>, i: nat)
    requires Indexed(values, positions) && i < |values|
    ensures var last := values[|values| - 1];
      Indexed(SwapPop(values, i), positions[last := i + 1] - {values[i]})
  {
    var last, gone := values[|values| - 1], values[i];
    var t, p := SwapPop(values, i), positions[last := i + 1] - {gone};
    forall k | 0 <= k < |t|
      ensures t[k] in p && p[t[k]] == k + 1
    {
      assert t[k] == if k == i then last else values[k];
      assert values[k] in positions && last in positions;
    }
    forall a | a in p
      ensures 1 <= p[a] <= |t| && t[p[a] - 1] == a
    {
      assert positions[last] == |values|;
    }
  }

  class AddressSet {
    var values: seq<Address>
    var positions: map<Address, nat>

    ghost predicate Valid()
      reads this
    {
      Indexed(values, positions)
    }

    constructor ()
      ensures Valid() && values == []
    {
      values, positions := [], map[];
    }

    lemma ValidIsDistinct()
      requires Valid()
      ensures Distinct(values) && positions.Keys == Elements(values)
    {
      assert forall a :: a in positions ==> a in values;
    }

    /** `contains`. */
    method Contains(a: Address) returns (r: bool)
      requires Valid()
      ensures r == (a in values)
    {
      ValidIsDistinct();
      assert a in Elements(values) <==> a in values;
      r := a in positions;
    }

    /** `add`. */
    method Insert(a: Address) returns (added: bool)
      requires Valid()
      modifies this
      ensures Valid()
      ensures added == (a !in old(values))
      ensures values == if added then old(values) + [a] else old(values)
    {
      var present := Contains(a);
      if present { return false; }
      values := values + [a];
      positions := positions[a := |values|];
      return true;
    }

    /** `remove`: swap with the last element, pop, forget the position. */
    method Delete(a: Address) returns (removed: bool)
      requires Valid()
      modifies this
      ensures Valid()
      ensures removed == (a in old(values))
      ensures values == if removed then SwapPop(old(values), IndexOf(old(values), a)) else old(values)
    {
      var present := Contains(a);
      if !present { return false; }
      var position := PositionOf(a);
      SwapPopIndexed(values, positions, position - 1);
      ghost var s, p := values, positions;
      var last := values[|values| - 1];
      if position != |values| {
        values := values[position - 1 := last];
        positions := positions[last := position];
      }
      values := values[..|values| - 1];
      positions := positions - {a};
      assert values == SwapPop(s, position - 1);
      assert positions == p[last := position] - {a};
      return true;
    }

    method PositionOf(a: Address) returns (position: nat)
      requires Valid() && a in values
      ensures a in positions && position == positions[a] && position - 1 == IndexOf(values, a)
    {
      assert values[IndexOf(values, a)] == a;
      position := positions[a];
    }
  }
}
