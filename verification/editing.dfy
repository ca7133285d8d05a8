/** The two editors of the pending game result: the "paid immediately" toggle
    and the carry-forward amount field, as their `onClick`/`onChange` handlers
    rebuild the lists. */
module Editing {
  import opened Common
  import opened Model
  import opened Settlement

  /** The "paid" toggle: a listed name is filtered out (every copy of it),
      an unlisted one is appended. Only `name`'s membership flips. */
  function TogglePaid(paid: seq<string>, name: string): (r: seq<string>)
    ensures name in r <==> name !in paid
    ensures forall x :: x != name ==> (x in r <==> x in paid)
  {
    if name in paid then Filter(paid, Except(name)) else paid + [name]
  }

  /** Toggling twice restores the paid list's contents. */
  lemma ToggleTwiceSameContents(paid: seq<string>, name: string)
    ensures forall x :: x in TogglePaid(TogglePaid(paid, name), name) <==> x in paid
  {
  }

  /** Toggling an unlisted name twice restores the paid list exactly. */
  lemma {:induction false} ToggleTwiceRestores(paid: seq<string>, name: string)
    requires name !in paid
    ensures TogglePaid(TogglePaid(paid, name), name) == paid
  {
    FilterAppend(paid, name, Except(name));
    FilterAll(paid, Except(name));
  }

  /** Toggling a listed name twice moves it to the end: the contents come back,
      the order need not. */
  lemma ToggleTwiceMayReorder()
    ensures TogglePaid(TogglePaid(["A", "B"], "A"), "A") == ["B", "A"]
  {
    assert Filter(["A", "B"], Except("A")) == ["B"] by {
      assert ["A", "B"][1..] == ["B"];
    }
  }

  /** The carry-forward field of one loser: that player's entries are dropped
      and, when the typed amount is positive, one fresh entry is appended.
      Settlement then reads exactly the typed amount (or 0) for that player and
      the same amount as before for every other player. */
  function SetCarry(cfs: seq<CarryForward>, name: string, amount: int): (r: seq<CarryForward>)
    ensures forall i :: 0 <= i < |r| && r[i].player != name ==> r[i] in cfs
    ensures forall i :: 0 <= i < |cfs| && cfs[i].player != name ==> cfs[i] in r
    ensures forall e: CarryForward :: e.player != name ==> multiset(r)[e] == multiset(cfs)[e]
    ensures Count(r, For(name)) == if amount > 0 then 1 else 0
    ensures CarriedAmount(r, name) == if amount > 0 then amount else 0
    ensures forall other :: other != name ==> CarriedAmount(r, other) == CarriedAmount(cfs, other)
  {
    OthersKeepTheirEntries(cfs, name, amount);
    OthersKeepTheirCarry(cfs, name, amount);
    EditedReadBack(cfs, name, amount);
    var updated := Filter(cfs, NotFor(name));
    if amount > 0 then updated + [CarryForward(name, amount)] else updated
  }

  /** After an edit, `name` has one entry holding the typed amount when it is
      positive and none otherwise, so settlement reads that amount or 0. */
  lemma EditedReadBack(cfs: seq<CarryForward>, name: string, amount: int)
    ensures var updated := Filter(cfs, NotFor(name));
      var r := if amount > 0 then updated + [CarryForward(name, amount)] else updated;
      && Count(r, For(name)) == (if amount > 0 then 1 else 0)
      && CarriedAmount(r, name) == (if amount > 0 then amount else 0)
  {
    var updated := Filter(cfs, NotFor(name));
    FilterCount(cfs, name, name);
    assert forall i :: 0 <= i < |updated| ==> updated[i].player != name;
    if amount > 0 {
      var e := CarryForward(name, amount);
      CountAppend(updated, e, For(name));
      assert forall j :: 0 <= j < |updated| ==> (updated + [e])[j] == updated[j];
      assert (updated + [e])[|updated|] == e;
    }
  }

  /** Every other player's entries survive an edit of `name`'s entry, each as
      often as before. */
  lemma OthersKeepTheirEntries(cfs: seq<CarryForward>, name: string, amount: int)
    ensures var updated := Filter(cfs, NotFor(name));
      var r := if amount > 0 then updated + [CarryForward(name, amount)] else updated;
      forall e: CarryForward :: e.player != name ==> multiset(r)[e] == multiset(cfs)[e]
  {
    FilterMultiset(cfs, NotFor(name));
  }

  /** Settlement reads the same carried amount for every player but `name`
      after `name`'s entry is edited. */
  lemma {:induction false} OthersKeepTheirCarry(cfs: seq<CarryForward>, name: string, amount: int)
    ensures var updated := Filter(cfs, NotFor(name));
      var r := if amount > 0 then updated + [CarryForward(name, amount)] else updated;
      forall other :: other != name ==> CarriedAmount(r, other) == CarriedAmount(cfs, other)
  {
    var updated := Filter(cfs, NotFor(name));
    forall other | other != name
      ensures FindCarry(updated, other) == FindCarry(cfs, other)
      ensures FindCarry(updated + [CarryForward(name, amount)], other) == FindCarry(cfs, other)
    {
      FindAfterFilter(cfs, name, other);
      FindAfterAppend(updated, CarryForward(name, amount), other);
    }
  }

  /** Dropping `name`'s entries removes exactly those from every player's count. */
  lemma {:induction false} FilterCount(cfs: seq<CarryForward>, name: string, p: string)
    ensures Count(Filter(cfs, NotFor(name)), For(p)) == if p == name then 0 else Count(cfs, For(p))
  {
    if |cfs| > 0 {
      FilterCount(cfs[1..], name, p);
      var head := if cfs[0].player != name then [cfs[0]] else [];
      CountConcat(head, Filter(cfs[1..], NotFor(name)), For(p));
    }
  }

  /** Dropping `name`'s entries does not change what is found for another player. */
  lemma {:induction false} FindAfterFilter(cfs: seq<CarryForward>, name: string, other: string)
    requires other != name
    ensures FindCarry(Filter(cfs, NotFor(name)), other) == FindCarry(cfs, other)
  {
    if |cfs| > 0 {
      FindAfterFilter(cfs[1..], name, other);
      var rest := Filter(cfs[1..], NotFor(name));
      if cfs[0].player != name {
        assert ([cfs[0]] + rest)[1..] == rest;
      } else {
        assert [] + rest == rest;
      }
    }
  }

  /** Appending an entry for someone else does not change what is found for `other`. */
  lemma {:induction false} FindAfterAppend(cfs: seq<CarryForward>, e: CarryForward, other: string)
    requires e.player != other
    ensures FindCarry(cfs + [e], other) == FindCarry(cfs, other)
  {
    if |cfs| == 0 {
      assert cfs + [e] == [e];
      assert [e][1..] == [];
    } else {
      assert (cfs + [e])[1..] == cfs[1..] + [e];
      FindAfterAppend(cfs[1..], e, other);
    }
  }

  /** What the carry-forward editor maintains: positive amounts only, and at
      most one entry per player. */
  ghost predicate WellFormedCarries(cfs: seq<CarryForward>)
  {
    && (forall i :: 0 <= i < |cfs| ==> cfs[i].amount > 0)
    && (forall name :: Count(cfs, For(name)) <= 1)
  }

  /** Every edit keeps the carry-forward list well formed. */
  lemma {:induction false} SetCarryKeepsWellFormed(cfs: seq<CarryForward>, name: string, amount: int)
    requires WellFormedCarries(cfs)
    ensures WellFormedCarries(SetCarry(cfs, name, amount))
  {
    var updated := Filter(cfs, NotFor(name));
    var r := SetCarry(cfs, name, amount);
    forall p
      ensures Count(r, For(p)) <= 1
    {
      FilterCount(cfs, name, p);
      if amount > 0 {
        CountAppend(updated, CarryForward(name, amount), For(p));
      }
    }
  }
}
