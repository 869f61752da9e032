/** FragmentsHolder (src/domain/models/FragmentsHolder.ts): the fragments of one
    fragmented message received so far, kept in a JavaScript Map keyed by fragment
    number. A Map iterates in first-insertion order, and overwriting a key keeps its
    place, so the model keeps that order next to the map. */
module Fragments {
  import opened Bytes
  import opened Cursor
  import opened GamePacketModels

  /** The state of a holder as a value: the count it waits for, the fragment numbers
      in insertion order and the payload stored under each. */
  datatype Assembly = Assembly(fragmentsNeeded: int, order: seq<int>, fragments: map<int, seq<byte>>)

  /** The insertion order lists every key of the Map once. */
  predicate WellFormed(a: Assembly)
  {
    && (forall i, j :: 0 <= i < j < |a.order| ==> a.order[i] != a.order[j])
    && (forall i :: 0 <= i < |a.order| ==> a.order[i] in a.fragments)
    && (forall k :: k in a.fragments ==> k in a.order)
  }

  /** The holder's constructor: it waits for fragmentCount fragments and stores the
      first one. */
  function NewAssembly(info: FragmentInfo, buffer: seq<byte>): (a: Assembly)
    ensures WellFormed(a) && |a.fragments| == 1
  {
    Assembly(info.fragmentCount, [info.fragmentNumber], map[info.fragmentNumber := buffer])
  }

  /** addFragment: `Map.set`. A new number goes to the end of the order; a known one
      keeps its place and gets the new payload. */
  function WithFragment(a: Assembly, fragmentNumber: int, buffer: seq<byte>): Assembly
  {
    if fragmentNumber in a.fragments then a.(fragments := a.fragments[fragmentNumber := buffer])
    else a.(order := a.order + [fragmentNumber], fragments := a.fragments[fragmentNumber := buffer])
  }

  /** areFragmentsComplete: `fragmentsNeeded === fragments.size`. */
  predicate IsComplete(a: Assembly)
  {
    a.fragmentsNeeded == |a.fragments|
  }

  /** The payloads of the listed fragment numbers, back to back. */
  function Join(order: seq<int>, fragments: map<int, seq<byte>>): seq<byte>
    requires forall i :: 0 <= i < |order| ==> order[i] in fragments
    decreases |order|
  {
    if order == [] then [] else fragments[order[0]] + Join(order[1..], fragments)
  }

  /** concatAllFragments: `Buffer.concat` of the Map's values in iteration order. */
  function Concatenated(a: Assembly): seq<byte>
    requires WellFormed(a)
  {
    Join(a.order, a.fragments)
  }

  /** Storing a fragment keeps the holder well formed, stores the payload under its
      number and touches no other number: the count grows by one exactly when the
      number is new, an overwrite keeps the insertion order, and the count awaited
      never changes. */
  lemma WithFragmentEffect(a: Assembly, n: int, buffer: seq<byte>)
    requires WellFormed(a)
    ensures var b := WithFragment(a, n, buffer);
      && WellFormed(b)
      && n in b.fragments && b.fragments[n] == buffer
      && (forall k :: k != n ==> (k in b.fragments <==> k in a.fragments))
      && (forall k :: k != n && k in a.fragments ==> b.fragments[k] == a.fragments[k])
      && |b.fragments| == (if n in a.fragments then |a.fragments| else |a.fragments| + 1)
      && b.order == (if n in a.fragments then a.order else a.order + [n])
      && b.fragmentsNeeded == a.fragmentsNeeded
  {
    var b := WithFragment(a, n, buffer);
    if n !in a.fragments {
      assert b.fragments.Keys == a.fragments.Keys + {n};
      forall i, j | 0 <= i < j < |b.order|
        ensures b.order[i] != b.order[j]
      {
        if j == |a.order| {
          assert b.order[i] == a.order[i] && a.order[i] in a.fragments;
        }
      }
    } else {
      assert b.fragments.Keys == a.fragments.Keys;
    }
  }

  /** The fragments delivered after the first, in arrival order. */
  function AddAll(a: Assembly, deliveries: seq<(int, seq<byte>)>): Assembly
    decreases |deliveries|
  {
    if deliveries == [] then a
    else
      var last := deliveries[|deliveries| - 1];
      WithFragment(AddAll(a, deliveries[..|deliveries| - 1]), last.0, last.1)
  }

  /** The fragment numbers of the deliveries, in order. */
  function NumbersOf(deliveries: seq<(int, seq<byte>)>): (ns: seq<int>)
    ensures |ns| == |deliveries|
    decreases |deliveries|
  {
    if deliveries == [] then [] else NumbersOf(deliveries[..|deliveries| - 1]) + [deliveries[|deliveries| - 1].0]
  }

  lemma {:induction false} NumbersOfAt(deliveries: seq<(int, seq<byte>)>, i: nat)
    requires i < |deliveries|
    ensures NumbersOf(deliveries)[i] == deliveries[i].0
    decreases |deliveries|
  {
    if i < |deliveries| - 1 {
      NumbersOfAt(deliveries[..|deliveries| - 1], i);
    }
  }

  /** The payloads of the deliveries, back to back. */
  function Flatten(deliveries: seq<(int, seq<byte>)>): seq<byte>
    decreases |deliveries|
  {
    if deliveries == [] then [] else Flatten(deliveries[..|deliveries| - 1]) + deliveries[|deliveries| - 1].1
  }

  /** Deliveries with pairwise different numbers that the holder does not know yet. */
  predicate FreshNumbers(a: Assembly, deliveries: seq<(int, seq<byte>)>)
  {
    && (forall i, j :: 0 <= i < j < |deliveries| ==> deliveries[i].0 != deliveries[j].0)
    && (forall i :: 0 <= i < |deliveries| ==> deliveries[i].0 !in a.fragments)
  }

  /** Joining the payloads of a longer order adds the last payload at the end. */
  lemma {:induction false} JoinSnoc(order: seq<int>, fragments: map<int, seq<byte>>, n: int)
    requires forall i :: 0 <= i < |order| ==> order[i] in fragments
    requires n in fragments
    ensures Join(order + [n], fragments) == Join(order, fragments) + fragments[n]
    decreases |order|
  {
    if order == [] {
      assert ([] + [n])[1..] == [];
    } else {
      assert (order + [n])[1..] == order[1..] + [n];
      JoinSnoc(order[1..], fragments, n);
    }
  }

  /** Joining only looks at the listed numbers. */
  lemma {:induction false} JoinIgnoresOthers(order: seq<int>, fragments: map<int, seq<byte>>, n: int, buffer: seq<byte>)
    requires forall i :: 0 <= i < |order| ==> order[i] in fragments && order[i] != n
    ensures Join(order, fragments[n := buffer]) == Join(order, fragments)
    decreases |order|
  {
    if order != [] {
      JoinIgnoresOthers(order[1..], fragments, n, buffer);
    }
  }

  /** Fresh fragments are kept one each, in arrival order, and the concatenation is
      the payloads in arrival order: fragment numbers play no part in the order. */
  lemma FreshDeliveries(a: Assembly, deliveries: seq<(int, seq<byte>)>)
    requires WellFormed(a) && FreshNumbers(a, deliveries)
    ensures var b := AddAll(a, deliveries);
      && WellFormed(b)
      && b.fragmentsNeeded == a.fragmentsNeeded
      && |b.fragments| == |a.fragments| + |deliveries|
      && b.order == a.order + NumbersOf(deliveries)
      && Concatenated(b) == Concatenated(a) + Flatten(deliveries)
  {
    FreshShape(a, deliveries);
    FreshJoin(a, deliveries);
  }

  /** The shape part of that: one new number at the end per delivery. */
  lemma {:induction false} FreshShape(a: Assembly, deliveries: seq<(int, seq<byte>)>)
    requires WellFormed(a) && FreshNumbers(a, deliveries)
    ensures var b := AddAll(a, deliveries);
      && WellFormed(b)
      && b.fragmentsNeeded == a.fragmentsNeeded
      && |b.fragments| == |a.fragments| + |deliveries|
      && b.order == a.order + NumbersOf(deliveries)
    decreases |deliveries|
  {
    if deliveries != [] {
      var init := deliveries[..|deliveries| - 1];
      var last := deliveries[|deliveries| - 1];
      assert FreshNumbers(a, init);
      FreshShape(a, init);
      var p := AddAll(a, init);
      NotYetDelivered(a, deliveries, p);
      WithFragmentEffect(p, last.0, last.1);
    }
  }

  /** The concatenation part: each delivery's payload goes to the end. */
  lemma {:induction false} FreshJoin(a: Assembly, deliveries: seq<(int, seq<byte>)>)
    requires WellFormed(a) && FreshNumbers(a, deliveries)
    ensures WellFormed(AddAll(a, deliveries))
    ensures Concatenated(AddAll(a, deliveries)) == Concatenated(a) + Flatten(deliveries)
    decreases |deliveries|
  {
    FreshShape(a, deliveries);
    if deliveries != [] {
      var init := deliveries[..|deliveries| - 1];
      var last := deliveries[|deliveries| - 1];
      assert FreshNumbers(a, init);
      FreshShape(a, init);
      FreshJoin(a, init);
      var p := AddAll(a, init);
      NotYetDelivered(a, deliveries, p);
      FreshStep(p, last.0, last.1);
      assert Flatten(deliveries) == Flatten(init) + last.1;
      AppendAssociates(Concatenated(a), Flatten(init), last.1);
    }
  }

  lemma AppendAssociates(x: seq<byte>, y: seq<byte>, z: seq<byte>)
    ensures x + y + z == x + (y + z)
  {
  }

  /** The last of a run of fresh deliveries is not among those before it. */
  lemma NotYetDelivered(a: Assembly, deliveries: seq<(int, seq<byte>)>, p: Assembly)
    requires WellFormed(a) && FreshNumbers(a, deliveries) && deliveries != []
    requires WellFormed(p) && p.order == a.order + NumbersOf(deliveries[..|deliveries| - 1])
    ensures deliveries[|deliveries| - 1].0 !in p.fragments
  {
    var n := deliveries[|deliveries| - 1].0;
    forall i | 0 <= i < |p.order|
      ensures p.order[i] != n
    {
      if i < |a.order| {
        assert p.order[i] == a.order[i] && a.order[i] in a.fragments;
      } else {
        NumbersOfAt(deliveries[..|deliveries| - 1], i - |a.order|);
      }
    }
  }

  /** One fresh fragment goes to the end of the order and of the concatenation. */
  lemma FreshStep(p: Assembly, n: int, buffer: seq<byte>)
    requires WellFormed(p) && n !in p.fragments
    ensures var b := WithFragment(p, n, buffer);
      && WellFormed(b)
      && b.fragmentsNeeded == p.fragmentsNeeded
      && |b.fragments| == |p.fragments| + 1
      && b.order == p.order + [n]
      && Concatenated(b) == Concatenated(p) + buffer
  {
    WithFragmentEffect(p, n, buffer);
    var b := WithFragment(p, n, buffer);
    JoinSnoc(p.order, b.fragments, n);
    JoinIgnoresOthers(p.order, p.fragments, n, buffer);
  }

  /** A message in 1 + |later| fragments, all with different numbers, is complete after
      its last fragment and not before. */
  lemma CompletesExactlyOnLastFragment(info: FragmentInfo, first: seq<byte>, later: seq<(int, seq<byte>)>, k: nat)
    requires info.fragmentCount == 1 + |later| && k <= |later|
    requires FreshNumbers(NewAssembly(info, first), later)
    ensures IsComplete(AddAll(NewAssembly(info, first), later[..k])) <==> k == |later|
  {
    assert FreshNumbers(NewAssembly(info, first), later[..k]);
    FreshDeliveries(NewAssembly(info, first), later[..k]);
  }

  /** Once a holder has more fragments than it waits for, it never completes again:
      a repeated message with a smaller count is stuck in the cache. */
  lemma {:induction false} OverfullNeverCompletes(a: Assembly, deliveries: seq<(int, seq<byte>)>)
    requires WellFormed(a) && |a.fragments| > a.fragmentsNeeded
    ensures WellFormed(AddAll(a, deliveries)) && !IsComplete(AddAll(a, deliveries))
    ensures |AddAll(a, deliveries).fragments| > a.fragmentsNeeded == AddAll(a, deliveries).fragmentsNeeded
    decreases |deliveries|
  {
    if deliveries != [] {
      var init := deliveries[..|deliveries| - 1];
      var last := deliveries[|deliveries| - 1];
      OverfullNeverCompletes(a, init);
      WithFragmentEffect(AddAll(a, init), last.0, last.1);
    }
  }

  /** A count of zero or less (fragmentCount is read signed) never completes. */
  lemma NonPositiveCountNeverCompletes(info: FragmentInfo, first: seq<byte>, deliveries: seq<(int, seq<byte>)>)
    requires info.fragmentCount <= 0
    ensures !IsComplete(AddAll(NewAssembly(info, first), deliveries))
  {
    OverfullNeverCompletes(NewAssembly(info, first), deliveries);
  }

  /** Fragment 1 arriving before fragment 0 is concatenated first. */
  lemma ArrivalOrderNotFragmentOrder()
    ensures var a := WithFragment(NewAssembly(FragmentInfo(7, 2, 1, 2, 1), [1]), 0, [0]);
      WellFormed(a) && IsComplete(a) && Concatenated(a) == [1, 0]
  {
    var a := WithFragment(NewAssembly(FragmentInfo(7, 2, 1, 2, 1), [1]), 0, [0]);
    assert a.order == [1, 0];
    assert a.fragments.Keys == {1, 0};
    assert Join([0], a.fragments) == [0];
  }

  class FragmentsHolder {
    var fragments: map<int, seq<byte>>
    /** The Map's iteration order. */
    var order: seq<int>
    var fragmentsNeeded: int
    const fragmentInfo: FragmentInfo
    const fragmentBuffer: seq<byte>

    ghost predicate Valid()
      reads this
    {
      WellFormed(State())
    }

    function State(): Assembly
      reads this
    {
      Assembly(fragmentsNeeded, order, fragments)
    }

    constructor (fragmentInfo: FragmentInfo, fragmentBuffer: seq<byte>)
      ensures Valid() && State() == NewAssembly(fragmentInfo, fragmentBuffer)
      ensures this.fragmentInfo == fragmentInfo && this.fragmentBuffer == fragmentBuffer
    {
      this.fragmentInfo := fragmentInfo;
      this.fragmentBuffer := fragmentBuffer;
      fragmentsNeeded := fragmentInfo.fragmentCount;
      fragments := map[fragmentInfo.fragmentNumber := fragmentBuffer];
      order := [fragmentInfo.fragmentNumber];
    }

    method AreFragmentsComplete() returns (complete: bool)
      ensures complete == IsComplete(State())
    {
      complete := fragmentsNeeded == |fragments|;
    }

    /** Returns the updated Map. */
    method AddFragment(fragmentNumber: int, buffer: seq<byte>) returns (m: map<int, seq<byte>>)
      modifies this`fragments, this`order
      ensures State() == WithFragment(old(State()), fragmentNumber, buffer)
      ensures old(Valid()) ==> Valid()
      ensures m == fragments
    {
      if fragmentNumber !in fragments {
        order := order + [fragmentNumber];
      }
      fragments := fragments[fragmentNumber := buffer];
      m := fragments;
      if old(Valid()) {
        WithFragmentEffect(old(State()), fragmentNumber, buffer);
      }
    }

    method ConcatAllFragments() returns (c: BufferCursor)
      requires Valid()
      ensures fresh(c) && c.Valid() && c.cursorPosition == 0 && c.buffer == Concatenated(State())
    {
      c := new BufferCursor(Join(order, fragments));
    }
  }
}
