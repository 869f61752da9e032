/** FragmentsHolderCache (src/domain/models/FragmentsHolderCache.ts): the holders of
    the messages being reassembled, by sequence number, with a fluent lookup that
    remembers the last holder found. `ifPresentThen` and `orElse` take callbacks; the
    model has them for the one pair of callbacks the packet factory passes. */
module FragmentsCache {
  import opened Bytes
  import opened GamePacketModels
  import opened Fragments

  class FragmentsHolderCache {
    var fragmentsHolderByFragmentNumber: map<int, FragmentsHolder>
    var lastFoundValue: FragmentsHolder?

    /** Every cached holder is well formed and is cached under one sequence number only. */
    ghost predicate Valid()
      reads this, fragmentsHolderByFragmentNumber.Values
    {
      && (forall k :: k in fragmentsHolderByFragmentNumber ==> fragmentsHolderByFragmentNumber[k].Valid())
      && (forall j, k ::
            (j in fragmentsHolderByFragmentNumber && k in fragmentsHolderByFragmentNumber &&
             fragmentsHolderByFragmentNumber[j] == fragmentsHolderByFragmentNumber[k]) ==> j == k)
    }

    /** The state of every cached holder. */
    function Assemblies(): map<int, Assembly>
      reads this, fragmentsHolderByFragmentNumber.Values
    {
      map k | k in fragmentsHolderByFragmentNumber :: fragmentsHolderByFragmentNumber[k].State()
    }

    constructor ()
      ensures Valid() && fragmentsHolderByFragmentNumber == map[] && lastFoundValue == null
    {
      fragmentsHolderByFragmentNumber := map[];
      lastFoundValue := null;
    }

    /** Remembers the holder of this sequence number, or nothing, and returns the cache. */
    method GetFromCache(fragmentNumber: int) returns (self: FragmentsHolderCache)
      modifies this`lastFoundValue
      ensures self == this
      ensures lastFoundValue == if fragmentNumber in fragmentsHolderByFragmentNumber
                                then fragmentsHolderByFragmentNumber[fragmentNumber] else null
    {
      lastFoundValue := if fragmentNumber in fragmentsHolderByFragmentNumber
                        then fragmentsHolderByFragmentNumber[fragmentNumber] else null;
      self := this;
    }

    /** `ifPresentThen(holder => holder.addFragment(n, buffer))`: the callback returns a
        Map, which is truthy, so the cache itself is returned either way. */
    method IfPresentThenAddFragment(fragmentNumber: int, buffer: seq<byte>) returns (self: FragmentsHolderCache)
      modifies if lastFoundValue != null then {lastFoundValue} else {}
      ensures self == this
      ensures lastFoundValue != null ==>
                lastFoundValue.State() == WithFragment(old(lastFoundValue.State()), fragmentNumber, buffer)
      ensures lastFoundValue != null && old(lastFoundValue.Valid()) ==> lastFoundValue.Valid()
    {
      if lastFoundValue != null {
        var _ := lastFoundValue.AddFragment(fragmentNumber, buffer);
      }
      self := this;
    }

    /** `orElse(() => new FragmentsHolder(fragmentInfo, buffer))`. */
    method OrElseNew(fragmentInfo: FragmentInfo, buffer: seq<byte>) returns (holder: FragmentsHolder)
      ensures lastFoundValue != null ==> holder == lastFoundValue
      ensures lastFoundValue == null ==>
                fresh(holder) && holder.Valid() && holder.State() == NewAssembly(fragmentInfo, buffer)
    {
      if lastFoundValue != null {
        return lastFoundValue;
      }
      holder := new FragmentsHolder(fragmentInfo, buffer);
    }

    method Delete(fragmentNumber: int)
      modifies this`fragmentsHolderByFragmentNumber
      ensures fragmentsHolderByFragmentNumber == old(fragmentsHolderByFragmentNumber) - {fragmentNumber}
      ensures Assemblies() == old(Assemblies()) - {fragmentNumber}
      ensures old(Valid()) ==> Valid()
    {
      fragmentsHolderByFragmentNumber := fragmentsHolderByFragmentNumber - {fragmentNumber};
    }

    method Set(fragmentNumber: int, fragmentHolder: FragmentsHolder)
      modifies this`fragmentsHolderByFragmentNumber
      ensures fragmentsHolderByFragmentNumber == old(fragmentsHolderByFragmentNumber)[fragmentNumber := fragmentHolder]
      ensures Assemblies() == old(Assemblies())[fragmentNumber := fragmentHolder.State()]
      ensures old(Valid()) && fragmentHolder.Valid() &&
              (forall k :: k in old(fragmentsHolderByFragmentNumber) && old(fragmentsHolderByFragmentNumber)[k] == fragmentHolder
                           ==> k == fragmentNumber)
              ==> Valid()
    {
      fragmentsHolderByFragmentNumber := fragmentsHolderByFragmentNumber[fragmentNumber := fragmentHolder];
    }
  }
}
