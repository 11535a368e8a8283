/**
 * The two steps every device search takes: resolving each filter to the id
 * of a label, and choosing a device among those carrying all the labels.
 * The two generations of the wrapper differ only in how a label hit is
 * chosen (the first hit, or the first hit whose name matches exactly) and in
 * whether a leased device may be returned; both are parameters here.
 */
module DeviceSearch {
  import opened Remote

  /** One filter as the search sees it: a label group search text and a label search text. */
  datatype LabelQuery = LabelQuery(groupText: string, labelText: string)

  // ---------------------------------------------------------------------
  // Resolving filters to label ids

  /** The index of the first hit whose name equals `text`. */
  function FirstExact(hits: seq<LabelHit>, text: string): (r: Option<nat>)
    ensures r.Some? ==> r.value < |hits| && hits[r.value].displayName == text
    ensures r.Some? ==> forall j :: 0 <= j < r.value ==> hits[j].displayName != text
    ensures r.None? ==> forall j :: 0 <= j < |hits| ==> hits[j].displayName != text
  {
    if hits == [] then None
    else if hits[0].displayName == text then Some(0)
    else
      match FirstExact(hits[1..], text)
      case None => None
      case Some(j) => Some(j + 1)
  }

  /**
   * The label id one filter resolves to: the first label group the search
   * returns, then among that group's label hits the first one (or, with
   * `exact`, the first whose name equals the filter's text). None when a
   * search comes back empty or no hit matches; a failed call's exception.
   */
  function Resolve(farm: Farm, q: LabelQuery, exact: bool): Outcome<Option<int>> {
    match farm.labelGroups(q.groupText)
    case Fail(e) => Fail(e)
    case Ok(groups) =>
      if groups == [] then Ok(None)
      else
        match farm.labels(groups[0].id, q.labelText)
        case Fail(e) => Fail(e)
        case Ok(hits) =>
          if hits == [] then Ok(None)
          else if !exact then Ok(Some(hits[0].id))
          else
            match FirstExact(hits, q.labelText)
            case None => Ok(None)
            case Some(j) => Ok(Some(hits[j].id))
  }

  predicate Resolved(farm: Farm, q: LabelQuery, exact: bool) {
    Resolve(farm, q, exact).Ok? && Resolve(farm, q, exact).value.Some?
  }

  /** The inner loop of the current search: the index of the first exact hit, or the list's length. */
  method FindExactLabel(hits: seq<LabelHit>, text: string) returns (index: nat)
    ensures index <= |hits|
    ensures index < |hits| <==> FirstExact(hits, text).Some?
    ensures index < |hits| ==> FirstExact(hits, text) == Some(index)
  {
    index := 0;
    while index < |hits|
      invariant index <= |hits|
      invariant forall j :: 0 <= j < index ==> hits[j].displayName != text
    {
      if hits[index].displayName == text {
        break;
      }
      index := index + 1;
    }
  }

  predicate AllResolved(farm: Farm, queries: seq<LabelQuery>, exact: bool) {
    forall i :: 0 <= i < |queries| ==> Resolved(farm, queries[i], exact)
  }

  /** The label ids of filters that all resolve, in filter order. */
  function ResolvedIds(farm: Farm, queries: seq<LabelQuery>, exact: bool): (ids: seq<int>)
    requires AllResolved(farm, queries, exact)
    ensures |ids| == |queries|
    ensures forall i :: 0 <= i < |queries| ==> Resolve(farm, queries[i], exact) == Ok(Some(ids[i]))
  {
    seq(|queries|, i requires 0 <= i < |queries| => Resolve(farm, queries[i], exact).value.value)
  }

  /** The first filter that does not resolve. */
  function FirstUnresolved(farm: Farm, queries: seq<LabelQuery>, exact: bool): (i: nat)
    requires !AllResolved(farm, queries, exact)
    ensures i < |queries| && !Resolved(farm, queries[i], exact)
    ensures forall j :: 0 <= j < i ==> Resolved(farm, queries[j], exact)
  {
    if !Resolved(farm, queries[0], exact) then 0
    else
      assert !AllResolved(farm, queries[1..], exact) by {
        var i :| 0 <= i < |queries| && !Resolved(farm, queries[i], exact);
        assert queries[1..][i - 1] == queries[i];
      }
      var i := FirstUnresolved(farm, queries[1..], exact);
      assert forall j :: 1 <= j < i + 1 ==> queries[j] == queries[1..][j - 1];
      i + 1
  }

  /**
   * What resolving a list of filters yields: the ids of all their labels,
   * or else what the first filter that does not resolve yields (no label:
   * None; a failing search: its exception).
   */
  function LabelIds(farm: Farm, queries: seq<LabelQuery>, exact: bool): Outcome<Option<seq<int>>> {
    if AllResolved(farm, queries, exact) then Ok(Some(ResolvedIds(farm, queries, exact)))
    else
      match Resolve(farm, queries[FirstUnresolved(farm, queries, exact)], exact)
      case Fail(e) => Fail(e)
      case Ok(_) => Ok(None)
  }

  /** A filter list that resolves yields one id per filter; resolution stops at the first filter that does not. */
  lemma LabelIdsOrder(farm: Farm, queries: seq<LabelQuery>, exact: bool, i: nat)
    requires i < |queries|
    ensures LabelIds(farm, queries, exact).Ok? && LabelIds(farm, queries, exact).value.Some? ==>
      |LabelIds(farm, queries, exact).value.value| == |queries| &&
      Resolve(farm, queries[i], exact) == Ok(Some(LabelIds(farm, queries, exact).value.value[i]))
    ensures !Resolved(farm, queries[i], exact) ==>
      !(LabelIds(farm, queries, exact).Ok? && LabelIds(farm, queries, exact).value.Some?)
    ensures Resolve(farm, queries[i], exact).Fail? && (forall j :: 0 <= j < i ==> Resolved(farm, queries[j], exact)) ==>
      LabelIds(farm, queries, exact) == Fail(Resolve(farm, queries[i], exact).error)
  {
    if Resolve(farm, queries[i], exact).Fail? && (forall j :: 0 <= j < i ==> Resolved(farm, queries[j], exact)) {
      var f := FirstUnresolved(farm, queries, exact);
      assert !(f < i);
    }
  }

  /** The filter loop of the search. */
  method ResolveLabelIds(farm: Farm, queries: seq<LabelQuery>, exact: bool) returns (r: Outcome<Option<seq<int>>>)
    ensures r == LabelIds(farm, queries, exact)
  {
    var ids: seq<int> := [];
    for i := 0 to |queries|
      invariant |ids| == i
      invariant forall j :: 0 <= j < i ==> Resolve(farm, queries[j], exact) == Ok(Some(ids[j]))
    {
      var q := queries[i];
      var groups := farm.labelGroups(q.groupText);
      if groups.Fail? {
        UnresolvedAt(farm, queries, exact, i);
        return Fail(groups.error);
      }
      if groups.value == [] {
        UnresolvedAt(farm, queries, exact, i);
        return Ok(None);
      }
      var hits := farm.labels(groups.value[0].id, q.labelText);
      if hits.Fail? {
        UnresolvedAt(farm, queries, exact, i);
        return Fail(hits.error);
      }
      if hits.value == [] {
        UnresolvedAt(farm, queries, exact, i);
        return Ok(None);
      }
      var index := 0;
      if exact {
        index := FindExactLabel(hits.value, q.labelText);
        if |hits.value| <= index {
          UnresolvedAt(farm, queries, exact, i);
          return Ok(None);
        }
      }
      ids := ids + [hits.value[index].id];
    }
    assert ids == ResolvedIds(farm, queries, exact);
    return Ok(Some(ids));
  }

  lemma UnresolvedAt(farm: Farm, queries: seq<LabelQuery>, exact: bool, i: nat)
    requires i < |queries| && !Resolved(farm, queries[i], exact)
    requires forall j :: 0 <= j < i ==> Resolve(farm, queries[j], exact).Ok? && Resolve(farm, queries[j], exact).value.Some?
    ensures LabelIds(farm, queries, exact) ==
      match Resolve(farm, queries[i], exact)
      case Fail(e) => Fail(e)
      case Ok(_) => Ok(None)
  {
    var f := FirstUnresolved(farm, queries, exact);
    assert !(f < i) && !(i < f);
  }

  // ---------------------------------------------------------------------
  // Choosing a device

  predicate NoneFreeBefore(devices: seq<Device>, i: nat)
    requires i <= |devices|
  {
    forall j :: 0 <= j < i ==> !Free(devices[j])
  }

  predicate NoneTakenAfter(devices: seq<Device>, i: nat)
    requires i < |devices|
  {
    forall j :: i < j < |devices| ==> !Taken(devices[j])
  }

  /** The first device that can be leased right away. */
  function FirstFree(devices: seq<Device>): (r: Option<Device>)
    ensures r.Some? ==> r.value in devices && Free(r.value)
    ensures r.Some? ==> exists i :: 0 <= i < |devices| && devices[i] == r.value && NoneFreeBefore(devices, i)
    ensures r.None? <==> NoneFreeBefore(devices, |devices|)
  {
    if devices == [] then None
    else if Free(devices[0]) then Some(devices[0])
    else
      var r := FirstFree(devices[1..]);
      assert r.Some? ==> exists i :: 0 <= i < |devices| && devices[i] == r.value && NoneFreeBefore(devices, i) by {
        if r.Some? {
          var i :| 0 <= i < |devices[1..]| && devices[1..][i] == r.value && NoneFreeBefore(devices[1..], i);
          assert devices[i + 1] == r.value;
          assert forall j :: 1 <= j < i + 1 ==> devices[j] == devices[1..][j - 1];
        }
      }
      r
  }

  /** The last online device that is already leased. */
  function LastTaken(devices: seq<Device>): (r: Option<Device>)
    ensures r.Some? ==> r.value in devices && Taken(r.value)
    ensures r.Some? ==> exists i :: 0 <= i < |devices| && devices[i] == r.value && NoneTakenAfter(devices, i)
    ensures r.None? <==> forall i :: 0 <= i < |devices| ==> !Taken(devices[i])
  {
    if devices == [] then None
    else if Taken(devices[|devices| - 1]) then Some(devices[|devices| - 1])
    else
      var init := devices[..|devices| - 1];
      var r := LastTaken(init);
      assert forall j :: 0 <= j < |init| ==> init[j] == devices[j];
      r
  }

  /**
   * The device a search settles on: the first free one; failing that, when
   * leased devices are allowed, the last leased one; otherwise none.
   */
  function Choice(devices: seq<Device>, lockedAllowed: bool): Option<Device> {
    if FirstFree(devices).Some? then FirstFree(devices)
    else if lockedAllowed then LastTaken(devices)
    else None
  }

  /** The device loop of the search. */
  method SelectDevice(devices: seq<Device>, lockedAllowed: bool) returns (d: Option<Device>)
    ensures d == Choice(devices, lockedAllowed)
  {
    var locked: Option<Device> := None;
    for i := 0 to |devices|
      invariant FirstFree(devices[..i]).None?
      invariant locked == LastTaken(devices[..i])
    {
      var dev := devices[i];
      if Free(dev) {
        FreeAt(devices, i);
        return Some(dev);
      } else if Taken(dev) {
        locked := Some(dev);
      }
      SelectStep(devices, i);
    }
    assert devices[..|devices|] == devices;
    if lockedAllowed {
      return locked;
    }
    return None;
  }

  /** A device that is not free extends a prefix without free devices; a taken one becomes the last taken. */
  lemma SelectStep(devices: seq<Device>, i: nat)
    requires i < |devices| && FirstFree(devices[..i]).None? && !Free(devices[i])
    ensures FirstFree(devices[..i + 1]).None?
    ensures LastTaken(devices[..i + 1]) == if Taken(devices[i]) then Some(devices[i]) else LastTaken(devices[..i])
  {
    assert devices[..i + 1] == devices[..i] + [devices[i]];
    assert devices[..i + 1][..i] == devices[..i];
    FirstFreeAppend(devices[..i], [devices[i]]);
  }

  /** The first free device after a prefix without free devices is the first free device. */
  lemma FreeAt(devices: seq<Device>, i: nat)
    requires i < |devices| && FirstFree(devices[..i]).None? && Free(devices[i])
    ensures FirstFree(devices) == Some(devices[i])
  {
    FirstFreeAppend(devices[..i], devices[i..]);
    assert devices[..i] + devices[i..] == devices;
    assert devices[i..][0] == devices[i];
  }

  lemma FirstFreeAppend(a: seq<Device>, b: seq<Device>)
    requires FirstFree(a).None?
    ensures FirstFree(a + b) == FirstFree(b)
  {
    if a != [] {
      assert (a + b)[1..] == a[1..] + b;
      assert FirstFree(a[1..]).None? by {
        assert forall i :: 0 <= i < |a[1..]| ==> a[1..][i] == a[i + 1];
      }
      FirstFreeAppend(a[1..], b);
      assert (a + b)[0] == a[0] && !Free(a[0]);
    } else {
      assert a + b == b;
    }
  }

  /** Whatever the choice, it is an online device of the list, and a free one unless leased devices are allowed. */
  lemma ChoiceIsOnline(devices: seq<Device>, lockedAllowed: bool)
    ensures var c := Choice(devices, lockedAllowed);
      c.Some? ==> c.value in devices && c.value.online && (lockedAllowed || Free(c.value))
  {
  }

  /** A free device always wins over a leased one. */
  lemma FreeDeviceIsPreferred(devices: seq<Device>, lockedAllowed: bool, i: nat)
    requires i < |devices| && Free(devices[i])
    ensures Choice(devices, lockedAllowed).Some? && Free(Choice(devices, lockedAllowed).value)
  {
  }

  /** Allowing leased devices only adds an answer where there was none. */
  lemma LockedFallbackOnlyWhenNoneFree(devices: seq<Device>)
    ensures Choice(devices, false).Some? ==> Choice(devices, true) == Choice(devices, false)
    ensures Choice(devices, true) != Choice(devices, false) ==>
      Choice(devices, false).None? && NoneFreeBefore(devices, |devices|)
  {
  }

  /** A reordering of a device list: the same devices, each as often. */
  ghost predicate IsShuffle(shuffle: seq<Device> -> seq<Device>) {
    forall s :: multiset(shuffle(s)) == multiset(s)
  }

  /** The answers one device search gets: the farm's, and the order `Collections.shuffle` puts the devices in. */
  datatype SearchIo = SearchIo(farm: Farm, shuffle: seq<Device> -> seq<Device>)

  /**
   * Choosing from a reordered list: the choice is an online device of the
   * original list, a free one whenever the list has one, and some online
   * device whenever leased ones are allowed and the list has one.
   */
  lemma ChoiceAfterShuffle(devices: seq<Device>, shuffled: seq<Device>, lockedAllowed: bool)
    requires multiset(shuffled) == multiset(devices)
    ensures var c := Choice(shuffled, lockedAllowed);
      c.Some? ==> c.value in devices && c.value.online && (lockedAllowed || Free(c.value))
    ensures (exists i :: 0 <= i < |devices| && Free(devices[i])) ==>
      Choice(shuffled, lockedAllowed).Some? && Free(Choice(shuffled, lockedAllowed).value)
    ensures lockedAllowed && (exists i :: 0 <= i < |devices| && devices[i].online) ==>
      Choice(shuffled, true).Some?
  {
    forall d ensures d in shuffled <==> d in devices {
      assert d in shuffled <==> d in multiset(shuffled);
      assert d in devices <==> d in multiset(devices);
    }
    if i :| 0 <= i < |devices| && Free(devices[i]) {
      assert devices[i] in shuffled;
      var j :| 0 <= j < |shuffled| && shuffled[j] == devices[i];
      FreeDeviceIsPreferred(shuffled, lockedAllowed, j);
    }
    if i :| 0 <= i < |devices| && devices[i].online {
      assert devices[i] in shuffled;
      var j :| 0 <= j < |shuffled| && shuffled[j] == devices[i];
      assert Free(shuffled[j]) || Taken(shuffled[j]);
    }
  }
}
