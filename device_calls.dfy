/**
 * The calls both versions of `getDevice` make: a search for a device
 * flashed with the build, then, each time none is found, a flash run and
 * another search. `F` is the version's filter type.
 */
module DeviceCalls {
  import opened Remote
  import opened WrapperCommon

  /** A call `getDevice` makes, with the filters passed and what came back. */
  datatype Call<F> =
    | Search(filters: seq<F>, answer: Outcome<Option<Device>>)
    | Flash(filters: seq<F>, outcome: Outcome<bool>)

  /** A call after which `getDevice` goes on: a search that found nothing, a flash that did not raise. */
  predicate GoesOn<F>(c: Call<F>) {
    if c.Search? then c.answer == Ok(None) else c.outcome.Ok?
  }

  /**
   * The calls alternate, starting with a search; the k-th search uses the
   * search filters and gets `answers(k)`, the k-th flash uses the flash
   * filters and ends with `flashes(k)`.
   */
  predicate Alternates<F(==)>(calls: seq<Call<F>>, searchFilters: seq<F>, flashFilters: seq<F>,
                             answers: nat -> Outcome<Option<Device>>, flashes: nat -> Outcome<bool>) {
    && (forall i :: 0 <= i < |calls| ==> (calls[i].Search? <==> i % 2 == 0))
    && (forall i :: 0 <= i < |calls| && i % 2 == 0 ==> calls[i] == Search(searchFilters, answers(i / 2)))
    && (forall i :: 0 <= i < |calls| && i % 2 == 1 ==> calls[i] == Flash(flashFilters, flashes(i / 2)))
  }

  lemma AlternatesAppend<F>(calls: seq<Call<F>>, searchFilters: seq<F>, flashFilters: seq<F>,
                               answers: nat -> Outcome<Option<Device>>, flashes: nat -> Outcome<bool>, k: nat, c: Call<F>)
    requires Alternates(calls, searchFilters, flashFilters, answers, flashes)
    requires |calls| == 2 * k ==> c == Search(searchFilters, answers(k))
    requires |calls| == 2 * k + 1 ==> c == Flash(flashFilters, flashes(k))
    requires |calls| == 2 * k || |calls| == 2 * k + 1
    ensures Alternates(calls + [c], searchFilters, flashFilters, answers, flashes)
  {
    var n := |calls|;
    assert n % 2 == 0 <==> n == 2 * k;
    assert n == 2 * k ==> n / 2 == k;
  }

  /** Calls `getDevice` makes at most: five searches with four flashes between them. */
  const MaxDeviceCalls: nat := 2 * (FlashRetries + 1) + 1

  /**
   * The contract both versions of `getDevice` keep: between one and
   * `MaxDeviceCalls` calls, alternating, every one but the last going on;
   * the last call decides the result, and a search that still finds
   * nothing ends the calls only at the limit, with "Device flashing failed".
   */
  predicate DeviceCallsEnd<F(==)>(r: Outcome<Device>, calls: seq<Call<F>>, searchFilters: seq<F>, flashFilters: seq<F>,
                                 answers: nat -> Outcome<Option<Device>>, flashes: nat -> Outcome<bool>) {
    && 1 <= |calls| <= MaxDeviceCalls
    && Alternates(calls, searchFilters, flashFilters, answers, flashes)
    && (forall i :: 0 <= i < |calls| - 1 ==> GoesOn(calls[i]))
    && var last := calls[|calls| - 1];
      && (last.Search? && last.answer.Ok? && last.answer.value.Some? ==> r == Ok(last.answer.value.value))
      && (last.Search? && last.answer.Fail? ==> r == Fail(last.answer.error))
      && (last.Search? && last.answer == Ok(None) ==>
            |calls| == MaxDeviceCalls && r == Fail(IoError("Device flashing failed")))
      && (last.Flash? ==> last.outcome.Fail? && r == Fail(last.outcome.error))
  }

  /** A device `getDevice` returns is the answer of its last search, which every earlier search lacked. */
  lemma FoundByLastSearch<F>(r: Outcome<Device>, calls: seq<Call<F>>, searchFilters: seq<F>, flashFilters: seq<F>,
                                answers: nat -> Outcome<Option<Device>>, flashes: nat -> Outcome<bool>)
    requires DeviceCallsEnd(r, calls, searchFilters, flashFilters, answers, flashes) && r.Ok?
    ensures |calls| % 2 == 1 && answers(|calls| / 2) == Ok(Some(r.value))
    ensures forall k :: 0 <= k < |calls| / 2 ==> answers(k) == Ok(None)
  {
    var n := |calls|;
    var last := calls[n - 1];
    if last.Flash? {
      assert false;
    }
    assert (n - 1) % 2 == 0 && (n - 1) / 2 == n / 2;
    assert last == Search(searchFilters, answers(n / 2));
    assert last.answer.Ok? && last.answer.value.Some?;
    forall k | 0 <= k < n / 2
      ensures answers(k) == Ok(None)
    {
      assert (2 * k) % 2 == 0 && (2 * k) / 2 == k;
      assert GoesOn(calls[2 * k]);
    }
  }

  /**
   * What `getDevice` returns from its k-th search on: the device that
   * search finds, or its failure; when it finds nothing, "Device flashing
   * failed" after the fourth flash, otherwise the failure of the k-th flash
   * or what the next search leads to.
   */
  function Lookup(answers: nat -> Outcome<Option<Device>>, flashes: nat -> Outcome<bool>, k: nat): Outcome<Device>
    requires k <= FlashRetries + 1
    decreases FlashRetries + 1 - k
  {
    match answers(k)
    case Fail(e) => Fail(e)
    case Ok(Some(d)) => Ok(d)
    case Ok(None) =>
      if k == FlashRetries + 1 then Fail(IoError("Device flashing failed"))
      else if flashes(k).Fail? then Fail(flashes(k).error)
      else Lookup(answers, flashes, k + 1)
  }

  /** The first `n` searches found nothing and the first `n` flashes did not raise. */
  predicate FlashedBefore(answers: nat -> Outcome<Option<Device>>, flashes: nat -> Outcome<bool>, n: nat) {
    forall k :: 0 <= k < n ==> answers(k) == Ok(None) && flashes(k).Ok?
  }

  lemma {:induction false} LookupSkips(answers: nat -> Outcome<Option<Device>>, flashes: nat -> Outcome<bool>, j: nat, n: nat)
    requires j <= n <= FlashRetries + 1 && FlashedBefore(answers, flashes, n)
    ensures Lookup(answers, flashes, j) == Lookup(answers, flashes, n)
    decreases n - j
  {
    if j < n {
      LookupSkips(answers, flashes, j + 1, n);
    }
  }

  /**
   * A device the n-th search finds, after searches that found nothing and
   * flashes that did not raise, is the device `getDevice` returns; when all
   * five searches find nothing it gives up with "Device flashing failed".
   */
  lemma LookupFindsOrGivesUp(answers: nat -> Outcome<Option<Device>>, flashes: nat -> Outcome<bool>, n: nat)
    requires n <= FlashRetries + 1 && FlashedBefore(answers, flashes, n)
    ensures answers(n).Ok? && answers(n).value.Some? ==> Lookup(answers, flashes, 0) == Ok(answers(n).value.value)
    ensures answers(n).Fail? ==> Lookup(answers, flashes, 0) == Fail(answers(n).error)
    ensures n == FlashRetries + 1 && answers(n) == Ok(None) ==>
      Lookup(answers, flashes, 0) == Fail(IoError("Device flashing failed"))
    ensures n <= FlashRetries && answers(n) == Ok(None) && flashes(n).Fail? ==>
      Lookup(answers, flashes, 0) == Fail(flashes(n).error)
  {
    LookupSkips(answers, flashes, 0, n);
  }

  /** After k passes that went on: 2k alternating calls, none of which ends `getDevice`. */
  predicate PassesGoOn<F(==)>(calls: seq<Call<F>>, searchFilters: seq<F>, flashFilters: seq<F>,
                             answers: nat -> Outcome<Option<Device>>, flashes: nat -> Outcome<bool>, k: nat) {
    && |calls| == 2 * k && k <= FlashRetries + 1
    && Alternates(calls, searchFilters, flashFilters, answers, flashes)
    && (forall i :: 0 <= i < |calls| ==> GoesOn(calls[i]))
  }

  /** A search that finds a device or fails, or the last one, ends `getDevice` with result `r`, which is what `Lookup` says. */
  lemma SearchEnds<F>(calls: seq<Call<F>>, searchFilters: seq<F>, flashFilters: seq<F>,
                      answers: nat -> Outcome<Option<Device>>, flashes: nat -> Outcome<bool>, k: nat, r: Outcome<Device>)
    requires PassesGoOn(calls, searchFilters, flashFilters, answers, flashes, k)
    requires answers(k).Fail? ==> r == Fail(answers(k).error)
    requires answers(k).Ok? && answers(k).value.Some? ==> r == Ok(answers(k).value.value)
    requires answers(k) == Ok(None) ==> k == FlashRetries + 1 && r == Fail(IoError("Device flashing failed"))
    ensures r == Lookup(answers, flashes, k)
    ensures DeviceCallsEnd(r, calls + [Search(searchFilters, answers(k))], searchFilters, flashFilters, answers, flashes)
  {
    AlternatesAppend(calls, searchFilters, flashFilters, answers, flashes, k, Search(searchFilters, answers(k)));
  }

  /** A flash that raises after a search that found nothing ends `getDevice` with the flash's failure. */
  lemma FlashEnds<F>(calls: seq<Call<F>>, searchFilters: seq<F>, flashFilters: seq<F>,
                     answers: nat -> Outcome<Option<Device>>, flashes: nat -> Outcome<bool>, k: nat)
    requires PassesGoOn(calls, searchFilters, flashFilters, answers, flashes, k) && k <= FlashRetries
    requires answers(k) == Ok(None) && flashes(k).Fail?
    ensures Fail(flashes(k).error) == Lookup(answers, flashes, k)
    ensures DeviceCallsEnd(Fail(flashes(k).error),
                           calls + [Search(searchFilters, answers(k))] + [Flash(flashFilters, flashes(k))],
                           searchFilters, flashFilters, answers, flashes)
  {
    var searched := calls + [Search(searchFilters, answers(k))];
    AlternatesAppend(calls, searchFilters, flashFilters, answers, flashes, k, Search(searchFilters, answers(k)));
    AlternatesAppend(searched, searchFilters, flashFilters, answers, flashes, k, Flash(flashFilters, flashes(k)));
  }

  /** A search that finds nothing and a flash that does not raise leave `getDevice` to its next search. */
  lemma PassGoesOn<F>(calls: seq<Call<F>>, searchFilters: seq<F>, flashFilters: seq<F>,
                      answers: nat -> Outcome<Option<Device>>, flashes: nat -> Outcome<bool>, k: nat)
    requires PassesGoOn(calls, searchFilters, flashFilters, answers, flashes, k) && k <= FlashRetries
    requires answers(k) == Ok(None) && flashes(k).Ok?
    ensures Lookup(answers, flashes, k) == Lookup(answers, flashes, k + 1)
    ensures PassesGoOn(calls + [Search(searchFilters, answers(k))] + [Flash(flashFilters, flashes(k))],
                       searchFilters, flashFilters, answers, flashes, k + 1)
  {
    var searched := calls + [Search(searchFilters, answers(k))];
    AlternatesAppend(calls, searchFilters, flashFilters, answers, flashes, k, Search(searchFilters, answers(k)));
    AlternatesAppend(searched, searchFilters, flashFilters, answers, flashes, k, Flash(flashFilters, flashes(k)));
  }
}
