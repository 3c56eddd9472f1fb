/**
 The outstanding amount of a document (`contract.rs: outstanding`) over the exact addition that keeps
 the library's own display scale (`decimal.rs: exact_add`). The library's checked addition enters as
 a parameter, held only to its documentation: a representable sum is answered as such.
 */
module Balance {
  import opened Wrappers
  import opened Decimals
  import opened ExactArithmetic

  /** What the library promises of a checked sum; one that must round may come back rounded or absent. */
  ghost predicate FaithfulSum(left: Decimal, right: Decimal, sum: Option<Decimal>) {
    Representable(Value(left) + Value(right)) ==> sum.Some? && Value(sum.value) == Value(left) + Value(right)
  }

  /** The equality of decimals as numbers. */
  predicate SameNumber(d: Decimal, e: Decimal)
    ensures SameNumber(d, e) <==> Value(d) == Value(e)
  {
    assert Value(d) == Value(e) ==> Normalize(d) == Normalize(e) by {
      if Value(d) == Value(e) {
        CanonicalUnique(Normalize(d), Normalize(e));
      }
    }
    Normalize(d) == Normalize(e)
  }

  method ExactAddKeepingScale(left: Decimal, right: Decimal, sum: Option<Decimal>) returns (r: Option<Decimal>)
    requires FaithfulSum(left, right, sum)
    ensures r.Some? <==> Representable(Value(left) + Value(right))
    ensures r.Some? ==> r == sum && Value(r.value) == Value(left) + Value(right)
  {
    if sum.None? {
      return None;
    }
    var exact := ExactAdd(left, right);
    if exact.None? || !SameNumber(sum.value, exact.value) {
      return None;
    }
    return sum;
  }

  /** The sum of the first `n` entries. */
  ghost function PrefixSum(entries: seq<Decimal>, n: nat): real
    requires n <= |entries|
  {
    if n == 0 then 0.0 else PrefixSum(entries, n - 1) + Value(entries[n - 1])
  }

  /** Every intermediate sum is itself a decimal; a later cancellation does not excuse one that is not. */
  ghost predicate PrefixesRepresentable(entries: seq<Decimal>) {
    forall n | 0 <= n <= |entries| :: Representable(PrefixSum(entries, n))
  }

  method Outstanding(gross: Option<Decimal>, entries: seq<Decimal>, add: (Decimal, Decimal) -> Option<Decimal>)
    returns (r: Option<Decimal>)
    requires forall l: Decimal, m: Decimal :: FaithfulSum(l, m, add(l, m))
    ensures r.Some? <==>
              && gross.Some? && PrefixesRepresentable(entries)
              && Representable(Value(gross.value) - PrefixSum(entries, |entries|))
    ensures r.Some? ==> Value(r.value) == Value(gross.value) - PrefixSum(entries, |entries|)
  {
    var paid: Decimal := ZERO;
    assert Value(ZERO) == 0.0;
    for i := 0 to |entries|
      invariant Value(paid) == PrefixSum(entries, i)
      invariant forall n | 0 <= n <= i :: Representable(PrefixSum(entries, n))
    {
      var sum := ExactAddKeepingScale(paid, entries[i], add(paid, entries[i]));
      if sum.None? {
        assert !Representable(PrefixSum(entries, i + 1));
        return None;
      }
      assert PrefixSum(entries, i + 1) == Value(sum.value);
      paid := sum.value;
    }
    if gross.None? {
      return None;
    }
    r := ExactAddKeepingScale(gross.value, Negate(paid), add(gross.value, Negate(paid)));
  }
}
