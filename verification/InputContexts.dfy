// apps/windows-ui/src/u64-identity.ts and the pure functions of remote-input-context.ts.
module InputContexts {
  import opened Decimal

  const U64_MAX := 18446744073709551615

  datatype RemoteInputContext = RemoteInputContext(streamId: string, inputEpoch: string)

  predicate IsU64Identity(value: string)
  {
    && 0 < |value| <= 20
    && value[0] != '0'
    && IsDigits(value)
    && Value(value) <= U64_MAX
  }

  predicate ValidInputContext(context: RemoteInputContext)
  {
    IsU64Identity(context.streamId) && IsU64Identity(context.inputEpoch)
  }

  // "Lossless identity": every positive 64-bit number has exactly one accepted spelling,
  // so the text comparison of contexts is the comparison of the numbers they carry.
  lemma IdentityIsLossless(n: nat)
    requires 0 < n <= U64_MAX
    ensures IsU64Identity(Print(n)) && Value(Print(n)) == n
    ensures forall s :: IsU64Identity(s) && Value(s) == n ==> s == Print(n)
  {
    ValueOfPrint(n);
    assert PowerOfTen(5, 100000);
    assert PowerOfTen(10, 10000000000);
    assert PowerOfTen(15, 1000000000000000);
    assert PowerOfTen(20, 100000000000000000000);
    PrintLength(n, 20, 100000000000000000000);
    forall s | IsU64Identity(s) && Value(s) == n
      ensures s == Print(n)
    {
      PrintOfValue(s);
    }
  }

  // Nothing but these spellings is accepted.
  lemma IdentitiesAreExact(value: string)
    ensures IsU64Identity(value) <==> exists n: nat :: 0 < n <= 0xFFFF_FFFF_FFFF_FFFF && value == Print(n)
  {
    if IsU64Identity(value) {
      PrintOfValue(value);
    }
    if n: nat :| 0 < n <= 0xFFFF_FFFF_FFFF_FFFF && value == Print(n) {
      IdentityIsLossless(n);
    }
  }

  // Comparing two contexts as text is comparing the numbers they carry.
  lemma ContextsCompareAsNumbers(a: RemoteInputContext, b: RemoteInputContext)
    requires ValidInputContext(a) && ValidInputContext(b)
    ensures a == b <==> Value(a.streamId) == Value(b.streamId) && Value(a.inputEpoch) == Value(b.inputEpoch)
  {
    CanonicalIsInjective(a.streamId, b.streamId);
    CanonicalIsInjective(a.inputEpoch, b.inputEpoch);
  }

  lemma {:induction false} PrintLength(n: nat, k: nat, bound: nat)
    requires 0 < k && n < bound && PowerOfTen(k, bound)
    ensures |Print(n)| <= k
  {
    if n >= 10 {
      PrintLength(n / 10, k - 1, bound / 10);
    }
  }

  ghost predicate PowerOfTen(k: nat, bound: nat)
  {
    if k == 0 then bound == 1 else bound % 10 == 0 && PowerOfTen(k - 1, bound / 10)
  }
}
