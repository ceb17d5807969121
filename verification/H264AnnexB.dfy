// apps/windows-ui/src/h264-annex-b.ts: scanning H.264 byte streams for NAL units
// (Annex B, section B.1 of ITU-T Rec. H.264) and prepending parameter sets.
module H264AnnexB {

  newtype byte = x: int | 0 <= x < 256

  const NAL_TYPE_IDR := 5
  const NAL_TYPE_SPS := 7
  const NAL_TYPE_PPS := 8

  // The low five bits of a header byte.
  function NalType(header: byte): (t: nat)
    ensures t == header as nat % 32
  {
    LowFive(header as nat)
  }

  function LowFive(n: nat): (bits: nat)
    ensures bits == n % 32
  {
    if n < 32 then n else LowFive(n - 32)
  }

  // ---------------------------------------------------------------- the scan

  // The length of the start code at i, or 0.
  function CodeLength(bytes: seq<byte>, i: nat): nat
  {
    if i + 2 >= |bytes| || bytes[i] != 0 || bytes[i + 1] != 0 then 0
    else if bytes[i + 2] == 1 then 3
    else if i + 3 < |bytes| && bytes[i + 2] == 0 && bytes[i + 3] == 1 then 4
    else 0
  }

  function FirstCode(bytes: seq<byte>, from: nat): (i: nat)
    ensures from <= i
    decreases |bytes| - from
  {
    if from >= |bytes| || CodeLength(bytes, from) != 0 then from else FirstCode(bytes, from + 1)
  }

  lemma {:induction false} FirstCodeIsFirst(bytes: seq<byte>, from: nat)
    ensures var i := FirstCode(bytes, from);
            && (CodeLength(bytes, i) != 0 || i >= |bytes|)
            && forall k :: from <= k < i ==> CodeLength(bytes, k) == 0
    decreases |bytes| - from
  {
    if from < |bytes| && CodeLength(bytes, from) == 0 {
      FirstCodeIsFirst(bytes, from + 1);
    }
  }

  // The type of the unit whose header byte is at i, if the bytes go that far, and then `rest`.
  function WithHeader(bytes: seq<byte>, i: nat, rest: seq<nat>): seq<nat>
  {
    if i < |bytes| then [NalType(bytes[i])] + rest else rest
  }

  function TypesFrom(bytes: seq<byte>, from: nat): seq<nat>
    decreases |bytes| - from
  {
    var i := FirstCode(bytes, from);
    if i >= |bytes| then []
    else WithHeader(bytes, i + CodeLength(bytes, i), TypesFrom(bytes, i + CodeLength(bytes, i) + 1))
  }

  function NalTypes(bytes: seq<byte>): seq<nat> { TypesFrom(bytes, 0) }

  datatype StartCode = NoCode | Code(index: nat, length: nat)

  // 00 00 01, or 00 00 00 01.
  ghost predicate IsCode(bytes: seq<byte>, i: nat, length: nat)
  {
    && i + length <= |bytes|
    && ((length == 3 && bytes[i..i + 3] == [0, 0, 1]) || (length == 4 && bytes[i..i + 4] == [0, 0, 0, 1]))
  }

  lemma CodeExactly(bytes: seq<byte>, i: nat, length: nat)
    ensures IsCode(bytes, i, length) <==> length != 0 && CodeLength(bytes, i) == length
  {
    if i + 3 <= |bytes| {
      assert bytes[i..i + 3] == [bytes[i], bytes[i + 1], bytes[i + 2]];
    }
    if i + 4 <= |bytes| {
      assert bytes[i..i + 4] == [bytes[i], bytes[i + 1], bytes[i + 2], bytes[i + 3]];
    }
  }

  ghost predicate NoCodeIn(bytes: seq<byte>, from: nat, to: nat)
  {
    forall i, length :: from <= i < to ==> !IsCode(bytes, i, length)
  }

  lemma {:induction false} FirstCodeExactly(bytes: seq<byte>, from: nat)
    ensures var i := FirstCode(bytes, from);
            && NoCodeIn(bytes, from, i)
            && (i < |bytes| ==> IsCode(bytes, i, CodeLength(bytes, i)))
    decreases |bytes| - from
  {
    if from < |bytes| {
      CodeExactly(bytes, from, CodeLength(bytes, from));
      if CodeLength(bytes, from) == 0 {
        FirstCodeExactly(bytes, from + 1);
        forall length: nat ensures !IsCode(bytes, from, length) {
          CodeExactly(bytes, from, length);
        }
      }
    }
  }

  method FindStartCode(bytes: array<byte>, from: nat) returns (code: StartCode)
    ensures code.NoCode? ==> NoCodeIn(bytes[..], from, bytes.Length)
    ensures code.Code? ==>
              && from <= code.index < bytes.Length && IsCode(bytes[..], code.index, code.length)
              && NoCodeIn(bytes[..], from, code.index)
    ensures var i := FirstCode(bytes[..], from);
            code == if i < bytes.Length then Code(i, CodeLength(bytes[..], i)) else NoCode
  {
    FirstCodeExactly(bytes[..], from);
    var index := from;
    while index + 2 < bytes.Length
      invariant from <= index
      invariant FirstCode(bytes[..], index) == FirstCode(bytes[..], from)
    {
      if bytes[index] == 0 && bytes[index + 1] == 0 {
        if bytes[index + 2] == 1 {
          return Code(index, 3);
        }
        if index + 3 < bytes.Length && bytes[index + 2] == 0 && bytes[index + 3] == 1 {
          return Code(index, 4);
        }
      }
      index := index + 1;
    }
    NoCodeAtEnd(bytes[..], index);
    return NoCode;
  }

  lemma {:induction false} NoCodeAtEnd(bytes: seq<byte>, from: nat)
    requires from + 2 >= |bytes|
    ensures FirstCode(bytes, from) >= |bytes|
    decreases |bytes| - from
  {
    if from < |bytes| {
      NoCodeAtEnd(bytes, from + 1);
    }
  }

  method AnnexBNalTypes(bytes: array<byte>) returns (types: seq<nat>)
    ensures types == NalTypes(bytes[..])
  {
    ghost var all := bytes[..];
    types := [];
    var searchFrom := 0;
    while searchFrom < bytes.Length
      invariant types + TypesFrom(all, searchFrom) == NalTypes(all)
      decreases bytes.Length - searchFrom
    {
      var start := FindStartCode(bytes, searchFrom);
      if start.NoCode? {
        break;
      }
      var nalIndex := start.index + start.length;
      TypesStep(all, searchFrom, types);
      if nalIndex < bytes.Length {
        types := types + [NalType(bytes[nalIndex])];
      }
      searchFrom := nalIndex + 1;
    }
    NothingBehind(all, searchFrom);
  }

  lemma TypesStep(bytes: seq<byte>, from: nat, types: seq<nat>)
    requires FirstCode(bytes, from) < |bytes|
    ensures var i := FirstCode(bytes, from); var nal := i + CodeLength(bytes, i);
            types + TypesFrom(bytes, from)
            == (if nal < |bytes| then types + [NalType(bytes[nal])] else types) + TypesFrom(bytes, nal + 1)
  {
  }

  lemma NothingBehind(bytes: seq<byte>, from: nat)
    ensures from >= |bytes| || FirstCode(bytes, from) >= |bytes| ==> TypesFrom(bytes, from) == []
  {
  }

  // The second scanner, which stops at the first unit of the wanted type.
  predicate IsHeaderOf(bytes: seq<byte>, i: nat, nalType: nat) { i < |bytes| && NalType(bytes[i]) == nalType }

  predicate HasFrom(bytes: seq<byte>, index: nat, nalType: nat)
    decreases |bytes| - index
  {
    if index + 2 >= |bytes| then false
    else
      var length := CodeLength(bytes, index);
      if length == 0 then HasFrom(bytes, index + 1, nalType)
      else IsHeaderOf(bytes, index + length, nalType) || HasFrom(bytes, index + length + 1, nalType)
  }

  method HasAnnexBNalType(bytes: array<byte>, nalType: nat) returns (found: bool)
    ensures found <==> nalType in NalTypes(bytes[..])
  {
    ScannersAgree(bytes[..], 0, nalType);
    var index := 0;
    while index + 2 < bytes.Length
      invariant HasFrom(bytes[..], index, nalType) == HasFrom(bytes[..], 0, nalType)
      decreases bytes.Length - index
    {
      var startLength := StartLength(bytes, index);
      if startLength != 0 {
        var nalIndex := index + startLength;
        if nalIndex < bytes.Length && NalType(bytes[nalIndex]) == nalType {
          return true;
        }
        index := nalIndex;
      }
      index := index + 1;
    }
    return false;
  }

  // The two scanners agree on every byte string and every type.
  lemma {:induction false} ScannersAgree(bytes: seq<byte>, from: nat, nalType: nat)
    ensures HasFrom(bytes, from, nalType) <==> nalType in TypesFrom(bytes, from)
    decreases |bytes| - from
  {
    if from + 2 >= |bytes| {
      NoCodeAtEnd(bytes, from);
    } else {
      ScanStep(bytes, from, nalType);
      var length := CodeLength(bytes, from);
      ScannersAgree(bytes, if length == 0 then from + 1 else from + length + 1, nalType);
    }
  }

  // The scanner's own test for a start code.
  method StartLength(bytes: array<byte>, index: nat) returns (startLength: nat)
    requires index + 2 < bytes.Length
    ensures startLength == CodeLength(bytes[..], index)
  {
    if bytes[index] != 0 || bytes[index + 1] != 0 {
      return 0;
    }
    startLength := 0;
    if bytes[index + 2] == 1 {
      startLength := 3;
    } else if index + 3 < bytes.Length && bytes[index + 2] == 0 && bytes[index + 3] == 1 {
      startLength := 4;
    }
  }

  lemma ScanStep(bytes: seq<byte>, i: nat, nalType: nat)
    requires i < |bytes|
    ensures CodeLength(bytes, i) == 0 ==> TypesFrom(bytes, i) == TypesFrom(bytes, i + 1)
    ensures CodeLength(bytes, i) != 0 ==>
              var nal := i + CodeLength(bytes, i);
              nalType in TypesFrom(bytes, i) <==>
                  IsHeaderOf(bytes, nal, nalType) || nalType in TypesFrom(bytes, nal + 1)
  {
  }

  method IsH264Keyframe(accessUnit: array<byte>, signalledKeyframe: bool) returns (keyframe: bool)
    ensures keyframe <==> signalledKeyframe || 5 in NalTypes(accessUnit[..])
  {
    if signalledKeyframe {
      return true;
    }
    keyframe := HasAnnexBNalType(accessUnit, NAL_TYPE_IDR);
  }

  // ---------------------------------------------------------------- what Annex B says

  // A start code prefix 00 00 01, wherever it stands.
  predicate IsPrefix(bytes: seq<byte>, p: nat)
  {
    p + 2 < |bytes| && bytes[p] == 0 && bytes[p + 1] == 0 && bytes[p + 2] == 1
  }

  // The type of every unit header behind a prefix at or after `from`.
  function HeadersFrom(bytes: seq<byte>, from: nat): seq<nat>
    decreases |bytes| - from
  {
    if from >= |bytes| then []
    else (if IsPrefix(bytes, from) && from + 3 < |bytes| then [NalType(bytes[from + 3])] else [])
         + HeadersFrom(bytes, from + 1)
  }

  // A prefix right behind another one, with a header of its own: an empty NAL unit.
  predicate EmptyUnit(bytes: seq<byte>, p: nat)
  {
    IsPrefix(bytes, p) && IsPrefix(bytes, p + 3) && p + 6 < |bytes|
  }

  ghost predicate NoEmptyUnitFrom(bytes: seq<byte>, from: nat)
  {
    forall p :: from <= p ==> !EmptyUnit(bytes, p)
  }

  lemma {:induction false} NoPrefixNoHeader(bytes: seq<byte>, from: nat, to: nat)
    requires from <= to && forall p :: from <= p < to ==> !IsPrefix(bytes, p)
    ensures HeadersFrom(bytes, from) == HeadersFrom(bytes, to)
    decreases |bytes| - from
  {
    if from < to && from < |bytes| {
      NoPrefixNoHeader(bytes, from + 1, to);
    }
  }

  // The prefix inside the first start code is the first prefix.
  function PrefixOf(bytes: seq<byte>, i: nat): nat { if CodeLength(bytes, i) == 4 then i + 1 else i }

  lemma FirstCodeIsFirstPrefix(bytes: seq<byte>, from: nat)
    ensures var i := FirstCode(bytes, from);
            && (i < |bytes| ==>
                IsPrefix(bytes, PrefixOf(bytes, i)) && PrefixOf(bytes, i) + 3 == i + CodeLength(bytes, i))
            && (forall p :: from <= p && (i < |bytes| ==> p < PrefixOf(bytes, i)) ==> !IsPrefix(bytes, p))
  {
    var i := FirstCode(bytes, from);
    FirstCodeIsFirst(bytes, from);
    forall p | from <= p && (i < |bytes| ==> p < PrefixOf(bytes, i))
      ensures !IsPrefix(bytes, p)
    {
      if p < i {
        assert CodeLength(bytes, p) == 0;
      }
    }
  }

  // The scan reports the header behind every prefix exactly when no NAL unit is empty;
  // otherwise it reports fewer, because it never looks for a prefix at a header byte.
  lemma {:induction false} ScanFindsEveryHeader(bytes: seq<byte>, from: nat)
    ensures NoEmptyUnitFrom(bytes, from) ==> TypesFrom(bytes, from) == HeadersFrom(bytes, from)
    ensures !NoEmptyUnitFrom(bytes, from) ==> |TypesFrom(bytes, from)| < |HeadersFrom(bytes, from)|
    decreases |bytes| - from
  {
    var i := FirstCode(bytes, from);
    FirstCodeIsFirstPrefix(bytes, from);
    if i >= |bytes| {
      NoPrefixNoHeader(bytes, from, if from < |bytes| then |bytes| else from);
    } else {
      var p := PrefixOf(bytes, i);
      NoPrefixNoHeader(bytes, from, p);
      BehindPrefix(bytes, p);
      ScanFindsEveryHeader(bytes, p + 4);
      EmptyUnitsFrom(bytes, from, p);
      TypesAt(bytes, from);
    }
  }

  // Behind a prefix the next one can start at its header byte at the earliest.
  lemma NoHeaderIn(bytes: seq<byte>, from: nat)
    requires from < |bytes| && !IsPrefix(bytes, from)
    ensures HeadersFrom(bytes, from) == HeadersFrom(bytes, from + 1)
  {
  }

  // An empty unit and then one of type 9: the scan takes the first byte of the second start code
  // for a header and misses the header behind it.
  lemma EmptyUnitHidesAHeader()
    ensures var bytes: seq<byte> := [0, 0, 1, 0, 0, 1, 9];
            EmptyUnit(bytes, 0) && NalTypes(bytes) == [0] && HeadersFrom(bytes, 0) == [0, 9]
  {
    var bytes: seq<byte> := [0, 0, 1, 0, 0, 1, 9];
    assert FirstCode(bytes, 0) == 0 && CodeLength(bytes, 0) == 3;
    NoCodeAtEnd(bytes, 5);
    assert CodeLength(bytes, 4) == 0 && FirstCode(bytes, 4) == FirstCode(bytes, 5) >= |bytes|;
    assert TypesFrom(bytes, 4) == [];
    NoHeaderIn(bytes, 1);
    NoHeaderIn(bytes, 2);
    NoHeaderIn(bytes, 4);
    NoHeaderIn(bytes, 5);
    NoHeaderIn(bytes, 6);
    assert HeadersFrom(bytes, 7) == [];
    assert IsPrefix(bytes, 3) && HeadersFrom(bytes, 3) == [9] + HeadersFrom(bytes, 4);
    assert IsPrefix(bytes, 0) && HeadersFrom(bytes, 0) == [0] + HeadersFrom(bytes, 1);
  }

  lemma BehindPrefix(bytes: seq<byte>, p: nat)
    requires IsPrefix(bytes, p)
    ensures !EmptyUnit(bytes, p) ==> HeadersFrom(bytes, p) == WithHeader(bytes, p + 3, HeadersFrom(bytes, p + 4))
    ensures EmptyUnit(bytes, p) ==> |HeadersFrom(bytes, p)| == 2 + |HeadersFrom(bytes, p + 4)|
  {
    assert HeadersFrom(bytes, p) == WithHeader(bytes, p + 3, HeadersFrom(bytes, p + 3)) by {
      HeadersStep(bytes, p);
      NoPrefixNoHeader(bytes, p + 1, p + 3);
    }
    HeadersAfterHeader(bytes, p + 3);
  }

  lemma HeadersAfterHeader(bytes: seq<byte>, h: nat)
    ensures !IsPrefix(bytes, h) || h + 3 >= |bytes| ==> HeadersFrom(bytes, h) == HeadersFrom(bytes, h + 1)
    ensures IsPrefix(bytes, h) && h + 3 < |bytes| ==> |HeadersFrom(bytes, h)| == 1 + |HeadersFrom(bytes, h + 1)|
  {
    if h < |bytes| {
      HeadersStep(bytes, h);
    }
  }

  lemma HeadersStep(bytes: seq<byte>, p: nat)
    requires p < |bytes|
    ensures HeadersFrom(bytes, p) ==
            if IsPrefix(bytes, p) then WithHeader(bytes, p + 3, HeadersFrom(bytes, p + 1))
            else HeadersFrom(bytes, p + 1)
  {
  }

  lemma EmptyUnitsFrom(bytes: seq<byte>, from: nat, p: nat)
    requires from <= p && IsPrefix(bytes, p) && forall q :: from <= q < p ==> !IsPrefix(bytes, q)
    ensures NoEmptyUnitFrom(bytes, from) <==> !EmptyUnit(bytes, p) && NoEmptyUnitFrom(bytes, p + 4)
  {
    if !EmptyUnit(bytes, p) && NoEmptyUnitFrom(bytes, p + 4) {
      forall q | from <= q
        ensures !EmptyUnit(bytes, q)
      {
        if q > p && q < p + 4 {
          assert q == p + 3 || !IsPrefix(bytes, q);
        }
      }
    }
  }

  // ---------------------------------------------------------------- headers are a prefix

  lemma CodeInHeader(header: seq<byte>, whole: seq<byte>, i: nat)
    requires header <= whole
    ensures CodeLength(header, i) != 0 ==> CodeLength(whole, i) == CodeLength(header, i)
    ensures i + 3 < |header| ==> CodeLength(whole, i) == CodeLength(header, i)
  {
  }

  lemma {:induction false} FirstCodeInHeader(header: seq<byte>, whole: seq<byte>, from: nat)
    requires header <= whole && FirstCode(header, from) < |header|
    ensures FirstCode(whole, from) == FirstCode(header, from)
    decreases |header| - from
  {
    CodeInHeader(header, whole, from);
    var i := FirstCode(header, from);
    FirstCodeIsFirst(header, from);
    if CodeLength(header, from) == 0 {
      assert i != from && i + 2 < |header|;
      FirstCodeInHeader(header, whole, from + 1);
    }
  }

  lemma {:induction false} HeaderTypesComeFirst(header: seq<byte>, whole: seq<byte>, from: nat)
    requires header <= whole
    ensures TypesFrom(header, from) <= TypesFrom(whole, from)
    decreases |header| - from
  {
    var i := FirstCode(header, from);
    if i < |header| {
      FirstCodeIsFirst(header, from);
      FirstCodeInHeader(header, whole, from);
      CodeInHeader(header, whole, i);
      var nal := i + CodeLength(header, i);
      HeaderTypesComeFirst(header, whole, nal + 1);
      TypesAt(header, from);
      TypesAt(whole, from);
      SameHeader(header, whole, nal, TypesFrom(header, nal + 1), TypesFrom(whole, nal + 1), TypesFrom(header, from),
          TypesFrom(whole, from));
    } else {
      NothingBehind(header, from);
    }
  }

  lemma SameHeader(header: seq<byte>, whole: seq<byte>, nal: nat, s: seq<nat>, t: seq<nat>, front: seq<nat>,
        all: seq<nat>)
    requires header <= whole && s <= t && front == WithHeader(header, nal, s) && all == WithHeader(whole, nal, t)
    requires nal >= |header| ==> s == []
    ensures front <= all
  {
  }

  lemma TypesAt(bytes: seq<byte>, from: nat)
    requires FirstCode(bytes, from) < |bytes|
    ensures var nal := FirstCode(bytes, from) + CodeLength(bytes, FirstCode(bytes, from));
            TypesFrom(bytes, from) == WithHeader(bytes, nal, TypesFrom(bytes, nal + 1))
  {
  }

  // ---------------------------------------------------------------- preparing access units

  predicate HasParameterSets(bytes: seq<byte>)
  {
    NAL_TYPE_SPS in NalTypes(bytes) && NAL_TYPE_PPS in NalTypes(bytes)
  }

  function Prepared(header: seq<byte>, unit: seq<byte>, keyframe: bool): seq<byte>
  {
    if !keyframe || |header| == 0 || HasParameterSets(unit) then unit else header + unit
  }

  method PrepareH264AccessUnit(sequenceHeader: array<byte>, accessUnit: array<byte>, keyframe: bool)
    returns (output: array<byte>)
    ensures output[..] == Prepared(sequenceHeader[..], accessUnit[..], keyframe)
    ensures output[..] ==
            if keyframe && !(7 in NalTypes(accessUnit[..]) && 8 in NalTypes(accessUnit[..]))
            then sequenceHeader[..] + accessUnit[..] else accessUnit[..]
    ensures output == accessUnit || fresh(output)
    ensures !keyframe || sequenceHeader.Length == 0 || HasParameterSets(accessUnit[..]) ==> output == accessUnit
  {
    if !keyframe || sequenceHeader.Length == 0 {
      return accessUnit;
    }
    var types := AnnexBNalTypes(accessUnit);
    if NAL_TYPE_SPS in types && NAL_TYPE_PPS in types {
      return accessUnit;
    }
    output := new byte[sequenceHeader.Length + accessUnit.Length];
    Set(output, sequenceHeader, 0);
    Set(output, accessUnit, sequenceHeader.Length);
  }

  // Uint8Array.set
  method Set(target: array<byte>, source: array<byte>, offset: nat)
    requires offset + source.Length <= target.Length && source != target
    modifies target
    ensures target[..offset] == old(target[..offset])
    ensures target[offset..offset + source.Length] == source[..]
    ensures target[offset + source.Length..] == old(target[offset + source.Length..])
  {
    var i := 0;
    while i < source.Length
      invariant i <= source.Length
      invariant target[..offset] == old(target[..offset])
      invariant target[offset..offset + i] == source[..i]
      invariant target[offset + source.Length..] == old(target[offset + source.Length..])
    {
      target[offset + i] := source[i];
      i := i + 1;
    }
  }

  // A keyframe prepared with a header that carries both parameter sets always carries both.
  lemma PreparedKeyframeHasParameterSets(header: seq<byte>, unit: seq<byte>)
    requires HasParameterSets(header)
    ensures HasParameterSets(Prepared(header, unit, true))
  {
    HeaderTypesComeFirst(header, header + unit, 0);
    assert |header| > 0 by {
      NothingBehind(header, 0);
    }
  }

  // Preparing twice is preparing once exactly when nothing was prepended or the result is
  // complete; a header without both parameter sets is prepended again.
  lemma PreparingTwice(header: seq<byte>, unit: seq<byte>, keyframe: bool)
    ensures Prepared(header, Prepared(header, unit, keyframe), keyframe) == Prepared(header, unit, keyframe)
            <==> !keyframe || |header| == 0 || HasParameterSets(unit) || HasParameterSets(header + unit)
  {
    assert |header + (header + unit)| == |header| + |header + unit|;
  }

  // In particular a header with both sets makes preparation idempotent.
  lemma PreparationIsIdempotent(header: seq<byte>, unit: seq<byte>, keyframe: bool)
    requires HasParameterSets(header)
    ensures Prepared(header, Prepared(header, unit, keyframe), keyframe) == Prepared(header, unit, keyframe)
  {
    HeaderTypesComeFirst(header, header + unit, 0);
    PreparingTwice(header, unit, keyframe);
  }

  // The input where it fails: a header with no parameter set is prepended on every call.
  lemma PreparingTwiceCanDiffer()
    ensures Prepared([9], Prepared([9], [], true), true) == [9, 9] && Prepared([9], [], true) == [9]
  {
    assert NalTypes([]) == [] && NalTypes([9]) == [] by {
      NoCodeAtEnd([], 0);
      NoCodeAtEnd([9], 0);
    }
    assert [9] + [] == [9];
  }
}
