// `rust_delimiters` of scripts/verify-windows-release.py: the map from every opening
// bracket to its closing bracket, or nothing at all.
module RustDelimiters {

  predicate IsOpener(c: char) { c == '(' || c == '[' || c == '{' }

  predicate IsCloser(c: char) { c == ')' || c == ']' || c == '}' }

  function Closer(c: char): char
    requires IsOpener(c)
  {
    if c == '(' then ')' else if c == '[' then ']' else '}'
  }

  // What "matched" means, without a stack: every opener is paired with a later closer of its
  // kind, every closer is the partner of exactly one opener, and pairs are nested or disjoint.
  ghost predicate IsMatching(code: string, m: map<nat, nat>)
  {
    && (forall i <- m :: i < m[i] < |code| && IsOpener(code[i]) && code[m[i]] == Closer(code[i]))
    && (forall i :: 0 <= i < |code| && IsOpener(code[i]) ==> i in m)
    && (forall j :: 0 <= j < |code| && IsCloser(code[j]) ==> IsPartner(m, j))
    && (forall i <- m, k <- m :: i < k ==> m[i] < k || m[k] < m[i])
  }

  ghost predicate IsPartner(m: map<nat, nat>, j: nat)
  {
    exists i <- m :: m[i] == j
  }

  ghost predicate ArePair(opener: char, closer: char)
  {
    (opener == '(' && closer == ')') || (opener == '[' && closer == ']') || (opener == '{' && closer == '}')
  }

  // The same character by character: round, square and curly brackets each in pairs of one kind,
  // none left alone, and any two pairs one inside the other or side by side.
  ghost predicate IsNesting(code: string, m: map<nat, nat>)
  {
    && (forall i <- m :: i < m[i] < |code| && ArePair(code[i], code[m[i]]))
    && (forall i :: 0 <= i < |code| && code[i] in "([{" ==> i in m)
    && (forall j :: 0 <= j < |code| && code[j] in ")]}" ==> IsPartner(m, j))
    && (forall i <- m, k <- m :: i < k ==> m[i] < k || m[k] < m[i])
  }

  ghost predicate Balanced(code: string)
  {
    exists m :: IsNesting(code, m)
  }

  lemma Brackets(c: char, d: char)
    ensures IsOpener(c) <==> c in "([{"
    ensures IsCloser(c) <==> c in ")]}"
    ensures ArePair(c, d) <==> IsOpener(c) && d == Closer(c)
  {
    assert "([{"[0] == '(' && "([{"[1] == '[' && "([{"[2] == '{';
    assert ")]}"[0] == ')' && ")]}"[1] == ']' && ")]}"[2] == '}';
  }

  lemma NestingIsMatching(code: string, m: map<nat, nat>)
    ensures IsNesting(code, m) <==> IsMatching(code, m)
  {
    forall i, j | 0 <= i < |code| && 0 <= j < |code|
      ensures IsOpener(code[i]) <==> code[i] in "([{"
      ensures IsCloser(code[i]) <==> code[i] in ")]}"
      ensures ArePair(code[i], code[j]) <==> IsOpener(code[i]) && code[j] == Closer(code[i])
    {
      Brackets(code[i], code[j]);
    }
  }

  // The scan, from `index` on: openers still open and pairs found so far.
  datatype Scan = Failed | Running(stack: seq<nat>, pairs: map<nat, nat>)

  function Step(code: string, index: nat, s: Scan): Scan
    requires index < |code|
  {
    if s.Failed? then Failed
    else if IsOpener(code[index]) then Running(s.stack + [index], s.pairs)
    else if IsCloser(code[index]) then
      if s.stack == [] then Failed
      else
        var top := s.stack[|s.stack| - 1];
        if top >= |code| || !IsOpener(code[top]) || Closer(code[top]) != code[index] then Failed
        else Running(s.stack[..|s.stack| - 1], s.pairs[top := index])
    else s
  }

  function Scanned(code: string, n: nat): Scan
    requires n <= |code|
  {
    if n == 0 then Running([], map[]) else Step(code, n - 1, Scanned(code, n - 1))
  }

  function Delimiters(code: string): map<nat, nat>
  {
    var s := Scanned(code, |code|);
    if s.Running? && s.stack == [] then s.pairs else map[]
  }

  // ---------------------------------------------------------------- what the scan maintains

  ghost predicate StackOk(code: string, n: nat, stack: seq<nat>)
    requires n <= |code|
  {
    && (forall k :: 0 <= k < |stack| ==> stack[k] < n && IsOpener(code[stack[k]]))
    && (forall j, k :: 0 <= j < k < |stack| ==> stack[j] < stack[k])
  }

  ghost predicate PairsOk(code: string, n: nat, pairs: map<nat, nat>)
    requires n <= |code|
  {
    && (forall i <- pairs :: i < pairs[i] < n && IsOpener(code[i]) && code[pairs[i]] == Closer(code[i]))
    && (forall i <- pairs, k <- pairs :: i < k ==> pairs[i] < k || pairs[k] < pairs[i])
  }

  // An open bracket is not paired, and no pair reaches across it.
  ghost predicate Apart(stack: seq<nat>, pairs: map<nat, nat>)
  {
    forall k :: 0 <= k < |stack| ==> Uncrossed(stack[k], pairs)
  }

  ghost predicate Uncrossed(open: nat, pairs: map<nat, nat>)
  {
    open !in pairs && forall i <- pairs :: i < open ==> pairs[i] < open
  }

  // Every bracket so far is open or paired.
  ghost predicate Covered(code: string, n: nat, stack: seq<nat>, pairs: map<nat, nat>)
    requires n <= |code|
  {
    && (forall i :: 0 <= i < n && IsOpener(code[i]) ==> i in stack || i in pairs)
    && (forall j :: 0 <= j < n && IsCloser(code[j]) ==> IsPartner(pairs, j))
  }

  ghost predicate Consistent(code: string, n: nat, stack: seq<nat>, pairs: map<nat, nat>)
    requires n <= |code|
  {
    StackOk(code, n, stack) && PairsOk(code, n, pairs) && Apart(stack, pairs) && Covered(code, n, stack, pairs)
  }

  lemma {:induction false} ScanIsConsistent(code: string, n: nat)
    requires n <= |code| && Scanned(code, n).Running?
    ensures Consistent(code, n, Scanned(code, n).stack, Scanned(code, n).pairs)
  {
    if n > 0 {
      ScanIsConsistent(code, n - 1);
      StepIsConsistent(code, n - 1, Scanned(code, n - 1));
    }
  }

  lemma StepIsConsistent(code: string, n: nat, s: Scan)
    requires n < |code| && s.Running? && Consistent(code, n, s.stack, s.pairs) && Step(code, n, s).Running?
    ensures Consistent(code, n + 1, Step(code, n, s).stack, Step(code, n, s).pairs)
  {
    if IsOpener(code[n]) {
      PushIsConsistent(code, n, s.stack, s.pairs);
    } else if IsCloser(code[n]) {
      PopIsConsistent(code, n, s.stack, s.pairs);
    } else {
      SkipIsConsistent(code, n, s.stack, s.pairs);
    }
  }

  lemma SkipIsConsistent(code: string, n: nat, stack: seq<nat>, pairs: map<nat, nat>)
    requires n < |code| && Consistent(code, n, stack, pairs) && !IsOpener(code[n]) && !IsCloser(code[n])
    ensures Consistent(code, n + 1, stack, pairs)
  {
  }

  lemma PushIsConsistent(code: string, n: nat, stack: seq<nat>, pairs: map<nat, nat>)
    requires n < |code| && Consistent(code, n, stack, pairs) && IsOpener(code[n])
    ensures Consistent(code, n + 1, stack + [n], pairs)
  {
    assert Uncrossed(n, pairs);
    PushIsCovered(code, n, stack, pairs);
  }

  lemma PushIsCovered(code: string, n: nat, stack: seq<nat>, pairs: map<nat, nat>)
    requires n < |code| && Covered(code, n, stack, pairs) && IsOpener(code[n])
    ensures Covered(code, n + 1, stack + [n], pairs)
  {
    assert n in stack + [n] && forall i :: i in stack ==> i in stack + [n];
  }

  lemma PopIsConsistent(code: string, n: nat, stack: seq<nat>, pairs: map<nat, nat>)
    requires n < |code| && Consistent(code, n, stack, pairs) && IsCloser(code[n])
    requires stack != [] && code[n] == Closer(code[stack[|stack| - 1]])
    ensures Consistent(code, n + 1, stack[..|stack| - 1], pairs[stack[|stack| - 1] := n])
  {
    var top, rest := stack[|stack| - 1], stack[..|stack| - 1];
    assert Uncrossed(top, pairs);
    PopPairs(code, n, top, pairs);
    PopApart(n, stack, pairs);
    PopIsCovered(code, n, stack, pairs);
  }

  lemma PopPairs(code: string, n: nat, top: nat, pairs: map<nat, nat>)
    requires n < |code| && PairsOk(code, n, pairs) && Uncrossed(top, pairs)
    requires top < n && IsOpener(code[top]) && code[n] == Closer(code[top])
    ensures PairsOk(code, n + 1, pairs[top := n])
  {
  }

  lemma PopApart(n: nat, stack: seq<nat>, pairs: map<nat, nat>)
    requires stack != [] && Apart(stack, pairs)
    requires forall j, k :: 0 <= j < k < |stack| ==> stack[j] < stack[k]
    ensures Apart(stack[..|stack| - 1], pairs[stack[|stack| - 1] := n])
  {
    var top, rest := stack[|stack| - 1], stack[..|stack| - 1];
    forall k | 0 <= k < |rest|
      ensures Uncrossed(rest[k], pairs[top := n])
    {
      assert Uncrossed(stack[k], pairs) && stack[k] < top;
    }
  }

  lemma PopIsCovered(code: string, n: nat, stack: seq<nat>, pairs: map<nat, nat>)
    requires n < |code| && Covered(code, n, stack, pairs) && stack != [] && stack[|stack| - 1] !in pairs
            && !IsOpener(code[n])
    ensures Covered(code, n + 1, stack[..|stack| - 1], pairs[stack[|stack| - 1] := n])
  {
    var top, rest := stack[|stack| - 1], stack[..|stack| - 1];
    var paired := pairs[top := n];
    assert stack == rest + [top];
    forall j | 0 <= j < n + 1 && IsCloser(code[j])
      ensures IsPartner(paired, j)
    {
      if j == n {
        assert paired[top] == n;
      } else {
        assert IsPartner(pairs, j);
        var i :| i in pairs && pairs[i] == j;
        assert paired[i] == j;
      }
    }
  }

  // ---------------------------------------------------------------- both directions

  lemma SuccessIsMatching(code: string)
    requires Scanned(code, |code|).Running? && Scanned(code, |code|).stack == []
    ensures IsMatching(code, Delimiters(code))
  {
    ScanIsConsistent(code, |code|);
  }

  // The scan so far pairs as the matching does, and what it holds open the matching closes later.
  ghost predicate Follows(m: map<nat, nat>, n: nat, stack: seq<nat>, pairs: map<nat, nat>)
  {
    && (forall i <- pairs :: i in m && m[i] == pairs[i])
    && (forall k :: 0 <= k < |stack| ==> ClosesLater(m, n, stack[k]))
  }

  predicate ClosesLater(m: map<nat, nat>, n: nat, i: nat) { i in m && m[i] >= n }

  // Against any matching the scan never fails.
  lemma {:induction false} ScanFollowsMatching(code: string, n: nat, m: map<nat, nat>)
    requires n <= |code| && IsMatching(code, m)
    ensures Scanned(code, n).Running? && Follows(m, n, Scanned(code, n).stack, Scanned(code, n).pairs)
  {
    if n > 0 {
      ScanFollowsMatching(code, n - 1, m);
      ScanFollowsOneMore(code, n - 1, m);
    }
  }

  lemma ScanFollowsOneMore(code: string, n: nat, m: map<nat, nat>)
    requires n < |code| && IsMatching(code, m)
    requires Scanned(code, n).Running? && Follows(m, n, Scanned(code, n).stack, Scanned(code, n).pairs)
    ensures Scanned(code, n + 1).Running? && Follows(m, n + 1, Scanned(code, n + 1).stack, Scanned(code, n + 1).pairs)
  {
    ScanIsConsistent(code, n);
    StepFollows(code, n, Scanned(code, n), m);
  }

  lemma StepFollows(code: string, n: nat, s: Scan, m: map<nat, nat>)
    requires n < |code| && IsMatching(code, m)
    requires s.Running? && Consistent(code, n, s.stack, s.pairs) && Follows(m, n, s.stack, s.pairs)
    ensures Step(code, n, s).Running? && Follows(m, n + 1, Step(code, n, s).stack, Step(code, n, s).pairs)
  {
    if IsCloser(code[n]) {
      CloserFollows(code, n, s.stack, s.pairs, m);
    } else {
      OtherFollows(code, n, s.stack, s.pairs, m);
    }
  }

  lemma CloserFollows(code: string, n: nat, stack: seq<nat>, pairs: map<nat, nat>, m: map<nat, nat>)
    requires n < |code| && IsMatching(code, m) && IsCloser(code[n])
    requires StackOk(code, n, stack) && PairsOk(code, n, pairs) && Covered(code, n, stack, pairs)
    requires Follows(m, n, stack, pairs)
    ensures stack != [] && code[n] == Closer(code[stack[|stack| - 1]])
    ensures Follows(m, n + 1, stack[..|stack| - 1], pairs[stack[|stack| - 1] := n])
  {
    TopIsPartner(code, n, stack, pairs, m);
    StackStaysOpen(code, n, stack, m);
    PopFollows(m, n, stack, pairs);
  }

  lemma OtherFollows(code: string, n: nat, stack: seq<nat>, pairs: map<nat, nat>, m: map<nat, nat>)
    requires n < |code| && IsMatching(code, m) && !IsCloser(code[n]) && Follows(m, n, stack, pairs)
    ensures Follows(m, n + 1, stack, pairs)
    ensures IsOpener(code[n]) ==> Follows(m, n + 1, stack + [n], pairs)
  {
    StillOpen(code, n, stack, m);
  }

  lemma PopFollows(m: map<nat, nat>, n: nat, stack: seq<nat>, pairs: map<nat, nat>)
    requires Follows(m, n, stack, pairs) && stack != []
    requires stack[|stack| - 1] in m && m[stack[|stack| - 1]] == n
    requires forall k :: 0 <= k < |stack| - 1 ==> ClosesLater(m, n + 1, stack[k])
    ensures Follows(m, n + 1, stack[..|stack| - 1], pairs[stack[|stack| - 1] := n])
  {
  }

  lemma StillOpen(code: string, n: nat, stack: seq<nat>, m: map<nat, nat>)
    requires n < |code| && IsMatching(code, m) && !IsCloser(code[n])
    requires forall k :: 0 <= k < |stack| ==> ClosesLater(m, n, stack[k])
    ensures forall k :: 0 <= k < |stack| ==> ClosesLater(m, n + 1, stack[k])
  {
    forall k | 0 <= k < |stack|
      ensures ClosesLater(m, n + 1, stack[k])
    {
      assert ClosesLater(m, n, stack[k]);
      assert IsCloser(code[m[stack[k]]]);
    }
  }

  lemma PartnerIsOpen(code: string, n: nat, stack: seq<nat>, pairs: map<nat, nat>, m: map<nat, nat>, i: nat)
    requires n < |code| && IsMatching(code, m) && i in m && m[i] == n
    requires PairsOk(code, n, pairs) && Covered(code, n, stack, pairs) && Follows(m, n, stack, pairs)
    ensures i in stack
  {
  }

  lemma TopIsPartner(code: string, n: nat, stack: seq<nat>, pairs: map<nat, nat>, m: map<nat, nat>)
    requires n < |code| && IsMatching(code, m) && IsCloser(code[n])
    requires StackOk(code, n, stack) && PairsOk(code, n, pairs) && Covered(code, n, stack, pairs)
    requires Follows(m, n, stack, pairs)
    ensures stack != [] && stack[|stack| - 1] in m && m[stack[|stack| - 1]] == n
  {
    assert IsPartner(m, n);
    var i :| i in m && m[i] == n;
    PartnerIsOpen(code, n, stack, pairs, m, i);
    var k :| 0 <= k < |stack| && stack[k] == i;
    var top := stack[|stack| - 1];
    assert ClosesLater(m, n, top);
    assert i <= top;
  }

  lemma StackStaysOpen(code: string, n: nat, stack: seq<nat>, m: map<nat, nat>)
    requires n < |code| && IsMatching(code, m) && stack != [] && StackOk(code, n, stack)
    requires forall k :: 0 <= k < |stack| ==> ClosesLater(m, n, stack[k])
    requires m[stack[|stack| - 1]] == n
    ensures forall k :: 0 <= k < |stack| - 1 ==> ClosesLater(m, n + 1, stack[k])
  {
    var top := stack[|stack| - 1];
    assert ClosesLater(m, n, top);
    forall k | 0 <= k < |stack| - 1
      ensures ClosesLater(m, n + 1, stack[k])
    {
      assert ClosesLater(m, n, stack[k]) && stack[k] < top;
    }
  }

  // A balanced text has exactly one matching, and the scan returns it.
  lemma BalancedIsFound(code: string, m: map<nat, nat>)
    requires IsNesting(code, m)
    ensures Delimiters(code) == m
  {
    NestingIsMatching(code, m);
    ScanFollowsMatching(code, |code|, m);
    ScanIsConsistent(code, |code|);
    var s := Scanned(code, |code|);
    assert |s.stack| > 0 ==> ClosesLater(m, |code|, s.stack[0]);
    SameMatching(code, s.pairs, m);
  }

  lemma SameMatching(code: string, pairs: map<nat, nat>, m: map<nat, nat>)
    requires IsMatching(code, m) && Covered(code, |code|, [], pairs)
    requires forall i <- pairs :: i in m && m[i] == pairs[i]
    ensures pairs == m
  {
    forall i <- m
      ensures i in pairs
    {
      assert IsOpener(code[i]);
    }
    assert pairs.Keys == m.Keys;
  }

  // The scan returns the complete nesting of a balanced text, and nothing for any other text.
  lemma DelimitersAreExact(code: string)
    ensures Balanced(code) ==> IsNesting(code, Delimiters(code))
    ensures !Balanced(code) ==> Delimiters(code) == map[]
    ensures forall m :: IsNesting(code, m) ==> m == Delimiters(code)
  {
    forall m | IsNesting(code, m)
      ensures m == Delimiters(code)
    {
      BalancedIsFound(code, m);
    }
    var s := Scanned(code, |code|);
    if s.Running? && s.stack == [] {
      SuccessIsMatching(code);
      NestingIsMatching(code, Delimiters(code));
    }
  }

  // ---------------------------------------------------------------- the scanner

  method FindDelimiters(code: string) returns (result: map<nat, nat>)
    ensures Balanced(code) ==> IsNesting(code, result)
    ensures !Balanced(code) ==> result == map[]
    ensures forall m :: IsNesting(code, m) ==> m == result
  {
    result := ScanDelimiters(code);
    DelimitersAreExact(code);
  }

  method ScanDelimiters(code: string) returns (result: map<nat, nat>)
    ensures result == Delimiters(code)
  {
    var stack: seq<(char, nat)> := [];
    var pairs: map<nat, nat> := map[];
    var index := 0;
    while index < |code|
      invariant index <= |code|
      invariant Faithful(code, stack)
      invariant Scanned(code, index) == Running(Positions(stack), pairs)
    {
      var character := code[index];
      if IsOpener(character) {
        stack := stack + [(character, index)];
      } else if IsCloser(character) {
        if stack == [] || Closer(stack[|stack| - 1].0) != character {
          FailureIsFinal(code, index + 1, |code|);
          return map[];
        }
        var start := stack[|stack| - 1].1;
        stack := stack[..|stack| - 1];
        pairs := pairs[start := index];
      }
      index := index + 1;
    }
    return if stack == [] then pairs else map[];
  }

  predicate Faithful(code: string, stack: seq<(char, nat)>)
  {
    forall k :: 0 <= k < |stack| ==> stack[k].1 < |code| && stack[k].0 == code[stack[k].1] && IsOpener(stack[k].0)
  }

  function Positions(stack: seq<(char, nat)>): (p: seq<nat>)
    ensures |p| == |stack| && forall k :: 0 <= k < |stack| ==> p[k] == stack[k].1
  {
    seq(|stack|, k requires 0 <= k < |stack| => stack[k].1)
  }

  lemma {:induction false} FailureIsFinal(code: string, i: nat, n: nat)
    requires i <= n <= |code| && Scanned(code, i).Failed?
    ensures Scanned(code, n).Failed?
  {
    if i < n {
      FailureIsFinal(code, i, n - 1);
    }
  }
}
