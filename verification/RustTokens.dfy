// Where comments and literals of Rust source begin and end, said without a scanner, and what
// `rust_code_mask` of scripts/verify-windows-release.py makes of a text in these terms.
module RustTokens {
  import opened Options
  import opened RustMask

  // ---------------------------------------------------------------- the lexical forms

  // Up to the first newline, which stays outside, or to the end of the text.
  ghost predicate IsLineComment(text: string, i: nat, e: nat)
  {
    && i + 2 <= e <= |text| && text[i] == '/' && text[i + 1] == '/'
    && (forall k :: i <= k < e ==> text[k] != '\n') && (e < |text| ==> text[e] == '\n')
  }

  // Behind the first n marks openers and closers balance for the first time, or never do.
  ghost predicate BalancesAt(marks: seq<Mark>, n: nat, end: nat, e: nat)
  {
    && n <= |marks| && (forall m: nat :: m < n ==> Level(marks, m, 1) > 0)
    && if Level(marks, n, 1) == 0 then n > 0 && e == marks[n - 1].at + 2 else n == |marks| && e == end
  }

  ghost predicate EndsComment(text: string, from: nat, e: nat)
    requires from <= |text|
  {
    exists n :: BalancesAt(Marks(text, from), n, |text|, e)
  }

  ghost predicate IsBlockComment(text: string, i: nat, e: nat)
  {
    i + 2 <= |text| && text[i] == '/' && text[i + 1] == '*' && EndsComment(text, i + 2, e)
  }

  // A quote with `hashes` hash signs behind it.
  ghost predicate ClosesRaw(text: string, q: int, hashes: nat)
  {
    0 <= q && q + 1 + hashes <= |text| && text[q] == '"' && forall k :: q < k <= q + hashes ==> text[k] == '#'
  }

  ghost predicate EndsRaw(text: string, open: nat, hashes: nat, e: nat)
  {
    if exists q :: open < q && ClosesRaw(text, q, hashes) then
      open < e - 1 - hashes && ClosesRaw(text, e - 1 - hashes, hashes)
          && forall p :: open < p < e - 1 - hashes ==> !ClosesRaw(text, p, hashes)
    else e == |text|
  }

  // r, br or cr, some hash signs and a quote, not behind a name; up to the first quote with as
  // many hash signs.
  ghost predicate IsRawString(text: string, i: nat, open: nat, hashes: nat, e: nat, alnum: char -> bool)
  {
    && i < open - hashes <= open < |text| && text[open] == '"'
    && text[i..open - hashes] in {"r", "br", "cr"}
    && (forall k :: open - hashes <= k < open ==> text[k] == '#')
    && (i > 0 ==> !alnum(text[i - 1]) && text[i - 1] != '_')
    && EndsRaw(text, open, hashes, e)
  }

  // A quote that no odd number of backslashes stands before.
  ghost predicate IsFreeQuote(text: string, from: nat, q: int)
  {
    from <= q < |text| && text[q] == '"' && Backslashes(text, from, q) % 2 == 0
  }

  ghost predicate EndsString(text: string, from: nat, e: nat)
  {
    if exists q :: IsFreeQuote(text, from, q) then
      IsFreeQuote(text, from, e - 1) && forall p :: p < e - 1 ==> !IsFreeQuote(text, from, p)
    else e == |text|
  }

  ghost predicate IsStringLiteral(text: string, i: nat, e: nat)
  {
    i < |text| && text[i] == '"' && EndsString(text, i + 1, e)
  }

  ghost predicate IsHexDigit(c: char) { c in "0123456789abcdefABCDEF" }

  ghost predicate IsCharBody(b: string)
  {
    || (|b| == 1 && b[0] !in "\\'\n")
    || (|b| == 2 && b[0] == '\\' && b[1] != '\n')
    || (|b| == 4 && b[0] == '\\' && b[1] == 'x' && IsHexDigit(b[2]) && IsHexDigit(b[3]))
    || (|b| >= 5 && b[0] == '\\' && b[1] == 'u' && b[2] == '{' && b[|b| - 1] == '}'
        && forall k :: 3 <= k < |b| - 1 ==> IsHexDigit(b[k]) || b[k] == '_')
  }

  ghost predicate IsCharLiteral(text: string, i: nat, e: nat)
  {
    i + 3 <= e <= |text| && text[i] == '\'' && text[e - 1] == '\'' && IsCharBody(text[i + 1..e - 1])
  }

  // A comment or literal from i up to e.
  ghost predicate IsToken(text: string, i: nat, e: nat, alnum: char -> bool)
  {
    || IsLineComment(text, i, e)
    || IsBlockComment(text, i, e)
    || (exists open, hashes :: IsRawString(text, i, open, hashes, e, alnum))
    || IsStringLiteral(text, i, e)
    || IsCharLiteral(text, i, e)
  }

  // ---------------------------------------------------------------- the scanner finds them

  lemma LineCommentExactly(text: string, i: nat, e: nat)
    requires i < |text| && StartsWith(text, i, "//")
    ensures IsLineComment(text, i, e) <==> e == Find(text, "\n", i)
  {
    PairAt(text, i, '/', '/');
    var end := Find(text, "\n", i);
    forall k | i <= k <= |text| ensures StartsWith(text, k, "\n") <==> k < |text| && text[k] == '\n' {
      SingleAt(text, k, '\n');
    }
    if IsLineComment(text, i, e) {
      assert forall k :: i <= k < e ==> !StartsWith(text, k, "\n");
      assert e < |text| ==> StartsWith(text, e, "\n");
    }
  }

  lemma BalancesOnce(marks: seq<Mark>, n: nat, m: nat, end: nat, e: nat, f: nat)
    requires BalancesAt(marks, n, end, e) && BalancesAt(marks, m, end, f)
    ensures e == f
  {
    assert n <= m;
  }

  lemma BlockCommentExactly(text: string, i: nat, e: nat)
    requires i + 2 <= |text| && text[i] == '/' && text[i + 1] == '*'
    ensures IsBlockComment(text, i, e) <==> e == BlockEnd(text, i + 2, 1)
  {
    var end, marks := BlockEnd(text, i + 2, 1), Marks(text, i + 2);
    var n := CommentEndsWhereBalanced(text, i + 2, 1);
    assert BalancesAt(marks, n, |text|, end);
    if IsBlockComment(text, i, e) {
      var m :| BalancesAt(marks, m, |text|, e);
      BalancesOnce(marks, n, m, |text|, end, e);
    }
  }

  lemma StringExactly(text: string, i: nat, e: nat)
    requires i < |text| && text[i] == '"'
    ensures IsStringLiteral(text, i, e) <==> e == Min(StringEnd(text, i + 1), |text|)
  {
    var from, end := i + 1, StringEnd(text, i + 1);
    StringEndsAtFreeQuote(text, from, from);
    assert forall p :: p < end - 1 ==> !IsFreeQuote(text, from, p);
    assert from < |text| ==> end > from;
    if exists q :: IsFreeQuote(text, from, q) {
      var q :| IsFreeQuote(text, from, q);
      assert end - 1 <= q;
      assert IsFreeQuote(text, from, end - 1);
    } else {
      assert end < |text| ==> IsFreeQuote(text, from, end - 1);
    }
  }

  lemma HexDigits(c: char)
    ensures IsHexDigit(c) <==> IsHex(c)
  {
    var digits := "0123456789abcdefABCDEF";
    if IsHex(c) {
      var k := if c <= '9' then (c - '0') as int else if c >= 'a' then (c - 'a') as int + 10 else (c - 'A') as int + 16;
      assert digits[k] == c;
    }
  }

  lemma RawTerminator(text: string, a: nat, quote: nat, k: nat)
    requires a <= quote <= |text| && forall p :: a <= p < quote ==> text[p] == '#'
    ensures StartsWith(text, k, ['"'] + text[a..quote]) <==> ClosesRaw(text, k, quote - a)
  {
    var hashes, terminator := quote - a, ['"'] + text[a..quote];
    assert forall p :: 0 < p <= hashes ==> terminator[p] == '#';
    if k + 1 + hashes <= |text| {
      var here := text[k..k + 1 + hashes];
      assert forall p :: 0 <= p <= hashes ==> here[p] == text[k + p];
      if ClosesRaw(text, k, hashes) {
        assert here == terminator;
      }
      if here == terminator {
        forall p | k < p <= k + hashes ensures text[p] == '#' {
          assert here[p - k] == terminator[p - k];
        }
        assert text[k] == here[0] == terminator[0];
      }
    }
  }

  lemma RawEndExactly(text: string, i: nat, quote: nat, e: nat)
    requires quote < |text| && i + RawPrefix(text, i) <= quote
    requires forall k :: i + RawPrefix(text, i) <= k < quote ==> text[k] == '#'
    ensures EndsRaw(text, quote, quote - i - RawPrefix(text, i), e) <==> e == RawEnd(text, i, quote)
  {
    var a := i + RawPrefix(text, i);
    var hashes: nat := quote - a;
    var terminator := ['"'] + text[a..quote];
    forall k: nat ensures StartsWith(text, k, terminator) <==> ClosesRaw(text, k, hashes) {
      RawTerminator(text, a, quote, k);
    }
    FirstRawClose(text, terminator, quote, hashes, Find(text, terminator, quote + 1));
  }

  lemma FirstRawClose(text: string, terminator: string, quote: nat, hashes: nat, end: nat)
    requires quote < |text| && end == Find(text, terminator, quote + 1)
    requires forall k: nat :: StartsWith(text, k, terminator) <==> ClosesRaw(text, k, hashes)
    ensures forall e: nat ::
              EndsRaw(text, quote, hashes, e) <==> e == if end == |text| then |text| else end + 1 + hashes
  {
    assert forall q :: quote < q < end ==> !ClosesRaw(text, q, hashes) by {
      forall q: nat | quote < q < end ensures !ClosesRaw(text, q, hashes) {
        assert !StartsWith(text, q, terminator);
      }
    }
    if end < |text| {
      assert StartsWith(text, end, terminator) && ClosesRaw(text, end, hashes);
    }
    forall e: nat
      ensures EndsRaw(text, quote, hashes, e) <==> e == if end == |text| then |text| else end + 1 + hashes
    {
      if end < |text| && EndsRaw(text, quote, hashes, e) {
        assert ClosesRaw(text, e - 1 - hashes, hashes);
      }
    }
  }

  // The three openings, by their characters.
  lemma RawOpening(text: string, i: nat, a: nat)
    requires i < a <= |text|
    ensures text[i..a] in {"r", "br", "cr"} <==> RawPrefix(text, i) == a - i
  {
    PairAt(text, i, 'b', 'r');
    PairAt(text, i, 'c', 'r');
    SingleAt(text, i, 'r');
    if a == i + 1 {
      assert text[i..a] == [text[i]];
    } else if a == i + 2 {
      assert text[i..a] == [text[i], text[i + 1]];
    }
  }

  lemma RawIsFound(text: string, i: nat, open: nat, hashes: nat, e: nat, alnum: char -> bool)
    requires i < |text| && IsRawString(text, i, open, hashes, e, alnum)
    ensures RawQuote(text, i) == Some(open) && RawAllowed(text, i, alnum) && e == RawEnd(text, i, open)
  {
    RawOpening(text, i, open - hashes);
    assert i + RawPrefix(text, i) == open - hashes;
    assert HashEnd(text, open - hashes) == open;
    RawEndExactly(text, i, open, e);
  }

  lemma RawIsToken(text: string, i: nat, alnum: char -> bool)
    requires i < |text| && RawQuote(text, i).Some? && RawAllowed(text, i, alnum)
    ensures var open := RawQuote(text, i).value; var hashes: nat := open - i - RawPrefix(text, i);
            IsRawString(text, i, open, hashes, RawEnd(text, i, open), alnum)
  {
    var open := RawQuote(text, i).value;
    PairAt(text, i, 'b', 'r');
    PairAt(text, i, 'c', 'r');
    SingleAt(text, i, 'r');
    RawOpening(text, i, i + RawPrefix(text, i));
    RawEndExactly(text, i, open, RawEnd(text, i, open));
  }

  lemma HexRun(text: string, i: nat, j: nat)
    requires i <= j < |text| && text[j] == '}' && forall k :: i <= k < j ==> IsHex(text[k]) || text[k] == '_'
    ensures HexEnd(text, i) == j
  {
  }


  // The shapes of a literal from i up to e, by the place of its last quote mark.
  ghost predicate IsUnicode(text: string, i: nat, e: nat)
  {
    && i + 7 <= e <= |text| && text[i] == '\'' && text[i + 1] == '\\' && text[i + 2] == 'u' && text[i + 3] == '{'
    && text[e - 2] == '}' && text[e - 1] == '\''
    && forall k :: i + 4 <= k < e - 2 ==> IsHex(text[k]) || text[k] == '_'
  }

  lemma UnicodeExactly(text: string, i: nat, e: nat)
    ensures IsUnicode(text, i, e) <==> UnicodeEnd(text, i) == Some(e)
  {
    UnicodeIsShape(text, i);
    if IsUnicode(text, i, e) {
      HexRun(text, i + 4, e - 2);
    }
  }

  lemma BodyOfUnicode(text: string, i: nat, e: nat)
    requires i + 7 <= e <= |text| && text[i] == text[e - 1] == '\''
    ensures IsUnicode(text, i, e) <==>
            var b := text[i + 1..e - 1];
            && b[0] == '\\' && b[1] == 'u' && b[2] == '{' && b[|b| - 1] == '}'
            && forall k :: 3 <= k < |b| - 1 ==> IsHexDigit(b[k]) || b[k] == '_'
  {
    var b := text[i + 1..e - 1];
    forall k | i + 4 <= k < e - 2 ensures IsHex(text[k]) <==> IsHexDigit(b[k - i - 1]) {
      HexDigits(text[k]);
    }
    forall k | 3 <= k < |b| - 1 ensures IsHexDigit(b[k]) <==> IsHex(text[i + 1 + k]) {
      HexDigits(b[k]);
    }
  }

  lemma BodyIsShape(text: string, i: nat, e: nat)
    requires i + 3 <= e <= |text| && text[i] == text[e - 1] == '\''
    ensures IsCharBody(text[i + 1..e - 1]) <==>
            || (e == i + 3 && PlainChar(text, i)) || (e == i + 4 && AnyEscape(text, i))
            || (e == i + 6 && HexEscape(text, i)) || IsUnicode(text, i, e)
  {
    var b := text[i + 1..e - 1];
    if |b| >= 5 {
      BodyOfUnicode(text, i, e);
    } else if |b| == 4 {
      HexDigits(b[2]);
      HexDigits(b[3]);
    }
  }

  lemma CharExactly(text: string, i: nat, e: nat)
    requires i < |text| && text[i] == '\''
    ensures IsCharLiteral(text, i, e) <==> CharEnd(text, i) == Some(e)
  {
    UnicodeIsShape(text, i);
    UnicodeExactly(text, i, e);
    if i + 3 <= e <= |text| && text[e - 1] == '\'' {
      BodyIsShape(text, i, e);
    }
  }

  // What starts at i and where it ends: the scanner finds every comment and literal, and nothing
  // else.
  lemma TokensAreExact(text: string, i: nat, e: nat, alnum: char -> bool)
    requires i < |text|
    ensures IsToken(text, i, e, alnum) <==>
            TokenEnd(text, i, alnum).Some? && e == Min(TokenEnd(text, i, alnum).value, |text|)
  {
    PairAt(text, i, '/', '/');
    PairAt(text, i, '/', '*');
    RawExactly(text, i, e, alnum);
    if StartsWith(text, i, "//") {
      LineCommentExactly(text, i, e);
    } else if StartsWith(text, i, "/*") {
      BlockCommentExactly(text, i, e);
    } else if text[i] == '"' {
      StringExactly(text, i, e);
    } else if text[i] == '\'' {
      CharExactly(text, i, e);
    }
  }

  lemma RawExactly(text: string, i: nat, e: nat, alnum: char -> bool)
    requires i < |text|
    ensures (exists open, hashes :: IsRawString(text, i, open, hashes, e, alnum)) <==>
            && RawQuote(text, i).Some? && RawAllowed(text, i, alnum) && e == RawEnd(text, i, RawQuote(text, i).value)
    ensures RawQuote(text, i).Some? ==> text[i] != '/' && text[i] != '"' && text[i] != '\''
  {
    PairAt(text, i, 'b', 'r');
    PairAt(text, i, 'c', 'r');
    SingleAt(text, i, 'r');
    if open, hashes :| IsRawString(text, i, open, hashes, e, alnum) {
      RawIsFound(text, i, open, hashes, e, alnum);
    }
    if RawQuote(text, i).Some? && RawAllowed(text, i, alnum) {
      RawIsToken(text, i, alnum);
    }
  }

  // ---------------------------------------------------------------- the mask

  // From a up to b: a comment or literal, blanked but for its newlines, or a single character that
  // starts none, as it is.
  ghost predicate IsPiece(text: string, masked: string, a: nat, b: nat, alnum: char -> bool)
  {
    && a < b <= |text| == |masked|
    && if IsToken(text, a, b, alnum)
       then forall k :: a <= k < b ==> masked[k] == if text[k] == '\n' then '\n' else ' '
       else b == a + 1 && masked[a] == text[a] && StartsNone(text, a, alnum)
  }

  ghost predicate StartsNone(text: string, a: nat, alnum: char -> bool)
  {
    forall e :: !IsToken(text, a, e, alnum)
  }

  // From i on, left to right, in such pieces.
  ghost predicate InPieces(text: string, masked: string, i: nat, alnum: char -> bool)
    decreases |text| - i
  {
    i == |text| || exists b :: IsPiece(text, masked, i, b, alnum) && InPieces(text, masked, b, alnum)
  }

  lemma PieceIsStep(text: string, masked: string, i: nat, b: nat, alnum: char -> bool)
    requires i < |text| == |masked|
    ensures IsPiece(text, masked, i, b, alnum) <==>
            match TokenEnd(text, i, alnum)
            case None => b == i + 1 && masked[i] == text[i]
            case Some(j) => b == Min(j, |text|) && masked[i..b] == Blanks(text[i..b])
  {
    TokensAreExact(text, i, b, alnum);
    match TokenEnd(text, i, alnum) {
      case None =>
        forall e: nat ensures !IsToken(text, i, e, alnum) {
          TokensAreExact(text, i, e, alnum);
        }
      case Some(j) =>
        TokensAreExact(text, i, Min(j, |text|), alnum);
        if i < b <= |text| {
          BlankedSlice(text, masked, i, b);
        }
    }
  }

  lemma BlankedSlice(text: string, masked: string, a: nat, b: nat)
    requires a <= b <= |text| == |masked|
    ensures masked[a..b] == Blanks(text[a..b]) <==>
            forall k :: a <= k < b ==> masked[k] == if text[k] == '\n' then '\n' else ' '
  {
    if masked[a..b] == Blanks(text[a..b]) {
      forall k | a <= k < b ensures masked[k] == if text[k] == '\n' then '\n' else ' ' {
        assert masked[a..b][k - a] == Blanks(text[a..b])[k - a];
      }
    }
  }

  // The mask from i on, one piece further.
  lemma MaskFromPiece(text: string, masked: string, i: nat, b: nat, alnum: char -> bool)
    requires |masked| == |text| && IsPiece(text, masked, i, b, alnum)
    ensures masked[i..] == MaskFrom(text, i, alnum) <==> masked[b..] == MaskFrom(text, b, alnum)
  {
    PieceIsStep(text, masked, i, b, alnum);
    assert masked[i..] == masked[i..b] + masked[b..];
    var rest := MaskFrom(text, b, alnum);
    assert MaskFrom(text, i, alnum) == masked[i..b] + rest;
    assert masked[i..][b - i..] == masked[b..] && (masked[i..b] + rest)[b - i..] == rest;
  }

  lemma {:induction false} MaskedFrom(text: string, masked: string, i: nat, alnum: char -> bool)
    requires i <= |text| == |masked|
    ensures InPieces(text, masked, i, alnum) <==> masked[i..] == MaskFrom(text, i, alnum)
    decreases |text| - i
  {
    if i < |text| {
      if b :| IsPiece(text, masked, i, b, alnum) && InPieces(text, masked, b, alnum) {
        MaskedFrom(text, masked, b, alnum);
        MaskFromPiece(text, masked, i, b, alnum);
      }
      if masked[i..] == MaskFrom(text, i, alnum) {
        var b := FirstPiece(text, masked, i, alnum);
        MaskedFrom(text, masked, b, alnum);
        MaskFromPiece(text, masked, i, b, alnum);
      }
    }
  }

  lemma FirstPiece(text: string, masked: string, i: nat, alnum: char -> bool) returns (b: nat)
    requires i < |text| == |masked| && masked[i..] == MaskFrom(text, i, alnum)
    ensures IsPiece(text, masked, i, b, alnum)
  {
    match TokenEnd(text, i, alnum) {
      case None =>
        b := i + 1;
        assert masked[i] == masked[i..][0];
      case Some(j) =>
        b := Min(j, |text|);
        assert masked[i..b] == masked[i..][..b - i];
    }
    PieceIsStep(text, masked, i, b, alnum);
  }

  // A text of the same length is the mask if and only if it falls into such pieces: every comment
  // and literal blanked, and every character outside them as it is.
  lemma MaskIsExact(text: string, masked: string, alnum: char -> bool)
    requires |masked| == |text|
    ensures InPieces(text, masked, 0, alnum) <==> masked == Mask(text, alnum)
  {
    MaskedFrom(text, masked, 0, alnum);
    assert masked[0..] == masked;
  }

  // A line comment ends before its newline, and the mask goes on from there.
  lemma LineCommentStops(text: string, i: nat, e: nat, alnum: char -> bool)
    requires IsLineComment(text, i, e)
    ensures MaskFrom(text, i, alnum)[e - i..] == MaskFrom(text, e, alnum)
    ensures e < |text| ==> MaskFrom(text, e, alnum) == "\n" + MaskFrom(text, e + 1, alnum)
  {
    TokenOfLineComment(text, i, e, alnum);
    MaskStep(text, i, alnum);
    var blanks := Blanks(text[i..e]);
    assert (blanks + MaskFrom(text, e, alnum))[|blanks|..] == MaskFrom(text, e, alnum);
    if e < |text| {
      NewlineIsCode(text, e, alnum);
      MaskStep(text, e, alnum);
    }
  }

  lemma TokenOfLineComment(text: string, i: nat, e: nat, alnum: char -> bool)
    requires IsLineComment(text, i, e)
    ensures TokenEnd(text, i, alnum) == Some(e)
  {
    PairAt(text, i, '/', '/');
    LineCommentExactly(text, i, e);
  }

  lemma NewlineIsCode(text: string, e: nat, alnum: char -> bool)
    requires e < |text| && text[e] == '\n'
    ensures TokenEnd(text, e, alnum) == None
  {
    PairAt(text, e, '/', '/');
    PairAt(text, e, '/', '*');
    PairAt(text, e, 'b', 'r');
    PairAt(text, e, 'c', 'r');
    SingleAt(text, e, 'r');
  }
}
