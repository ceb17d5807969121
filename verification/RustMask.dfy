// `rust_code_mask` of scripts/verify-windows-release.py: blank out comments and literals of
// Rust source while keeping every offset. `alnum` is Python's str.isalnum, left open.
module RustMask {

  import opened Options

  predicate StartsWith(text: string, i: nat, pattern: string)
  {
    i + |pattern| <= |text| && text[i..i + |pattern|] == pattern
  }

  // str.find: the first occurrence at or after i, or the length of the text.
  function Find(text: string, pattern: string, i: nat): (j: nat)
    requires i <= |text|
    ensures i <= j <= |text|
    ensures forall k :: i <= k < j ==> !StartsWith(text, k, pattern)
    ensures j < |text| ==> StartsWith(text, j, pattern)
    decreases |text| - i
  {
    if i == |text| || StartsWith(text, i, pattern) then i else Find(text, pattern, i + 1)
  }

  // ---------------------------------------------------------------- the lexical forms

  // Behind the opening of a block comment, at nesting depth `depth`.
  function BlockEnd(text: string, i: nat, depth: nat): (j: nat)
    requires i <= |text|
    ensures i <= j <= |text|
    decreases |text| - i
  {
    if i == |text| || depth == 0 then i
    else if StartsWith(text, i, "/*") then BlockEnd(text, i + 2, depth + 1)
    else if StartsWith(text, i, "*/") then BlockEnd(text, i + 2, depth - 1)
    else BlockEnd(text, i + 1, depth)
  }

  // Behind the opening quote of a string; an escape may run past the end of the text.
  function StringEnd(text: string, i: nat): (j: nat)
    ensures i <= j && (i <= |text| ==> j <= |text| + 1)
    decreases |text| - i
  {
    if i >= |text| then i
    else if text[i] == '\\' then StringEnd(text, i + 2)
    else if text[i] == '"' then i + 1
    else StringEnd(text, i + 1)
  }

  function HashEnd(text: string, i: nat): (j: nat)
    requires i <= |text|
    ensures i <= j <= |text|
    ensures forall k :: i <= k < j ==> text[k] == '#'
    ensures j < |text| ==> text[j] != '#'
    decreases |text| - i
  {
    if i < |text| && text[i] == '#' then HashEnd(text, i + 1) else i
  }

  // (?:br|cr|r)(#*)" at i: where the hashes start and where the quote is.
  function RawPrefix(text: string, i: nat): nat
  {
    if StartsWith(text, i, "br") || StartsWith(text, i, "cr") then 2 else if StartsWith(text, i, "r") then 1 else 0
  }

  function RawQuote(text: string, i: nat): (q: Option<nat>)
    ensures q.Some? ==> i < q.value < |text| && text[q.value] == '"'
  {
    var prefix := RawPrefix(text, i);
    if prefix == 0 then None
    else
      var quote := HashEnd(text, i + prefix);
      if quote < |text| && text[quote] == '"' then Some(quote) else None
  }

  function RawEnd(text: string, i: nat, quote: nat): (j: nat)
    requires quote < |text| && i + RawPrefix(text, i) <= quote
    ensures quote < j <= |text|
  {
    var terminator := ['"'] + text[i + RawPrefix(text, i)..quote];
    var end := Find(text, terminator, quote + 1);
    if end == |text| then |text| else end + |terminator|
  }

  predicate IsHex(c: char) { '0' <= c <= '9' || 'a' <= c <= 'f' || 'A' <= c <= 'F' }

  function HexEnd(text: string, i: nat): (j: nat)
    requires i <= |text|
    ensures i <= j <= |text|
    ensures forall k :: i <= k < j ==> IsHex(text[k]) || text[k] == '_'
    ensures j < |text| ==> !(IsHex(text[j]) || text[j] == '_')
    decreases |text| - i
  {
    if i < |text| && (IsHex(text[i]) || text[i] == '_') then HexEnd(text, i + 1) else i
  }

  // '(?:\\(?:u\{[0-9a-fA-F_]+\}|x[0-9a-fA-F]{2}|.)|[^\\'\n])' at i.
  function UnicodeEnd(text: string, i: nat): Option<nat>
  {
    if !StartsWith(text, i, "'\\u{") then None
    else
      var j := HexEnd(text, i + 4);
      if j > i + 4 && StartsWith(text, j, "}'") then Some(j + 2) else None
  }

  predicate HexEscape(text: string, i: nat)
  {
    i + 5 < |text| && text[i + 1] == '\\' && text[i + 2] == 'x' && IsHex(text[i + 3]) && IsHex(text[i + 4])
        && text[i + 5] == '\''
  }

  predicate AnyEscape(text: string, i: nat)
  {
    i + 3 < |text| && text[i + 1] == '\\' && text[i + 2] != '\n' && text[i + 3] == '\''
  }

  predicate PlainChar(text: string, i: nat)
  {
    i + 2 < |text| && text[i + 1] != '\\' && text[i + 1] != '\'' && text[i + 1] != '\n' && text[i + 2] == '\''
  }

  function CharEnd(text: string, i: nat): (j: Option<nat>)
    ensures j.Some? ==> i + 3 <= j.value <= |text|
  {
    if i >= |text| || text[i] != '\'' then None
    else if UnicodeEnd(text, i).Some? then UnicodeEnd(text, i)
    else if HexEscape(text, i) then Some(i + 6)
    else if AnyEscape(text, i) then Some(i + 4)
    else if PlainChar(text, i) then Some(i + 3)
    else None
  }

  predicate RawAllowed(text: string, i: nat, alnum: char -> bool)
    requires i <= |text|
  {
    i == 0 || !(alnum(text[i - 1]) || text[i - 1] == '_')
  }

  // The end of the comment or literal that starts at i, if one does.
  function TokenEnd(text: string, i: nat, alnum: char -> bool): (j: Option<nat>)
    requires i < |text|
    ensures j.Some? ==> i < j.value
  {
    if StartsWith(text, i, "//") then
      assert text[i..i + 2][0] == text[i];
      Some(Find(text, "\n", i))
    else if StartsWith(text, i, "/*") then Some(BlockEnd(text, i + 2, 1))
    else if RawQuote(text, i).Some? && RawAllowed(text, i, alnum) then Some(RawEnd(text, i, RawQuote(text, i).value))
    else if text[i] == '"' then Some(StringEnd(text, i + 1))
    else if text[i] == '\'' then CharEnd(text, i)
    else None
  }

  // ---------------------------------------------------------------- the mask

  function Blank(c: char): char { if c == '\n' then '\n' else ' ' }

  function Blanks(text: string): (r: string)
    ensures |r| == |text| && forall k :: 0 <= k < |text| ==> r[k] == Blank(text[k])
  {
    seq(|text|, k requires 0 <= k < |text| => Blank(text[k]))
  }

  function Min(a: nat, b: nat): nat { if a < b then a else b }

  function MaskFrom(text: string, i: nat, alnum: char -> bool): (r: string)
    ensures |r| == if i < |text| then |text| - i else 0
    decreases |text| - i
  {
    if i >= |text| then ""
    else
      match TokenEnd(text, i, alnum)
      case None => [text[i]] + MaskFrom(text, i + 1, alnum)
      case Some(j) => Blanks(text[i..Min(j, |text|)]) + MaskFrom(text, j, alnum)
  }

  function Mask(text: string, alnum: char -> bool): string { MaskFrom(text, 0, alnum) }

  // ---------------------------------------------------------------- which characters survive

  // Scanning from i reaches k as an ordinary character.
  predicate IsCode(text: string, i: nat, k: nat, alnum: char -> bool)
    decreases |text| - i
  {
    if i >= |text| then false
    else
      match TokenEnd(text, i, alnum)
      case None => k == i || (k > i && IsCode(text, i + 1, k, alnum))
      case Some(j) => k >= j && IsCode(text, j, k, alnum)
  }

  lemma {:induction false} MaskedAt(text: string, i: nat, k: nat, alnum: char -> bool)
    requires i <= k < |text|
    ensures MaskFrom(text, i, alnum)[k - i] == if IsCode(text, i, k, alnum) then text[k] else Blank(text[k])
    decreases |text| - i
  {
    var all := MaskFrom(text, i, alnum);
    match TokenEnd(text, i, alnum)
    case None =>
      var rest := MaskFrom(text, i + 1, alnum);
      assert all == [text[i]] + rest;
      if k > i {
        MaskedAt(text, i + 1, k, alnum);
        assert all[k - i] == rest[k - (i + 1)];
      }
    case Some(j) =>
      var blanks, rest := Blanks(text[i..Min(j, |text|)]), MaskFrom(text, j, alnum);
      assert all == blanks + rest;
      if k >= j {
        MaskedAt(text, j, k, alnum);
        assert all[k - i] == rest[k - j];
      } else {
        assert all[k - i] == blanks[k - i] == Blank(text[k]);
      }
  }

  // The mask keeps the length and every newline, and changes characters only to spaces.
  lemma MaskKeepsOffsets(text: string, alnum: char -> bool)
    ensures |Mask(text, alnum)| == |text|
    ensures forall k ::
            0 <= k < |text| ==> Mask(text, alnum)[k] == text[k] || (Mask(text, alnum)[k] == ' ' && text[k] != '\n')
    ensures forall k :: 0 <= k < |text| && text[k] == '\n' ==> Mask(text, alnum)[k] == '\n'
  {
    forall k | 0 <= k < |text|
      ensures Mask(text, alnum)[k] == text[k] || (Mask(text, alnum)[k] == ' ' && text[k] != '\n')
    {
      MaskedAt(text, 0, k, alnum);
    }
  }

  lemma {:induction false} CodeIsOrdinary(text: string, i: nat, k: nat, alnum: char -> bool)
    requires IsCode(text, i, k, alnum)
    ensures i <= k < |text| && TokenEnd(text, k, alnum) == None
    decreases |text| - i
  {
    match TokenEnd(text, i, alnum)
    case None =>
      if k > i {
        CodeIsOrdinary(text, i + 1, k, alnum);
      }
    case Some(j) =>
      CodeIsOrdinary(text, j, k, alnum);
  }

  lemma TokenIsNotShort(text: string, i: nat, alnum: char -> bool)
    requires i < |text| && TokenEnd(text, i, alnum).Some?
    ensures TokenEnd(text, i, alnum).value >= i + 2 || i + 1 == |text|
  {
    if StartsWith(text, i, "//") {
      assert text[i..i + 2][0] == '/' && text[i..i + 2][1] == '/';
    }
  }

  // A single masked character never stands between two surviving ones.
  lemma {:induction false} NoLoneGap(text: string, i: nat, k: nat, alnum: char -> bool)
    requires IsCode(text, i, k, alnum) && IsCode(text, i, k + 2, alnum)
    ensures IsCode(text, i, k + 1, alnum)
    decreases |text| - i
  {
    CodeIsOrdinary(text, i, k + 2, alnum);
    match TokenEnd(text, i, alnum)
    case None =>
      if k > i {
        NoLoneGap(text, i + 1, k, alnum);
      } else {
        match TokenEnd(text, i + 1, alnum)
        case None =>
        case Some(j) => TokenIsNotShort(text, i + 1, alnum);
      }
    case Some(j) =>
      NoLoneGap(text, j, k, alnum);
  }

  // ---------------------------------------------------------------- nothing is left to mask

  // A character of the mask that is not a space or a newline is an ordinary character of the text.
  lemma Visible(text: string, k: nat, alnum: char -> bool)
    requires k < |text|
    ensures Mask(text, alnum)[k] != ' ' && Mask(text, alnum)[k] != '\n' ==> IsCode(text, 0, k, alnum)
  {
    MaskedAt(text, 0, k, alnum);
  }

  lemma Survivor(text: string, k: nat, alnum: char -> bool)
    requires IsCode(text, 0, k, alnum)
    ensures k < |text| && Mask(text, alnum)[k] == text[k] && TokenEnd(text, k, alnum) == None
  {
    CodeIsOrdinary(text, 0, k, alnum);
    MaskedAt(text, 0, k, alnum);
  }

  lemma SameChar(text: string, k: nat, alnum: char -> bool)
    requires k < |text|
    ensures Mask(text, alnum)[k] != ' ' && Mask(text, alnum)[k] != '\n' ==> Mask(text, alnum)[k] == text[k]
  {
    MaskedAt(text, 0, k, alnum);
  }

  lemma Between(text: string, k: nat, alnum: char -> bool)
    requires IsCode(text, 0, k, alnum) && IsCode(text, 0, k + 2, alnum)
    ensures k + 1 < |text| && Mask(text, alnum)[k + 1] == text[k + 1]
  {
    NoLoneGap(text, 0, k, alnum);
    Survivor(text, k + 1, alnum);
  }

  lemma PairAt(text: string, i: nat, a: char, b: char)
    ensures StartsWith(text, i, [a, b]) <==> i + 1 < |text| && text[i] == a && text[i + 1] == b
  {
    if i + 1 < |text| {
      assert text[i..i + 2] == [text[i], text[i + 1]];
    }
  }

  lemma SingleAt(text: string, i: nat, a: char)
    ensures StartsWith(text, i, [a]) <==> i < |text| && text[i] == a
  {
    if i < |text| {
      assert text[i..i + 1] == [text[i]];
    }
  }

  lemma NoPairLeft(text: string, i: nat, a: char, b: char, alnum: char -> bool)
    requires a == '/' && (b == '/' || b == '*')
    ensures !StartsWith(Mask(text, alnum), i, [a, b])
  {
    var m := Mask(text, alnum);
    PairAt(m, i, a, b);
    PairAt(text, i, a, b);
    if i + 1 < |text| && m[i] == a && m[i + 1] == b {
      Visible(text, i, alnum);
      Survivor(text, i, alnum);
      SameChar(text, i + 1, alnum);
      assert false;
    }
  }

  lemma NoQuoteLeft(text: string, i: nat, alnum: char -> bool)
    requires i < |text|
    ensures Mask(text, alnum)[i] != '"'
  {
    if Mask(text, alnum)[i] == '"' {
      Visible(text, i, alnum);
      Survivor(text, i, alnum);
      assert false;
    }
  }

  // The mask shows neither a double quote nor a comment opener.
  lemma MaskHidesQuotesAndComments(text: string, alnum: char -> bool)
    ensures '"' !in Mask(text, alnum)
    ensures forall i :: !StartsWith(Mask(text, alnum), i, "//") && !StartsWith(Mask(text, alnum), i, "/*")
  {
    forall i | 0 <= i < |text|
      ensures Mask(text, alnum)[i] != '"'
    {
      NoQuoteLeft(text, i, alnum);
    }
    forall i: nat
      ensures !StartsWith(Mask(text, alnum), i, "//") && !StartsWith(Mask(text, alnum), i, "/*")
    {
      NoPairLeft(text, i, '/', '/', alnum);
      NoPairLeft(text, i, '/', '*', alnum);
    }
  }

  // If the mask had a character literal, the text would have had it at the same place.
  lemma {:induction false} SameHex(text: string, i: nat, alnum: char -> bool)
    requires i <= |text|
    ensures var m := Mask(text, alnum);
            HexEnd(m, i) < |text| && m[HexEnd(m, i)] == '}' ==> HexEnd(text, i) == HexEnd(m, i)
    decreases |text| - i
  {
    if i < |text| {
      SameChar(text, i, alnum);
      SameHex(text, i + 1, alnum);
    }
  }

  predicate UnicodeShape(text: string, i: nat)
  {
    && i + 4 <= |text| && text[i] == '\'' && text[i + 1] == '\\' && text[i + 2] == 'u' && text[i + 3] == '{'
    && var j := HexEnd(text, i + 4); i + 4 < j && j + 1 < |text| && text[j] == '}' && text[j + 1] == '\''
  }

  lemma UnicodeIsShape(text: string, i: nat)
    ensures UnicodeEnd(text, i).Some? <==> UnicodeShape(text, i)
  {
    if i + 4 <= |text| {
      assert text[i..i + 4] == [text[i], text[i + 1], text[i + 2], text[i + 3]];
      PairAt(text, HexEnd(text, i + 4), '}', '\'');
    }
  }

  // At a surviving quote mark no character literal starts.
  lemma QuoteMark(text: string, i: nat, alnum: char -> bool)
    requires i < |text| && Mask(text, alnum)[i] == '\''
    ensures text[i] == '\'' && UnicodeEnd(text, i) == None
    ensures !HexEscape(text, i) && !AnyEscape(text, i) && !PlainChar(text, i)
  {
    Visible(text, i, alnum);
    Survivor(text, i, alnum);
    PairAt(text, i, '/', '/');
    PairAt(text, i, '/', '*');
    PairAt(text, i, 'b', 'r');
    PairAt(text, i, 'c', 'r');
    SingleAt(text, i, 'r');
    assert TokenEnd(text, i, alnum) == CharEnd(text, i);
  }

  lemma NoUnicodeLeft(text: string, i: nat, alnum: char -> bool)
    requires i < |text| && Mask(text, alnum)[i] == '\''
    ensures UnicodeEnd(Mask(text, alnum), i) == None
  {
    var m := Mask(text, alnum);
    QuoteMark(text, i, alnum);
    UnicodeIsShape(m, i);
    UnicodeIsShape(text, i);
    if UnicodeShape(m, i) {
      SameChar(text, i + 1, alnum);
      SameChar(text, i + 2, alnum);
      SameChar(text, i + 3, alnum);
      SameHex(text, i + 4, alnum);
      SameChar(text, HexEnd(m, i + 4), alnum);
      SameChar(text, HexEnd(m, i + 4) + 1, alnum);
    }
  }

  lemma NoHexEscapeLeft(text: string, i: nat, alnum: char -> bool)
    requires i < |text| && Mask(text, alnum)[i] == '\''
    ensures !HexEscape(Mask(text, alnum), i)
  {
    QuoteMark(text, i, alnum);
    if i + 5 < |text| {
      SameChar(text, i + 1, alnum);
      SameChar(text, i + 2, alnum);
      SameChar(text, i + 3, alnum);
      SameChar(text, i + 4, alnum);
      SameChar(text, i + 5, alnum);
    }
  }

  lemma NoAnyEscapeLeft(text: string, i: nat, alnum: char -> bool)
    requires i < |text| && Mask(text, alnum)[i] == '\''
    ensures !AnyEscape(Mask(text, alnum), i)
  {
    QuoteMark(text, i, alnum);
    if AnyEscape(Mask(text, alnum), i) {
      Visible(text, i + 1, alnum);
      Visible(text, i + 3, alnum);
      Between(text, i + 1, alnum);
      SameChar(text, i + 1, alnum);
      SameChar(text, i + 3, alnum);
    }
  }

  lemma NoPlainCharLeft(text: string, i: nat, alnum: char -> bool)
    requires i < |text| && Mask(text, alnum)[i] == '\''
    ensures !PlainChar(Mask(text, alnum), i)
  {
    QuoteMark(text, i, alnum);
    if PlainChar(Mask(text, alnum), i) {
      Visible(text, i, alnum);
      Visible(text, i + 2, alnum);
      Between(text, i, alnum);
      SameChar(text, i + 2, alnum);
    }
  }

  lemma NoCharLeft(text: string, i: nat, alnum: char -> bool)
    requires i < |text|
    ensures CharEnd(Mask(text, alnum), i) == None
  {
    if Mask(text, alnum)[i] == '\'' {
      NoUnicodeLeft(text, i, alnum);
      NoHexEscapeLeft(text, i, alnum);
      NoAnyEscapeLeft(text, i, alnum);
      NoPlainCharLeft(text, i, alnum);
    }
  }

  lemma NoTokenLeft(text: string, i: nat, alnum: char -> bool)
    requires i < |text|
    ensures TokenEnd(Mask(text, alnum), i, alnum) == None
  {
    var m := Mask(text, alnum);
    NoPairLeft(text, i, '/', '/', alnum);
    NoPairLeft(text, i, '/', '*', alnum);
    MaskHidesQuotesAndComments(text, alnum);
    NoCharLeft(text, i, alnum);
  }

  lemma {:induction false} NothingToMask(m: string, i: nat, alnum: char -> bool)
    requires i <= |m|
    requires forall k :: i <= k < |m| ==> TokenEnd(m, k, alnum) == None
    ensures MaskFrom(m, i, alnum) == m[i..]
    decreases |m| - i
  {
    if i < |m| {
      NothingToMask(m, i + 1, alnum);
    }
  }

  // Masking masked text changes nothing.
  lemma MaskIsIdempotent(text: string, alnum: char -> bool)
    ensures Mask(Mask(text, alnum), alnum) == Mask(text, alnum)
  {
    var m := Mask(text, alnum);
    forall k | 0 <= k < |m|
      ensures TokenEnd(m, k, alnum) == None
    {
      NoTokenLeft(text, k, alnum);
    }
    NothingToMask(m, 0, alnum);
  }

  // ---------------------------------------------------------------- where a string ends

  // The length of the run of backslashes right before q, not looking before i.
  function Backslashes(text: string, i: nat, q: nat): nat
    requires i <= q <= |text|
  {
    if i < q && text[q - 1] == '\\' then 1 + Backslashes(text, i, q - 1) else 0
  }

  // A string ends at the first quote with an even number of backslashes before it.
  lemma {:induction false} StringEndsAtFreeQuote(text: string, i: nat, k: nat)
    requires i <= k <= |text| && Backslashes(text, i, k) % 2 == 0
    ensures var e := StringEnd(text, k);
            && (forall q :: k <= q < |text| && q < e - 1 && text[q] == '"' ==> Backslashes(text, i, q) % 2 == 1)
            && (e <= |text| && e > k ==> (text[e - 1] == '"' && Backslashes(text, i, e - 1) % 2 == 0) || e == |text|)
    decreases |text| - k
  {
    if k < |text| {
      if text[k] == '\\' {
        if k + 2 <= |text| {
          EscapedPair(text, i, k);
          StringEndsAtFreeQuote(text, i, k + 2);
        }
      } else if text[k] != '"' {
        StringEndsAtFreeQuote(text, i, k + 1);
      }
    }
  }

  lemma EscapedPair(text: string, i: nat, k: nat)
    requires i <= k && k + 2 <= |text| && text[k] == '\\' && Backslashes(text, i, k) % 2 == 0
    ensures Backslashes(text, i, k + 1) % 2 == 1
    ensures Backslashes(text, i, k + 2) % 2 == 0
  {
  }

  // ---------------------------------------------------------------- where a block comment ends

  // The comment marks of a text from i on, left to right, each behind the one before it.
  datatype Mark = Mark(at: nat, opens: bool)

  function Marks(text: string, i: nat): seq<Mark>
    requires i <= |text|
    decreases |text| - i
  {
    if i == |text| then []
    else if StartsWith(text, i, "/*") then [Mark(i, true)] + Marks(text, i + 2)
    else if StartsWith(text, i, "*/") then [Mark(i, false)] + Marks(text, i + 2)
    else Marks(text, i + 1)
  }

  // The nesting behind the first n marks, starting from `depth`.
  function Level(marks: seq<Mark>, n: nat, depth: int): int
    requires n <= |marks|
  {
    if n == 0 then depth else Level(marks[1..], n - 1, if marks[0].opens then depth + 1 else depth - 1)
  }

  // A block comment ends behind the first mark at which the openers, its own included, and the
  // closers balance, and runs to the end of the text if there is none.
  lemma {:induction false} CommentEndsWhereBalanced(text: string, i: nat, depth: nat) returns (n: nat)
    requires i <= |text| && depth > 0
    ensures n <= |Marks(text, i)| && forall m: nat :: m < n ==> Level(Marks(text, i), m, depth) > 0
    ensures if Level(Marks(text, i), n, depth) == 0
            then n > 0 && BlockEnd(text, i, depth) == Marks(text, i)[n - 1].at + 2
            else n == |Marks(text, i)| && Level(Marks(text, i), n, depth) > 0 && BlockEnd(text, i, depth) == |text|
    decreases |text| - i
  {
    if i == |text| {
      n := 0;
    } else if StartsWith(text, i, "/*") || StartsWith(text, i, "*/") {
      var opens := StartsWith(text, i, "/*");
      var next := if opens then depth + 1 else depth - 1;
      var marks, rest := Marks(text, i), Marks(text, i + 2);
      assert marks[0] == Mark(i, opens) && marks[1..] == rest;
      var k: nat := 0;
      if next > 0 {
        k := CommentEndsWhereBalanced(text, i + 2, next);
      }
      n := k + 1;
      forall m: nat | m < n ensures Level(marks, m, depth) > 0 {
        if m > 0 {
          assert Level(marks, m, depth) == Level(rest, m - 1, next);
        }
      }
      assert Level(marks, n, depth) == Level(rest, k, next);
    } else {
      n := CommentEndsWhereBalanced(text, i + 1, depth);
    }
  }

  // ---------------------------------------------------------------- the scanner

  method SkipBlockComment(text: string, start: nat) returns (i: nat)
    requires start < |text| && StartsWith(text, start, "/*")
    ensures i == BlockEnd(text, start + 2, 1)
  {
    var depth := 1;
    i := start + 2;
    while i < |text| && depth != 0
      invariant i <= |text|
      invariant BlockEnd(text, i, depth) == BlockEnd(text, start + 2, 1)
      decreases |text| - i
    {
      ghost var end := BlockEnd(text, i, depth);
      if StartsWith(text, i, "/*") {
        depth, i := depth + 1, i + 2;
      } else if StartsWith(text, i, "*/") {
        depth, i := depth - 1, i + 2;
      } else {
        i := i + 1;
      }
      assert BlockEnd(text, i, depth) == end;
    }
  }

  method SkipString(text: string, start: nat) returns (i: nat)
    requires start < |text| && text[start] == '"'
    ensures i == StringEnd(text, start + 1)
  {
    i := start + 1;
    while i < |text|
      invariant StringEnd(text, i) == StringEnd(text, start + 1)
      decreases |text| - i
    {
      if text[i] == '\\' {
        i := i + 2;
      } else if text[i] == '"' {
        i := i + 1;
        return;
      } else {
        i := i + 1;
      }
    }
  }

  method SkipToken(text: string, start: nat, alnum: char -> bool) returns (end: Option<nat>)
    requires start < |text|
    ensures end == TokenEnd(text, start, alnum)
  {
    if StartsWith(text, start, "//") {
      assert text[start..start + 2][0] == text[start];
      return Some(Find(text, "\n", start));
    }
    if StartsWith(text, start, "/*") {
      var i := SkipBlockComment(text, start);
      return Some(i);
    }
    var raw := RawQuote(text, start);
    if raw.Some? && RawAllowed(text, start, alnum) {
      return Some(RawEnd(text, start, raw.value));
    }
    if text[start] == '"' {
      var i := SkipString(text, start);
      return Some(i);
    }
    return if text[start] == '\'' then CharEnd(text, start) else None;
  }

  // The list of characters that Python overwrites in place is the array `masked`.
  method RustCodeMask(text: string, alnum: char -> bool) returns (code: string)
    ensures code == Mask(text, alnum)
  {
    var masked := new char[|text|](k requires 0 <= k < |text| => text[k]);
    var i := 0;
    while i < |text|
      invariant masked.Length == |text|
      invariant i < |text| ==> masked[i..] == text[i..]
      invariant masked[..Min(i, |text|)] + MaskFrom(text, i, alnum) == Mask(text, alnum)
      decreases |text| - i
    {
      var end := SkipToken(text, i, alnum);
      match end {
        case None =>
          KeepOne(masked[..], text, i, alnum);
          i := i + 1;
        case Some(j) =>
          ghost var before := masked[..];
          Overwrite(masked, i, Min(j, |text|));
          BlankToken(before, masked[..], text, i, j, alnum);
          i := j;
      }
    }
    code := masked[..];
    assert masked[..Min(i, |text|)] == masked[..] && MaskFrom(text, i, alnum) == "";
  }

  // Blanks the range in place and keeps its newlines.
  method Overwrite(masked: array<char>, from: nat, to: nat)
    requires from <= to <= masked.Length
    modifies masked
    ensures masked[..] == old(masked[..from]) + Blanks(old(masked[from..to])) + old(masked[to..])
  {
    var k := from;
    while k < to
      invariant from <= k <= to
      invariant forall m :: 0 <= m < from || k <= m < masked.Length ==> masked[m] == old(masked[m])
      invariant forall m :: from <= m < k ==> masked[m] == Blank(old(masked[m]))
    {
      masked[k] := Blank(masked[k]);
      k := k + 1;
    }
  }

  lemma MaskStep(text: string, i: nat, alnum: char -> bool)
    requires i < |text|
    ensures TokenEnd(text, i, alnum) == None ==> MaskFrom(text, i, alnum) == [text[i]] + MaskFrom(text, i + 1, alnum)
    ensures TokenEnd(text, i, alnum).Some? ==>
              var j := TokenEnd(text, i, alnum).value;
              MaskFrom(text, i, alnum) == Blanks(text[i..Min(j, |text|)]) + MaskFrom(text, j, alnum)
  {
  }

  lemma KeepOne(masked: string, text: string, i: nat, alnum: char -> bool)
    requires |masked| == |text| && i < |text| && masked[i..] == text[i..] && TokenEnd(text, i, alnum) == None
    ensures masked[..i + 1] + MaskFrom(text, i + 1, alnum) == masked[..i] + MaskFrom(text, i, alnum)
    ensures masked[i + 1..] == text[i + 1..]
  {
    MaskStep(text, i, alnum);
    KeepSplice(masked, text, i, MaskFrom(text, i + 1, alnum));
  }

  lemma KeepSplice(masked: string, text: string, i: nat, rest: string)
    requires |masked| == |text| && i < |text| && masked[i..] == text[i..]
    ensures masked[..i + 1] + rest == masked[..i] + ([text[i]] + rest)
    ensures masked[i + 1..] == text[i + 1..]
  {
    assert masked[i] == masked[i..][0] == text[i..][0];
    assert masked[..i + 1] == masked[..i] + [text[i]];
    assert masked[i..][1..] == masked[i + 1..] && text[i..][1..] == text[i + 1..];
  }

  lemma BlankToken(before: string, after: string, text: string, i: nat, j: nat, alnum: char -> bool)
    requires |before| == |text| && i < |text| && before[i..] == text[i..] && TokenEnd(text, i, alnum) == Some(j)
    requires var e := Min(j, |text|); after == before[..i] + Blanks(before[i..e]) + before[e..]
    ensures after[..Min(j, |text|)] + MaskFrom(text, j, alnum) == before[..i] + MaskFrom(text, i, alnum)
    ensures j < |text| ==> after[j..] == text[j..]
  {
    MaskStep(text, i, alnum);
    BlankSplice(before, after, text, i, Min(j, |text|), MaskFrom(text, j, alnum));
  }

  lemma BlankSplice(before: string, after: string, text: string, i: nat, e: nat, rest: string)
    requires |before| == |text| && i <= e <= |text| && before[i..] == text[i..]
    requires after == before[..i] + Blanks(before[i..e]) + before[e..]
    ensures after[..e] + rest == before[..i] + (Blanks(text[i..e]) + rest)
    ensures after[e..] == text[e..]
  {
    assert before[i..e] == before[i..][..e - i] == text[i..][..e - i] == text[i..e];
    assert before[e..] == before[i..][e - i..] == text[i..][e - i..] == text[e..];
    assert after[..e] == before[..i] + Blanks(text[i..e]);
  }
}
