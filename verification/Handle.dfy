/** Crockford base-32 handles: eight characters for forty bits. Masks and shifts on a byte are written as remainders and
    quotients, and disjoint bits joined by OR as a sum. */
module Handle {
  import opened Basics

  const ALPHABET := "0123456789ABCDEFGHJKMNPQRSTVWXYZ"
  const LENGTH := 8

  function Letter(d: int): (c: char)
    requires 0 <= d < 32
  {
    ALPHABET[d]
  }

  // The value of a letter, -1 for anything else (strings.IndexRune)
  function IndexOf(c: char): (d: int)
    ensures -1 <= d < 32
    ensures d >= 0 ==> Letter(d) == c
  {
    IndexFrom(c, 0)
  }

  function IndexFrom(c: char, from: nat): (d: int)
    requires from <= 32
    ensures d == -1 || from <= d < 32
    ensures d >= 0 ==> Letter(d) == c
    decreases 32 - from
  {
    if from == 32 then -1
    else if Letter(from) == c then from
    else IndexFrom(c, from + 1)
  }

  lemma {:induction false} LettersAreFound(d: int, from: nat)
    requires from <= d < 32
    ensures IndexFrom(Letter(d), from) >= 0
    decreases 32 - from
  {
    hide Letter;
    if from < d {
      LettersAreFound(d, from + 1);
    }
  }

  lemma LettersDiffer(i: int, j: int)
    requires 0 <= i < 32 && 0 <= j < 32 && Letter(i) == Letter(j)
    ensures i == j
  {
    LetterCodes(i);
    LetterCodes(j);
  }

  // Digits come before letters, letters in order, with I, L, O and U skipped
  lemma LetterCodes(i: int)
    requires 0 <= i < 32
    ensures Letter(i) as int == if i < 10 then '0' as int + i
                                else if i < 18 then 'A' as int + i - 10
                                else if i < 20 then 'J' as int + i - 18
                                else if i < 22 then 'M' as int + i - 20
                                else if i < 27 then 'P' as int + i - 22
                                else 'V' as int + i - 27
  {
  }

  lemma IndexOfLetter(d: int)
    requires 0 <= d < 32
    ensures IndexOf(Letter(d)) == d
  {
    hide Letter;
    LettersAreFound(d, 0);
    LettersDiffer(d, IndexOf(Letter(d)));
  }

  predicate InAlphabet(c: char) { IndexOf(c) >= 0 }

  predicate AllLetters(h: string) {
    forall i :: 0 <= i < |h| ==> InAlphabet(h[i])
  }

  predicate Canonical(h: string) {
    |h| == LENGTH && AllLetters(h)
  }

  // ---------- generating ----------

  function Generate(b: bytes): (h: string)
    requires |b| == 5
    ensures |h| == LENGTH
  {
    [Letter(b[0] / 8),
     Letter(b[0] % 8 * 4 + b[1] / 64),
     Letter(b[1] / 2 % 32),
     Letter(b[1] % 2 * 16 + b[2] / 16),
     Letter(b[2] % 16 * 2 + b[3] / 128),
     Letter(b[3] / 4 % 32),
     Letter(b[3] % 4 * 8 + b[4] / 32),
     Letter(b[4] % 32)]
  }

  // A handle read as a number in base 32, most significant letter first
  function Value(h: string): int {
    if h == "" then 0 else 32 * Value(h[..|h| - 1]) + IndexOf(h[|h| - 1])
  }

  lemma ValueOfEight(h: string)
    requires |h| == 8
    ensures Value(h) == IndexOf(h[7]) + 32 * (IndexOf(h[6]) + 32 * (IndexOf(h[5]) + 32 * (IndexOf(h[4])
                        + 32 * (IndexOf(h[3]) + 32 * (IndexOf(h[2]) + 32 * (IndexOf(h[1]) + 32 * IndexOf(h[0])))))))
  {
    ValueOfNothing();
    hide IndexOf, Value;
    ValueSnoc(h, 7);
    ValueSnoc(h, 6);
    ValueSnoc(h, 5);
    ValueSnoc(h, 4);
    ValueSnoc(h, 3);
    ValueSnoc(h, 2);
    ValueSnoc(h, 1);
    ValueSnoc(h, 0);
    assert h[..8] == h && h[..0] == "";
  }

  lemma ValueOfNothing()
    ensures Value("") == 0
  {
  }

  lemma ValueSnoc(h: string, k: nat)
    requires k < |h|
    ensures Value(h[..k + 1]) == 32 * Value(h[..k]) + IndexOf(h[k])
  {
    assert h[..k + 1][..k] == h[..k];
  }

  lemma NumberOfFive(b: bytes)
    requires |b| == 5
    ensures var b0: int, b1: int, b2: int, b3: int, b4: int := b[0], b[1], b[2], b[3], b[4];
            FromBigEndian(b) == b4 + 256 * (b3 + 256 * (b2 + 256 * (b1 + 256 * b0)))
  {
    NumberSnoc(b, 4);
    NumberSnoc(b, 3);
    NumberSnoc(b, 2);
    NumberSnoc(b, 1);
    NumberSnoc(b, 0);
    assert b[..5] == b && b[..0] == [];
  }

  lemma NumberSnoc(b: bytes, k: nat)
    requires k < |b|
    ensures FromBigEndian(b[..k + 1]) == 256 * FromBigEndian(b[..k]) + b[k]
  {
    assert b[..k + 1][..k] == b[..k];
  }

  // Forty bits regrouped from five bytes to eight base-32 digits
  lemma Regroup(b0: int, b1: int, b2: int, b3: int, b4: int)
    requires 0 <= b0 < 256 && 0 <= b1 < 256 && 0 <= b2 < 256 && 0 <= b3 < 256 && 0 <= b4 < 256
    ensures b4 % 32 + 32 * (b3 % 4 * 8 + b4 / 32) + 1024 * (b3 / 4 % 32) + 32768 * (b2 % 16 * 2 + b3 / 128)
            + 1048576 * (b1 % 2 * 16 + b2 / 16) + 33554432 * (b1 / 2 % 32) + 1073741824 * (b0 % 8 * 4 + b1 / 64)
            + 34359738368 * (b0 / 8)
         == b4 + 256 * b3 + 65536 * b2 + 16777216 * b1 + 4294967296 * b0
  {
    assert b4 == 32 * (b4 / 32) + b4 % 32;
    assert b3 == 128 * (b3 / 128) + 4 * (b3 / 4 % 32) + b3 % 4;
    assert b2 == 16 * (b2 / 16) + b2 % 16;
    assert b1 == 64 * (b1 / 64) + 2 * (b1 / 2 % 32) + b1 % 2;
    assert b0 == 8 * (b0 / 8) + b0 % 8;
  }

  function Digits(b: bytes): (d: seq<int>)
    requires |b| == 5
    ensures |d| == 8 && forall i :: 0 <= i < 8 ==> 0 <= d[i] < 32
  {
    [b[0] / 8,
     b[0] % 8 * 4 + b[1] / 64,
     b[1] / 2 % 32,
     b[1] % 2 * 16 + b[2] / 16,
     b[2] % 16 * 2 + b[3] / 128,
     b[3] / 4 % 32,
     b[3] % 4 * 8 + b[4] / 32,
     b[4] % 32]
  }

  lemma GenerateSpellsDigits(b: bytes)
    requires |b| == 5
    ensures forall i :: 0 <= i < 8 ==> Generate(b)[i] == Letter(Digits(b)[i])
  {
    hide Letter;
  }

  lemma GeneratedValues(b: bytes)
    requires |b| == 5
    ensures Canonical(Generate(b)) && forall i :: 0 <= i < 8 ==> IndexOf(Generate(b)[i]) == Digits(b)[i]
  {
    GenerateSpellsDigits(b);
    hide Letter, IndexOf, Digits, Generate;
    forall i | 0 <= i < 8 ensures IndexOf(Generate(b)[i]) == Digits(b)[i] {
      IndexOfLetter(Digits(b)[i]);
    }
  }

  lemma DigitsWriteTheNumber(b: bytes)
    requires |b| == 5
    ensures var d := Digits(b);
            d[7] + 32 * (d[6] + 32 * (d[5] + 32 * (d[4] + 32 * (d[3] + 32 * (d[2] + 32 * (d[1] + 32 * d[0]))))))
            == FromBigEndian(b)
  {
    NumberOfFive(b);
    Regroup(b[0], b[1], b[2], b[3], b[4]);
    hide FromBigEndian;
  }

  // The handle writes the big-endian number of its bytes in base 32
  lemma GenerateWritesTheNumber(b: bytes)
    requires |b| == 5
    ensures Canonical(Generate(b)) && Value(Generate(b)) == FromBigEndian(b)
  {
    hide Generate, Digits, IndexOf, FromBigEndian, Value;
    GeneratedValues(b);
    ValueOfEight(Generate(b));
    DigitsWriteTheNumber(b);
  }

  lemma SameLetter(c: char, d: char)
    requires InAlphabet(c) && InAlphabet(d) && IndexOf(c) == IndexOf(d)
    ensures c == d
  {
    hide Letter;
  }

  lemma {:induction false} ValueIdentifiesHandle(g: string, h: string)
    requires |g| == |h| && Value(g) == Value(h) && AllLetters(g) && AllLetters(h)
    ensures g == h
  {
    hide IndexOf;
    if g != "" {
      var last := |g| - 1;
      var x, y := IndexOf(g[last]), IndexOf(h[last]);
      assert InAlphabet(g[last]) && InAlphabet(h[last]);
      assert 32 * Value(g[..last]) + x == 32 * Value(h[..last]) + y;
      ValueIdentifiesHandle(g[..last], h[..last]);
      SameLetter(g[last], h[last]);
      assert g == g[..last] + [g[last]] && h == h[..last] + [h[last]];
    }
  }

  lemma {:induction false} ValueBound(h: string)
    requires AllLetters(h)
    ensures 0 <= Value(h) < Pow32(|h|)
  {
    hide IndexOf;
    if h != "" {
      assert InAlphabet(h[|h| - 1]);
      ValueBound(h[..|h| - 1]);
    }
  }

  function Pow32(k: nat): int {
    if k == 0 then 1 else 32 * Pow32(k - 1)
  }

  // The five bytes a canonical handle stands for
  function BytesOf(h: string): (b: bytes)
    ensures |b| == 5
  {
    BigEndian(Value(h), 5)
  }

  lemma FortyBits()
    ensures Pow32(8) == Pow256(5) == 0x100_0000_0000
  {
    assert Pow32(2) == 1024 && Pow32(4) == 1024 * 1024 && Pow32(6) == 1024 * 1024 * 1024;
    assert Pow256(2) == 0x1_0000 && Pow256(4) == 0x1_0000_0000;
  }

  // Five-byte strings and canonical handles correspond one to one
  lemma GenerateIsABijection(b: bytes, h: string)
    requires |b| == 5 && Canonical(h)
    ensures BytesOf(Generate(b)) == b
    ensures Generate(BytesOf(h)) == h
    ensures Generate(b) == h <==> BytesOf(h) == b
  {
    hide Generate, Value, AllLetters, BigEndian, FromBigEndian;
    GenerateWritesTheNumber(b);
    BigEndianEncodes(b);
    GenerateWritesTheNumber(BytesOf(h));
    FortyBits();
    ValueBound(h);
    BigEndianDecodes(Value(h), 5);
    ValueIdentifiesHandle(Generate(BytesOf(h)), h);
  }

  // ---------- normalizing ----------

  predicate Separator(c: char) {
    c == '-' || c == ' ' || c == '\t' || c == '\n' || c == '\r'
  }

  function Upper(c: char): char {
    if 'a' <= c <= 'z' then (c as int - 32) as char else c
  }

  // Crockford's ambiguous letters
  function Fold(c: char): char {
    if c == 'I' || c == 'L' then '1' else if c == 'O' then '0' else c
  }

  // Skip separators, upper-case, fold
  function Cleaned(s: string): string {
    if s == "" then ""
    else
      var c := s[|s| - 1];
      Cleaned(s[..|s| - 1]) + if Separator(c) then "" else [Fold(Upper(c))]
  }

  datatype Invalid = InvalidHandle

  function Normalized(s: string): Result<string, Invalid> {
    if Canonical(Cleaned(s)) then Ok(Cleaned(s)) else Err(InvalidHandle)
  }

  lemma {:induction false} CleanedPrefix(s: string, k: nat)
    requires k <= |s|
    ensures Cleaned(s[..k]) <= Cleaned(s)
    decreases |s| - k
  {
    if k == |s| {
      assert s[..k] == s;
    } else {
      CleanedPrefix(s, k + 1);
      assert s[..k + 1][..k] == s[..k];
    }
  }

  // One pass that stops at the first bad character or the ninth good one
  method Normalize(s: string) returns (r: Result<string, Invalid>)
    ensures r == Normalized(s)
  {
    hide IndexOf, Letter;
    var out := "";
    for i := 0 to |s|
      invariant out == Cleaned(s[..i]) && |out| <= LENGTH && AllLetters(out)
    {
      CleanedPrefix(s, i + 1);
      assert s[..i + 1][..i] == s[..i];
      var c := s[i];
      if Separator(c) {
        continue;
      }
      if 'a' <= c <= 'z' {
        c := (c as int - 32) as char;
      }
      if c == 'I' || c == 'L' {
        c := '1';
      } else if c == 'O' {
        c := '0';
      }
      var idx := IndexOf(c);
      if idx < 0 {
        assert Cleaned(s)[|out|] == c && !InAlphabet(c);
        return Err(InvalidHandle);
      }
      out := out + [Letter(idx)];
      if |out| > LENGTH {
        return Err(InvalidHandle);
      }
    }
    assert s[..|s|] == s;
    if |out| != LENGTH {
      return Err(InvalidHandle);
    }
    return Ok(out);
  }

  function Format(h: string): string {
    if |h| != LENGTH then h else h[..4] + "-" + h[4..]
  }

  lemma LettersStay(c: char)
    requires InAlphabet(c)
    ensures !Separator(c) && Fold(Upper(c)) == c
  {
    hide IndexOf;
    LetterCodes(IndexOf(c));
  }

  lemma {:induction false} CleanLettersStay(h: string)
    requires AllLetters(h)
    ensures Cleaned(h) == h
  {
    if h != "" {
      var last := |h| - 1;
      LettersSplit(h);
      hide AllLetters, InAlphabet, Fold, Upper, Separator;
      CleanLettersStay(h[..last]);
      LettersStay(h[last]);
      assert h == h[..last] + [h[last]];
    }
  }

  lemma LettersSplit(h: string)
    requires h != "" && AllLetters(h)
    ensures AllLetters(h[..|h| - 1]) && InAlphabet(h[|h| - 1])
  {
    hide InAlphabet;
  }

  lemma {:induction false} CleanedConcat(s: string, t: string)
    ensures Cleaned(s + t) == Cleaned(s) + Cleaned(t)
  {
    if t == "" {
      assert s + t == s;
    } else {
      var last := |t| - 1;
      CleanedConcat(s, t[..last]);
      assert (s + t)[..|s + t| - 1] == s + t[..last];
    }
  }

  // A handle is normalized exactly when it is canonical, so normalizing twice is normalizing once
  lemma NormalFormsAreCanonical(s: string, h: string)
    ensures Normalized(s) == Ok(h) ==> Canonical(h)
    ensures Normalized(h) == Ok(h) <==> Canonical(h)
  {
    hide AllLetters;
    if Canonical(h) {
      CleanLettersStay(h);
    }
  }

  // What a user types from the display form finds the stored handle again
  lemma NormalizeUndoesFormat(h: string)
    requires Canonical(h)
    ensures Normalized(h) == Ok(h) && Normalized(Format(h)) == Ok(h)
  {
    OneChar('-');
    CleanLettersStay(h);
    hide AllLetters, Cleaned;
    CleanedConcat(h[..4] + "-", h[4..]);
    CleanedConcat(h[..4], "-");
    CleanedConcat(h[..4], h[4..]);
    assert h == h[..4] + h[4..];
    assert Cleaned(h[..4]) + "" == Cleaned(h[..4]);
  }

  lemma CleanedMiddle(s: string, c: char, t: string)
    ensures Cleaned(s + [c] + t) == Cleaned(s) + (if Separator(c) then "" else [Fold(Upper(c))]) + Cleaned(t)
  {
    OneChar(c);
    hide Cleaned;
    CleanedConcat(s + [c], t);
    CleanedConcat(s, [c]);
  }

  // Stray separators and lower case never change what a handle names
  lemma SeparatorsAndCaseDoNotMatter(s: string, c: char, t: string)
    ensures Separator(c) ==> Normalized(s + [c] + t) == Normalized(s + t)
    ensures 'A' <= c <= 'Z' ==> Normalized(s + [(c as int + 32) as char] + t) == Normalized(s + [c] + t)
  {
    CleanedMiddle(s, c, t);
    CleanedConcat(s, t);
    hide Cleaned, Canonical;
    assert Cleaned(s) + "" == Cleaned(s);
    if 'A' <= c <= 'Z' {
      CleanedMiddle(s, (c as int + 32) as char, t);
    }
  }

  lemma OneChar(c: char)
    ensures Cleaned([c]) == if Separator(c) then "" else [Fold(Upper(c))]
  {
    assert [c][..0] == "";
  }

  // ---------- what exactly a user may type ----------

  // Ten digits and the letters but U, in either case
  predicate Readable(c: char) {
    '0' <= c <= '9' || ('A' <= c <= 'Z' && c != 'U') || ('a' <= c <= 'z' && c != 'u')
  }

  // The letter a character is taken for: I and L look like 1, O looks like 0
  function Reading(c: char): char {
    if c in {'I', 'i', 'L', 'l'} then '1'
    else if c in {'O', 'o'} then '0'
    else if 'a' <= c <= 'z' then ((c as int) - 32) as char
    else c
  }

  lemma {:induction false} FoundLetter(c: char, from: nat)
    requires from <= 32
    ensures IndexFrom(c, from) >= 0 <==> exists d :: from <= d < 32 && Letter(d) == c
    decreases 32 - from
  {
    hide Letter;
    if from < 32 && Letter(from) != c {
      FoundLetter(c, from + 1);
    }
  }

  lemma AlphabetLetters(c: char)
    ensures InAlphabet(c) <==> '0' <= c <= '9' || ('A' <= c <= 'Z' && c != 'I' && c != 'L' && c != 'O' && c != 'U')
  {
    hide Letter, IndexFrom;
    FoundLetter(c, 0);
    forall d | 0 <= d < 32 ensures Letter(d) == c ==> '0' <= c <= '9' || ('A' <= c <= 'Z' && c !in {'I', 'L', 'O', 'U'}) {
      LetterCodes(d);
    }
    var d := if c <= '9' then c as int - '0' as int
             else if c < 'I' then c as int - 'A' as int + 10
             else if c < 'L' then c as int - 'J' as int + 18
             else if c < 'O' then c as int - 'M' as int + 20
             else if c < 'U' then c as int - 'P' as int + 22
             else c as int - 'V' as int + 27;
    if 0 <= d < 32 {
      LetterCodes(d);
    }
  }

  lemma ReadingIsFolding(c: char)
    requires !Separator(c)
    ensures Fold(Upper(c)) == Reading(c) && (InAlphabet(Reading(c)) <==> Readable(c))
  {
    hide IndexOf;
    AlphabetLetters(Reading(c));
  }

  // What is left of an input without its separators
  function Typed(s: string): string {
    if s == "" then "" else Typed(s[..|s| - 1]) + if Separator(s[|s| - 1]) then "" else [s[|s| - 1]]
  }

  lemma {:induction false} CleanedReadsTyped(s: string)
    ensures |Cleaned(s)| == |Typed(s)|
    ensures forall i :: 0 <= i < |Typed(s)| ==>
              Cleaned(s)[i] == Reading(Typed(s)[i]) && (InAlphabet(Cleaned(s)[i]) <==> Readable(Typed(s)[i]))
  {
    hide InAlphabet, Fold, Upper, Reading, Readable;
    if s != "" {
      CleanedReadsTyped(s[..|s| - 1]);
      if !Separator(s[|s| - 1]) {
        ReadingIsFolding(s[|s| - 1]);
      }
    }
  }

  // An input names a handle exactly when eight readable characters are left without separators, and then each of its
  // letters is the reading of the character typed there
  lemma NormalizesExactly(s: string)
    ensures Normalized(s).Ok? <==> |Typed(s)| == 8 && forall i :: 0 <= i < 8 ==> Readable(Typed(s)[i])
    ensures Normalized(s).Ok? ==> |Normalized(s).value| == 8 && forall i :: 0 <= i < 8 ==> Normalized(s).value[i] == Reading(Typed(s)[i])
  {
    hide InAlphabet, Cleaned, Typed, Reading, Readable;
    CleanedReadsTyped(s);
  }

  // The display form is four letters, a hyphen, four letters
  lemma FormatLayout(h: string)
    ensures |h| == 8 ==> |Format(h)| == 9 && Format(h)[4] == '-'
    ensures |h| == 8 ==> forall i :: 0 <= i < 8 ==> Format(h)[if i < 4 then i else i + 1] == h[i]
    ensures |h| != 8 ==> Format(h) == h
  {
  }
}
