/** Well-formed UTF-8 (section 4 of RFC 3629) and the runes a loop over a string yields. */
module Utf8 {
  import opened Basics

  predicate Cont(b: byte) { 0x80 <= b < 0xC0 }

  // Bytes of the first character, 0 when the string does not start with a well-formed one
  function Width(s: bytes): (w: nat)
    ensures w <= 4 && w <= |s|
  {
    if s == [] then 0
    else if s[0] < 0x80 then 1
    else if 0xC2 <= s[0] < 0xE0 && |s| >= 2 && Cont(s[1]) then 2
    else if 0xE0 <= s[0] < 0xF0 && |s| >= 3 && Cont(s[1]) && Cont(s[2])
            && (s[0] == 0xE0 ==> s[1] >= 0xA0) && (s[0] == 0xED ==> s[1] < 0xA0) then 3
    else if 0xF0 <= s[0] < 0xF5 && |s| >= 4 && Cont(s[1]) && Cont(s[2]) && Cont(s[3])
            && (s[0] == 0xF0 ==> s[1] >= 0x90) && (s[0] == 0xF4 ==> s[1] < 0x90) then 4
    else 0
  }

  predicate Valid(s: bytes)
    decreases |s|
  {
    s == [] || (Width(s) > 0 && Valid(s[Width(s)..]))
  }

  function Two(a: int, b: int): int { a % 32 * 64 + b % 64 }

  function Three(a: int, b: int, c: int): int { (a % 16 * 64 + b % 64) * 64 + c % 64 }

  function Four(a: int, b: int, c: int, d: int): int { ((a % 8 * 64 + b % 64) * 64 + c % 64) * 64 + d % 64 }

  function Rune(s: bytes): int
    requires Width(s) > 0
  {
    match Width(s)
    case 1 => s[0]
    case 2 => Two(s[0], s[1])
    case 3 => Three(s[0], s[1], s[2])
    case _ => Four(s[0], s[1], s[2], s[3])
  }

  // buf.WriteRune
  function EncodeRune(r: int): bytes
    requires 0 <= r < 0x11_0000
  {
    if r < 0x80 then [r]
    else if r < 0x800 then [0xC0 + r / 64, 0x80 + r % 64]
    else if r < 0x1_0000 then [0xE0 + r / 4096, 0x80 + r / 64 % 64, 0x80 + r % 64]
    else [0xF0 + r / 262144, 0x80 + r / 4096 % 64, 0x80 + r / 64 % 64, 0x80 + r % 64]
  }

  lemma TwoBytes(a: int, b: int)
    requires 0xC2 <= a < 0xE0 && 0x80 <= b < 0xC0
    ensures 0x80 <= Two(a, b) < 0x800 && 0xC0 + Two(a, b) / 64 == a && 0x80 + Two(a, b) % 64 == b
  {
    assert a % 32 == a - 0xC0 && b % 64 == b - 0x80;
  }

  lemma ThreeBytes(a: int, b: int, c: int)
    requires 0xE0 <= a < 0xF0 && 0x80 <= b < 0xC0 && 0x80 <= c < 0xC0 && (a == 0xE0 ==> b >= 0xA0)
    ensures var r := Three(a, b, c);
            0x800 <= r < 0x1_0000 && 0xE0 + r / 4096 == a && 0x80 + r / 64 % 64 == b && 0x80 + r % 64 == c
  {
    assert a % 16 == a - 0xE0 && b % 64 == b - 0x80 && c % 64 == c - 0x80;
  }

  lemma FourBytes(a: int, b: int, c: int, d: int)
    requires 0xF0 <= a < 0xF5 && 0x80 <= b < 0xC0 && 0x80 <= c < 0xC0 && 0x80 <= d < 0xC0
    requires (a == 0xF0 ==> b >= 0x90) && (a == 0xF4 ==> b < 0x90)
    ensures var r := Four(a, b, c, d);
            && 0x1_0000 <= r < 0x11_0000 && 0xF0 + r / 262144 == a
            && 0x80 + r / 4096 % 64 == b && 0x80 + r / 64 % 64 == c && 0x80 + r % 64 == d
  {
    assert a % 8 == a - 0xF0 && b % 64 == b - 0x80 && c % 64 == c - 0x80 && d % 64 == d - 0x80;
  }

  // Writing the rune that was read copies its bytes
  lemma RuneCopiesBytes(s: bytes)
    requires Width(s) > 0
    ensures 0 <= Rune(s) < 0x11_0000 && EncodeRune(Rune(s)) == s[..Width(s)]
    ensures Rune(s) < 0x80 <==> Width(s) == 1
  {
    hide Two, Three, Four;
    match Width(s)
    case 1 =>
    case 2 => TwoBytes(s[0], s[1]);
    case 3 => ThreeBytes(s[0], s[1], s[2]);
    case _ => FourBytes(s[0], s[1], s[2], s[3]);
  }

  // Every byte of a wider character is above the ASCII range
  lemma WideBytes(s: bytes, i: nat)
    requires Width(s) > 1 && i < Width(s)
    ensures s[i] >= 0x80
  {
  }
}
