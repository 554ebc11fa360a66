/** A strict reader of JSON texts (RFC 8259) that gives back every value the serializer wrote. It takes no other spelling:
    no space, no longer escape than needed, no leading zero, no object whose keys do not ascend. */
module JsonDecoder {
  import opened Basics
  import opened Sorting
  import opened CanonicalJson
  import Utf8

  // A reading and the bytes after it
  type Read<T> = Option<(T, bytes)>

  // ---------- the reader ----------

  function Unhex(b: byte): Option<int> {
    if 48 <= b < 58 then Some(b - 48) else if 97 <= b < 103 then Some(b - 87) else None
  }

  // The character a two-byte escape stands for
  function Short(b: byte): Option<byte> {
    if b == 34 || b == 92 then Some(b)
    else if b == 98 then Some(8)
    else if b == 102 then Some(12)
    else if b == 110 then Some(10)
    else if b == 114 then Some(13)
    else if b == 116 then Some(9)
    else None
  }

  // Backspace, tab, line feed, form feed, return, quote and backslash have a two-byte escape
  predicate HasShort(c: int) {
    c in {8, 9, 10, 12, 13, 34, 92}
  }

  // One character of a string: the byte it stands for, in its only spelling
  function ReadCharacter(b: bytes): (r: Read<byte>)
    ensures r.Some? ==> |r.value.1| < |b|
  {
    if b == [] then None
    else if b[0] == BACKSLASH then
      if |b| < 2 then None
      else if Short(b[1]).Some? then Some((Short(b[1]).value, b[2..]))
      else if b[1] == 117 && |b| >= 6 && b[2] == 48 && b[3] == 48 && Unhex(b[4]).Some? && Unhex(b[5]).Some? then
        var c := Unhex(b[4]).value * 16 + Unhex(b[5]).value;
        if c < 0x20 && !HasShort(c) then Some((c, b[6..])) else None
      else None
    else if b[0] < 0x20 || b[0] == QUOTE then None
    else Some((b[0], b[1..]))
  }

  // The characters up to the closing quote
  function ReadCharacters(b: bytes): (r: Read<bytes>)
    ensures r.Some? ==> |r.value.1| < |b|
    decreases |b|
  {
    if b == [] then None
    else if b[0] == QUOTE then Some(([], b[1..]))
    else
      var c := ReadCharacter(b);
      if c.None? then None
      else
        var tail := ReadCharacters(c.value.1);
        if tail.None? then None else Some(([c.value.0] + tail.value.0, tail.value.1))
  }

  function ReadString(b: bytes): (r: Read<bytes>)
    ensures r.Some? ==> |r.value.1| < |b|
  {
    if b != [] && b[0] == QUOTE then ReadCharacters(b[1..]) else None
  }

  predicate Digit(b: byte) { 48 <= b < 58 }

  // Digits accumulated from the left
  function ReadDigits(b: bytes, n: nat): (r: (nat, bytes))
    ensures |r.1| <= |b|
    decreases |b|
  {
    if b != [] && Digit(b[0]) then ReadDigits(b[1..], 10 * n + (b[0] as int - 48)) else (n, b)
  }

  // Zero, or digits that do not start with zero
  predicate StartsNumber(b: bytes) {
    b != [] && Digit(b[0]) && (b[0] == 48 ==> |b| == 1 || !Digit(b[1]))
  }

  function ReadInt(b: bytes): (r: Read<Value>)
    ensures r.Some? ==> |r.value.1| < |b|
  {
    if b == [] then None
    else if b[0] == MINUS then
      if !StartsNumber(b[1..]) || b[1] == 48 then None
      else var d := ReadDigits(b[1..], 0); Some((Int(0 - d.0 as int), d.1))
    else if StartsNumber(b) then var d := ReadDigits(b[1..], b[0] - 48); Some((Int(d.0), d.1))
    else None
  }

  function ReadWord(b: bytes, word: bytes, v: Value): (r: Read<Value>)
    requires word != []
    ensures r.Some? ==> |r.value.1| < |b|
  {
    if word <= b then Some((v, b[|word|..])) else None
  }

  function ReadValue(b: bytes): (r: Read<Value>)
    ensures r.Some? ==> |r.value.1| < |b|
    decreases |b|, 2
  {
    if b == [] then None
    else if b[0] == 110 then ReadWord(b, NULL_TEXT, Null)
    else if b[0] == 116 then ReadWord(b, TRUE_TEXT, Bool(true))
    else if b[0] == 102 then ReadWord(b, FALSE_TEXT, Bool(false))
    else if b[0] == QUOTE then
      var s := ReadString(b);
      if s.None? then None else Some((Str(s.value.0), s.value.1))
    else if b[0] == OPEN_LIST then
      var items := ReadItems(b[1..], true);
      if items.None? then None else Some((List(items.value.0), items.value.1))
    else if b[0] == OPEN_OBJ then
      var fields := ReadFields(b[1..], None);
      if fields.None? then None else Some((Obj(fields.value.0), fields.value.1))
    else ReadInt(b)
  }

  // Past the comma before every item but the first
  function PastComma(b: bytes, first: bool): (r: Option<bytes>)
    ensures r.Some? ==> |r.value| <= |b|
  {
    if first then Some(b) else if b != [] && b[0] == COMMA then Some(b[1..]) else None
  }

  function ReadItems(b: bytes, first: bool): (r: Read<seq<Value>>)
    ensures r.Some? ==> |r.value.1| < |b|
    decreases |b|, 3
  {
    if b != [] && b[0] == CLOSE_LIST then Some(([], b[1..]))
    else
      var start := PastComma(b, first);
      if start.None? then None
      else
        var item := ReadValue(start.value);
        if item.None? then None
        else
          var tail := ReadItems(item.value.1, false);
          if tail.None? then None else Some(([item.value.0] + tail.value.0, tail.value.1))
  }

  // last is the key read before, which every key must come after
  function ReadFields(b: bytes, last: Option<bytes>): (r: Read<map<bytes, Value>>)
    ensures r.Some? ==> |r.value.1| < |b|
    decreases |b|, 3
  {
    if b != [] && b[0] == CLOSE_OBJ then Some((map[], b[1..]))
    else
      var start := PastComma(b, last.None?);
      if start.None? then None
      else
        var key := ReadString(start.value);
        if key.None? || key.value.1 == [] || key.value.1[0] != COLON || (last.Some? && !Less(last.value, key.value.0)) then None
        else
          var v := ReadValue(key.value.1[1..]);
          if v.None? then None
          else
            var tail := ReadFields(v.value.1, Some(key.value.0));
            if tail.None? then None else Some((map[key.value.0 := v.value.0] + tail.value.0, tail.value.1))
  }

  function Decode(b: bytes): Option<Value> {
    var v := ReadValue(b);
    if v.Some? && v.value.1 == [] then Some(v.value.0) else None
  }

  // ---------- it reads what was written ----------

  // What one byte of a string is written as
  function Character(c: byte): bytes {
    if c < 0x80 then Escape(c) else [c]
  }

  lemma CharacterReads(c: byte, rest: bytes)
    ensures ReadCharacter(Character(c) + rest) == Some((c, rest)) && Character(c)[0] != QUOTE
  {
  }

  // Two bytes where there is a short escape, six for the other control characters, one for everything else
  lemma ShortestSpelling(c: byte)
    ensures |Character(c)| == if HasShort(c) then 2 else if c < 0x20 then 6 else 1
  {
  }

  lemma {:induction false} CharactersRead(s: bytes, rest: bytes)
    ensures ReadCharacters(Characters(s) + [QUOTE] + rest) == Some((s, rest))
  {
    var b := Characters(s) + [QUOTE] + rest;
    if s == [] {
      assert b == [QUOTE] + rest && b[1..] == rest;
    } else {
      var tail := Characters(s[1..]) + [QUOTE] + rest;
      CharacterReads(s[0], tail);
      hide Escape, ReadCharacter, Short, Unhex;
      CharactersRead(s[1..], rest);
      assert b == Character(s[0]) + tail;
      assert [s[0]] + s[1..] == s;
    }
  }

  lemma StringReads(s: bytes, rest: bytes)
    ensures ReadString(StringText(s) + rest) == Some((s, rest))
  {
    hide ReadCharacters, Characters;
    CharactersRead(s, rest);
    assert (StringText(s) + rest)[1..] == Characters(s) + [QUOTE] + rest;
  }

  // ---------- numbers ----------

  predicate NoDigit(rest: bytes) { rest == [] || !Digit(rest[0]) }

  function Pow10(k: nat): nat { if k == 0 then 1 else 10 * Pow10(k - 1) }

  lemma {:induction false} DigitsAccumulate(n: nat, acc: nat, rest: bytes)
    ensures ReadDigits(Decimal(n) + rest, acc) == ReadDigits(rest, acc * Pow10(|Decimal(n)|) + n)
    decreases n
  {
    var last: byte := 48 + n % 10;
    if n < 10 {
      assert Decimal(n) + rest == [last] + rest && ([last] + rest)[1..] == rest;
    } else {
      var k := |Decimal(n / 10)|;
      assert Decimal(n) + rest == Decimal(n / 10) + ([last] + rest);
      DigitsAccumulate(n / 10, acc, [last] + rest);
      assert ([last] + rest)[1..] == rest;
      Shift(acc, Pow10(k), n);
    }
  }

  lemma Shift(acc: nat, p: nat, n: nat)
    ensures 10 * (acc * p + n / 10) + n % 10 == acc * (10 * p) + n
  {
    assert acc * (10 * p) == 10 * (acc * p);
  }

  lemma DecimalDigits(n: nat)
    ensures Decimal(n) != [] && Digit(Decimal(n)[0])
    ensures Decimal(n)[0] == 48 ==> n == 0 && |Decimal(n)| == 1
    decreases n
  {
  }

  lemma IntReads(n: int, rest: bytes)
    requires NoDigit(rest)
    ensures ReadInt(IntText(n) + rest) == Some((Int(n), rest))
  {
    var m: nat := if n < 0 then -n else n;
    var text := Decimal(m) + rest;
    DecimalDigits(m);
    DigitsAccumulate(m, 0, rest);
    assert ReadDigits(text, 0) == (m, rest);
    if n < 0 {
      assert (IntText(n) + rest)[1..] == text;
    }
  }

  // ---------- values ----------

  lemma WordReads(word: bytes, v: Value, rest: bytes)
    requires word != []
    ensures ReadWord(word + rest, word, v) == Some((v, rest))
  {
    assert (word + rest)[|word|..] == rest;
  }

  // A value's text starts with a byte that closes nothing
  lemma FirstByte(v: Value)
    requires Encodable(v)
    ensures Text(v) != [] && Text(v)[0] != CLOSE_LIST && Text(v)[0] != CLOSE_OBJ
  {
    if v.Int? {
      DecimalDigits(if v.n < 0 then -v.n else v.n);
    }
  }

  // The reader, one step at a time
  lemma ListStep(b: bytes, items: seq<Value>, rest: bytes)
    requires ReadItems(b, true) == Some((items, rest))
    ensures ReadValue([OPEN_LIST] + b) == Some((List(items), rest))
  {
    assert ([OPEN_LIST] + b)[1..] == b;
    hide ReadItems;
  }

  lemma ObjStep(b: bytes, fields: map<bytes, Value>, rest: bytes)
    requires ReadFields(b, None) == Some((fields, rest))
    ensures ReadValue([OPEN_OBJ] + b) == Some((Obj(fields), rest))
  {
    assert ([OPEN_OBJ] + b)[1..] == b;
    hide ReadFields;
  }

  lemma ItemStep(b: bytes, first: bool, item: Value, tail: bytes, items: seq<Value>, rest: bytes)
    requires b != [] && b[0] != CLOSE_LIST && b[0] != CLOSE_OBJ
    requires ReadValue(b) == Some((item, tail)) && ReadItems(tail, false) == Some((items, rest))
    ensures ReadItems(if first then b else [COMMA] + b, first) == Some(([item] + items, rest))
  {
    assert ([COMMA] + b)[1..] == b;
  }

  lemma FieldStep(b: bytes, last: Option<bytes>, key: bytes, after: bytes, v: Value, tail: bytes, fields: map<bytes, Value>, rest: bytes)
    requires b != [] && b[0] == QUOTE && ReadString(b) == Some((key, [COLON] + after))
    requires ReadValue(after) == Some((v, tail)) && ReadFields(tail, Some(key)) == Some((fields, rest))
    requires last.Some? ==> Less(last.value, key)
    ensures ReadFields(if last.None? then b else [COMMA] + b, last) == Some((map[key := v] + fields, rest))
  {
    hide ReadString, ReadValue, Less;
    assert ([COMMA] + b)[1..] == b && ([COLON] + after)[1..] == after;
  }

  lemma {:induction false} ValueReads(v: Value, rest: bytes)
    requires Encodable(v) && NoDigit(rest)
    ensures ReadValue(Text(v) + rest) == Some((v, rest))
    decreases v, 2
  {
    hide ReadItems, ReadFields, ReadValue, ListRest, ObjRest, Less;
    match v
    case List(items) =>
      ItemsRead(v, 0, rest);
      assert items[0..] == items;
      Joined([OPEN_LIST], ListRest(v, 0), rest);
      ListStep(ListRest(v, 0) + rest, items, rest);
    case Obj(fields) =>
      var keys := SortedKeys(fields.Keys);
      SortedKeysOf(fields.Keys);
      KeysAscend(fields.Keys);
      FieldsRead(v, keys, None, rest);
      assert (map k | k in keys :: fields[k]) == fields;
      Joined([OPEN_OBJ], ObjRest(v, keys, true), rest);
      ObjStep(ObjRest(v, keys, true) + rest, fields, rest);
    case _ => ScalarReads(v, rest);
  }

  lemma ScalarReads(v: Value, rest: bytes)
    requires Encodable(v) && NoDigit(rest) && !v.List? && !v.Obj?
    ensures ReadValue(Text(v) + rest) == Some((v, rest))
  {
    hide ReadInt, ReadString, ReadItems, ReadFields, ReadWord, Characters;
    match v
    case Null => WordReads(NULL_TEXT, Null, rest);
    case Bool(x) => WordReads(if x then TRUE_TEXT else FALSE_TEXT, v, rest);
    case Int(n) =>
      DecimalDigits(if n < 0 then -n else n);
      IntReads(n, rest);
    case Str(s) => StringReads(s, rest);
  }

  lemma {:induction false} ItemsRead(v: Value, i: nat, rest: bytes)
    requires v.List? && i <= |v.items| && Encodable(v)
    ensures ReadItems(ListRest(v, i) + rest, i == 0) == Some((v.items[i..], rest))
    decreases v, 1, |v.items| - i
  {
    hide ReadItems, ReadValue, ListRest, Text;
    if i == |v.items| {
      ListEnds(v, rest);
      assert v.items[i..] == [];
    } else {
      var tail, text := ListRest(v, i + 1) + rest, Text(v.items[i]);
      FirstByte(v.items[i]);
      ItemsRead(v, i + 1, rest);
      NextItem(v, i, rest);
      ValueReads(v.items[i], tail);
      ItemStep(text + tail, i == 0, v.items[i], tail, v.items[i + 1..], rest);
      assert [v.items[i]] + v.items[i + 1..] == v.items[i..];
    }
  }

  lemma ListEnds(v: Value, rest: bytes)
    requires v.List?
    ensures forall first :: ReadItems(ListRest(v, |v.items|) + rest, first) == Some(([], rest))
  {
    assert ([CLOSE_LIST] + rest)[1..] == rest;
  }

  lemma NextItem(v: Value, i: nat, rest: bytes)
    requires v.List? && i < |v.items|
    ensures var tail := ListRest(v, i + 1) + rest;
            && NoDigit(tail)
            && ListRest(v, i) + rest == if i == 0 then Text(v.items[i]) + tail else [COMMA] + (Text(v.items[i]) + tail)
  {
  }

  ghost predicate Distinct(keys: seq<bytes>) {
    forall i, j :: 0 <= i < j < |keys| ==> keys[i] != keys[j]
  }

  lemma CountedTwice(ks: seq<bytes>, i: nat, j: nat)
    requires i < j < |ks| && ks[i] == ks[j]
    ensures multiset(ks)[ks[i]] >= 2
  {
    assert ks == ks[..j] + ks[j..] && multiset(ks) == multiset(ks[..j]) + multiset(ks[j..]);
    assert ks[..j][i] in multiset(ks[..j]) && ks[j..][0] in multiset(ks[j..]);
  }

  lemma KeysDistinct(keys: set<bytes>)
    ensures Distinct(SortedKeys(keys))
  {
    var ks := SortedKeys(keys);
    SortedKeysOf(keys);
    forall i, j | 0 <= i < j < |ks| ensures ks[i] != ks[j] {
      if ks[i] == ks[j] {
        CountedTwice(ks, i, j);
      }
    }
  }

  lemma {:induction false} FieldsRead(v: Value, keys: seq<bytes>, last: Option<bytes>, rest: bytes)
    requires v.Obj? && Encodable(v) && Ascending(keys) && forall k :: k in keys ==> k in v.fields
    requires last.Some? && keys != [] ==> Less(last.value, keys[0])
    ensures ReadFields(ObjRest(v, keys, last.None?) + rest, last) == Some((map k | k in keys :: v.fields[k], rest))
    decreases v, 1, |keys|
  {
    hide ReadFields, ReadValue, ObjRest, Text, ReadString, StringText, Less;
    if keys == [] {
      FieldsEnd(v, last, rest);
    } else {
      var tail := ObjRest(v, keys[1..], false) + rest;
      var k, item := keys[0], v.fields[keys[0]];
      FieldsRead(v, keys[1..], Some(k), rest);
      NextField(v, keys, last.None?, rest);
      assert map[k := item] + (map x | x in keys[1..] :: v.fields[x]) == map x | x in keys :: v.fields[x];
      ValueReads(item, tail);
      StringReads(k, [COLON] + (Text(item) + tail));
      QuoteFirst(k);
      FieldStep(StringText(k) + ([COLON] + (Text(item) + tail)), last, k, Text(item) + tail, item, tail,
                map x | x in keys[1..] :: v.fields[x], rest);
    }
  }

  lemma FieldsEnd(v: Value, last: Option<bytes>, rest: bytes)
    requires v.Obj?
    ensures ReadFields(ObjRest(v, [], last.None?) + rest, last) == Some((map[], rest))
  {
    assert ([CLOSE_OBJ] + rest)[1..] == rest;
  }

  lemma QuoteFirst(s: bytes)
    ensures StringText(s) != [] && StringText(s)[0] == QUOTE
  {
  }

  lemma Regrouped(a: bytes, b: bytes, c: bytes, d: bytes, e: bytes)
    ensures a + b + c + d + e == a + (b + (c + (d + e)))
  {
  }

  ghost predicate Ascending(keys: seq<bytes>) {
    forall i, j :: 0 <= i < j < |keys| ==> Less(keys[i], keys[j])
  }

  lemma KeysAscend(keys: set<bytes>)
    ensures Ascending(SortedKeys(keys))
  {
    var ks := SortedKeys(keys);
    KeysDistinct(keys);
    ByteOrder();
    SortSorts(KeyList(keys), Less);
    forall i, j | 0 <= i < j < |ks| ensures Less(ks[i], ks[j]) {
      LessTrichotomy(ks[i], ks[j]);
    }
  }

  // The layout of the next field
  lemma NextField(v: Value, keys: seq<bytes>, first: bool, rest: bytes)
    requires v.Obj? && keys != [] && forall k :: k in keys ==> k in v.fields
    ensures var tail := ObjRest(v, keys[1..], false) + rest;
            var field := StringText(keys[0]) + ([COLON] + (Text(v.fields[keys[0]]) + tail));
            NoDigit(tail) && ObjRest(v, keys, first) + rest == if first then field else [COMMA] + field
  {
    var text, value, more := StringText(keys[0]), Text(v.fields[keys[0]]), ObjRest(v, keys[1..], false);
    assert more != [] && (more[0] == CLOSE_OBJ || more[0] == COMMA);
    assert ObjRest(v, keys, first) == (if first then [] else [COMMA]) + text + [COLON] + value + more;
    hide StringText, Text, ObjRest;
    Regrouped(text, [COLON], value, more, rest);
    Regrouped([COMMA] + text, [COLON], value, more, rest);
    Joined([COMMA], text, [COLON] + (value + (more + rest)));
    assert [] + text == text;
  }

  // Every encodable value comes back, whatever its depth
  lemma DecodeInvertsText(v: Value)
    requires Encodable(v)
    ensures Decode(Text(v)) == Some(v)
  {
    ValueReads(v, []);
    assert Text(v) + [] == Text(v);
  }

  // Different values never share their bytes
  lemma TextIdentifiesValue(v: Value, w: Value)
    requires Encodable(v) && Encodable(w)
    ensures Text(v) == Text(w) <==> v == w
  {
    DecodeInvertsText(v);
    DecodeInvertsText(w);
  }
}
