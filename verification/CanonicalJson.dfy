/** Canonical JSON: one byte string per value, and a decoder that gives the value back. */
module CanonicalJson {
  import opened Basics
  import opened Sorting
  import Utf8

  // Go values the serializer meets. Integers of every width are numbers; Unsupported is any other type
  datatype Value =
    | Null
    | Bool(b: bool)
    | Int(n: int)
    | Float
    | Str(s: bytes)
    | List(items: seq<Value>)
    | Obj(fields: map<bytes, Value>)
    | Unsupported

  const QUOTE: byte := 34
  const BACKSLASH: byte := 92
  const COMMA: byte := 44
  const COLON: byte := 58
  const OPEN_LIST: byte := 91
  const CLOSE_LIST: byte := 93
  const OPEN_OBJ: byte := 123
  const CLOSE_OBJ: byte := 125
  const MINUS: byte := 45
  const NULL_TEXT: bytes := [110, 117, 108, 108]
  const TRUE_TEXT: bytes := [116, 114, 117, 101]
  const FALSE_TEXT: bytes := [102, 97, 108, 115, 101]

  // ---------- the text of a value ----------

  function Hex(d: int): byte
    requires 0 <= d < 16
  {
    if d < 10 then 48 + d else 87 + d
  }

  // What is written for one rune
  function Escape(r: int): bytes
    requires 0 <= r < 0x11_0000
  {
    if r == 34 then [BACKSLASH, 34]
    else if r == 92 then [BACKSLASH, 92]
    else if r == 8 then [BACKSLASH, 98]
    else if r == 12 then [BACKSLASH, 102]
    else if r == 10 then [BACKSLASH, 110]
    else if r == 13 then [BACKSLASH, 114]
    else if r == 9 then [BACKSLASH, 116]
    else if r < 0x20 then [BACKSLASH, 117, 48, 48, Hex(r / 16), Hex(r % 16)]
    else Utf8.EncodeRune(r)
  }

  // The characters of a string byte by byte: multi-byte characters are copied
  function Characters(s: bytes): bytes {
    if s == [] then [] else (if s[0] < 0x80 then Escape(s[0]) else [s[0]]) + Characters(s[1..])
  }

  function StringText(s: bytes): bytes {
    [QUOTE] + Characters(s) + [QUOTE]
  }

  function Decimal(n: nat): bytes {
    (if n < 10 then [] else Decimal(n / 10)) + [48 + n % 10]
  }

  function IntText(n: int): bytes {
    if n < 0 then [MINUS] + Decimal(-n) else Decimal(n)
  }

  ghost predicate Encodable(v: Value)
    decreases v
  {
    match v
    case Str(s) => Utf8.Valid(s)
    case List(items) => forall i :: 0 <= i < |items| ==> Encodable(items[i])
    case Obj(fields) => forall k :: k in fields ==> Utf8.Valid(k) && Encodable(fields[k])
    case Float => false
    case Unsupported => false
    case _ => true
  }

  ghost function SortedKeys(keys: set<bytes>): seq<bytes> {
    Sort(KeyList(keys), Less)
  }

  ghost function KeyList(keys: set<bytes>): (ks: seq<bytes>)
    ensures multiset(ks) == multiset(keys)
  {
    if keys == {} then [] else
      var k :| k in keys;
      assert keys == {k} + (keys - {k});
      [k] + KeyList(keys - {k})
  }

  ghost function Text(v: Value): bytes
    decreases v, 1, 0
  {
    match v
    case Null => NULL_TEXT
    case Bool(b) => if b then TRUE_TEXT else FALSE_TEXT
    case Int(n) => IntText(n)
    case Str(s) => StringText(s)
    case List(_) => [OPEN_LIST] + ListRest(v, 0)
    case Obj(fields) => KeysInFields(fields); [OPEN_OBJ] + ObjRest(v, SortedKeys(fields.Keys), true)
    case _ => []
  }

  // What follows the first i items
  ghost function ListRest(v: Value, i: nat): bytes
    requires v.List? && i <= |v.items|
    decreases v, 0, |v.items| - i
  {
    if i == |v.items| then [CLOSE_LIST]
    else (if i > 0 then [COMMA] else []) + Text(v.items[i]) + ListRest(v, i + 1)
  }

  // What follows the fields before these keys
  ghost function ObjRest(v: Value, keys: seq<bytes>, first: bool): bytes
    requires v.Obj? && forall k :: k in keys ==> k in v.fields
    decreases v, 0, |keys|
  {
    if keys == [] then [CLOSE_OBJ]
    else (if first then [] else [COMMA]) + StringText(keys[0]) + [COLON] + Text(v.fields[keys[0]]) + ObjRest(v, keys[1..], false)
  }

  lemma ByteOrder()
    ensures StrictWeak(Less)
  {
    forall x, y, z | Less(x, z) ensures Less(x, y) || Less(y, z) {
      LessTrichotomy(x, y);
      LessTransitive(y, x, z);
    }
    forall x, y | Less(x, y) ensures !Less(y, x) {
      LessTrichotomy(x, y);
    }
  }

  lemma SortedKeysOf(keys: set<bytes>)
    ensures multiset(SortedKeys(keys)) == multiset(keys)
    ensures forall k :: k in SortedKeys(keys) <==> k in keys
  {
    ByteOrder();
    SortSorts(KeyList(keys), Less);
    assert forall k :: k in SortedKeys(keys) <==> k in multiset(SortedKeys(keys));
  }

  lemma KeysInFields(fields: map<bytes, Value>)
    ensures forall k :: k in SortedKeys(fields.Keys) ==> k in fields
  {
    SortedKeysOf(fields.Keys);
  }

  // Keys met in any order sort to the same list
  lemma AnyKeyOrder(ks: seq<bytes>, keys: set<bytes>)
    requires multiset(ks) == multiset(keys)
    ensures Sort(ks, Less) == SortedKeys(keys)
  {
    ByteOrder();
    forall x, y | x in ks && y in ks ensures x == y || Less(x, y) || Less(y, x) {
      LessTrichotomy(x, y);
    }
    SortForgetsOrder(ks, KeyList(keys), Less);
  }

  // ---------- the serializer ----------

  class Buffer {
    var data: bytes

    constructor ()
      ensures data == []
    {
      data := [];
    }

    method Write(b: bytes)
      modifies this
      ensures data == old(data) + b
    {
      data := data + b;
    }
  }

  lemma Joined<X>(a: seq<X>, b: seq<X>, c: seq<X>)
    ensures a + (b + c) == a + b + c
  {
  }

  lemma {:induction false} WideCharacter(s: bytes, w: nat)
    requires w <= |s| && forall i :: 0 <= i < w ==> s[i] >= 0x80
    ensures Characters(s) == s[..w] + Characters(s[w..])
  {
    hide Escape;
    if w == 0 {
      assert s[..0] + Characters(s[0..]) == Characters(s) by { assert s[0..] == s; }
    } else {
      WideCharacter(s[1..], w - 1);
      assert s[1..][w - 1..] == s[w..];
      assert [s[0]] + s[1..][..w - 1] == s[..w];
      Joined([s[0]], s[1..][..w - 1], Characters(s[w..]));
    }
  }

  // The rune loop and the byte-by-byte reading write the same
  lemma NextRune(s: bytes)
    requires Utf8.Width(s) > 0
    ensures 0 <= Utf8.Rune(s) < 0x11_0000
    ensures Characters(s) == Escape(Utf8.Rune(s)) + Characters(s[Utf8.Width(s)..])
  {
    var w, r := Utf8.Width(s), Utf8.Rune(s);
    Utf8.RuneCopiesBytes(s);
    if w > 1 {
      forall i | 0 <= i < w ensures s[i] >= 0x80 {
        Utf8.WideBytes(s, i);
      }
      WideCharacter(s, w);
    }
  }

  method EncodeString(buf: Buffer, s: bytes) returns (ok: bool)
    modifies buf
    ensures ok <==> Utf8.Valid(s)
    ensures ok ==> buf.data == old(buf.data) + StringText(s)
  {
    hide Escape, Utf8.Rune, Utf8.Width;
    if !Utf8.Valid(s) {
      return false;
    }
    buf.Write([QUOTE]);
    var rest := s;
    ghost var start := buf.data;
    while rest != []
      invariant Utf8.Valid(rest)
      invariant buf.data + Characters(rest) == start + Characters(s)
      decreases |rest|
    {
      NextRune(rest);
      var w := Utf8.Width(rest);
      Joined(buf.data, Escape(Utf8.Rune(rest)), Characters(rest[w..]));
      buf.Write(Escape(Utf8.Rune(rest)));
      rest := rest[w..];
    }
    assert buf.data == start + Characters(s);
    buf.Write([QUOTE]);
    Joined(old(buf.data), [QUOTE], Characters(s));
    Joined(old(buf.data), [QUOTE] + Characters(s), [QUOTE]);
    return true;
  }

  method CollectKeys(fields: map<bytes, Value>) returns (keys: seq<bytes>)
    ensures multiset(keys) == multiset(fields.Keys)
  {
    var rest := fields.Keys;
    keys := [];
    ghost var seen: set<bytes> := {};
    while rest != {}
      invariant seen + rest == fields.Keys && seen !! rest && multiset(keys) == multiset(seen)
      decreases |rest|
    {
      var k: bytes :| k in rest;
      assert multiset(seen + {k}) == multiset(seen) + multiset{k};
      keys := keys + [k];
      rest := rest - {k};
      seen := seen + {k};
    }
    assert seen == fields.Keys;
  }

  // Writes the text of an encodable value whatever order the maps are walked in, and refuses every other value
  method EncodeCanonical(buf: Buffer, v: Value) returns (ok: bool)
    modifies buf
    ensures ok <==> Encodable(v)
    ensures ok ==> buf.data == old(buf.data) + Text(v)
    decreases v, 2
  {
    ok := true;
    match v {
      case Null =>
        buf.Write(NULL_TEXT);
      case Bool(b) =>
        if b {
          buf.Write(TRUE_TEXT);
        } else {
          buf.Write(FALSE_TEXT);
        }
      case Int(n) =>
        buf.Write(IntText(n));
      case Str(s) =>
        ok := EncodeString(buf, s);
      case List(_) =>
        ok := EncodeList(buf, v);
      case Obj(_) =>
        ok := EncodeFields(buf, v);
      case _ =>
        ok := false;
    }
  }

  method EncodeItem(buf: Buffer, v: Value, i: nat) returns (ok: bool)
    requires v.List? && i < |v.items|
    modifies buf
    ensures ok <==> Encodable(v.items[i])
    ensures ok ==> buf.data + ListRest(v, i + 1) == old(buf.data) + ListRest(v, i)
    decreases v, 0
  {
    ghost var comma: bytes := if i > 0 then [COMMA] else [];
    if i > 0 {
      buf.Write([COMMA]);
    }
    assert buf.data == old(buf.data) + comma;
    ok := EncodeCanonical(buf, v.items[i]);
    Joined(old(buf.data), comma, Text(v.items[i]));
    Joined(old(buf.data), comma + Text(v.items[i]), ListRest(v, i + 1));
  }

  method EncodeList(buf: Buffer, v: Value) returns (ok: bool)
    requires v.List?
    modifies buf
    ensures ok <==> Encodable(v)
    ensures ok ==> buf.data == old(buf.data) + Text(v)
    decreases v, 1
  {
    buf.Write([OPEN_LIST]);
    Joined(old(buf.data), [OPEN_LIST], ListRest(v, 0));
    for i := 0 to |v.items|
      invariant forall j :: 0 <= j < i ==> Encodable(v.items[j])
      invariant buf.data + ListRest(v, i) == old(buf.data) + Text(v)
    {
      ok := EncodeItem(buf, v, i);
      if !ok {
        return;
      }
    }
    buf.Write([CLOSE_LIST]);
    return true;
  }

  method EncodeField(buf: Buffer, v: Value, keys: seq<bytes>, first: bool) returns (ok: bool)
    requires v.Obj? && keys != [] && forall k :: k in keys ==> k in v.fields
    modifies buf
    ensures ok <==> Utf8.Valid(keys[0]) && Encodable(v.fields[keys[0]])
    ensures ok ==> buf.data + ObjRest(v, keys[1..], false) == old(buf.data) + ObjRest(v, keys, first)
    decreases v, 0
  {
    hide StringText, Utf8.Valid;
    ghost var comma: bytes := if first then [] else [COMMA];
    if !first {
      buf.Write([COMMA]);
    }
    assert buf.data == old(buf.data) + comma;
    ok := EncodeString(buf, keys[0]);
    if !ok {
      return;
    }
    buf.Write([COLON]);
    ok := EncodeCanonical(buf, v.fields[keys[0]]);
    Joined(old(buf.data), comma, StringText(keys[0]));
    Joined(old(buf.data), comma + StringText(keys[0]), [COLON]);
    Joined(old(buf.data), comma + StringText(keys[0]) + [COLON], Text(v.fields[keys[0]]));
    Joined(old(buf.data), comma + StringText(keys[0]) + [COLON] + Text(v.fields[keys[0]]), ObjRest(v, keys[1..], false));
  }

  method EncodeFields(buf: Buffer, v: Value) returns (ok: bool)
    requires v.Obj?
    modifies buf
    ensures ok <==> Encodable(v)
    ensures ok ==> buf.data == old(buf.data) + Text(v)
    decreases v, 1
  {
    var keys := CollectKeys(v.fields);
    AnyKeyOrder(keys, v.fields.Keys);
    SortedKeysOf(v.fields.Keys);
    keys := Sort(keys, Less);
    hide Sort, SortedKeys, StringText, Utf8.Valid;
    buf.Write([OPEN_OBJ]);
    Joined(old(buf.data), [OPEN_OBJ], ObjRest(v, keys, true));
    assert keys[0..] == keys;
    for i := 0 to |keys|
      invariant forall j :: 0 <= j < i ==> Utf8.Valid(keys[j]) && Encodable(v.fields[keys[j]])
      invariant buf.data + ObjRest(v, keys[i..], i == 0) == old(buf.data) + Text(v)
    {
      assert keys[i..][1..] == keys[i + 1..];
      ok := EncodeField(buf, v, keys[i..], i == 0);
      if !ok {
        assert keys[i] in v.fields;
        return;
      }
    }
    buf.Write([CLOSE_OBJ]);
    forall k | k in v.fields ensures Utf8.Valid(k) && Encodable(v.fields[k]) {
      assert k in keys;
    }
    return true;
  }

  datatype Fault = NotEncodable

  method CanonicalSerialize(v: Value) returns (r: Result<bytes, Fault>)
    ensures r == if Encodable(v) then Ok(Text(v)) else Err(NotEncodable)
  {
    var buf := new Buffer();
    var ok := EncodeCanonical(buf, v);
    if !ok {
      return Err(NotEncodable);
    }
    assert [] + Text(v) == Text(v);
    return Ok(buf.data);
  }
}
