/** The phone key store's envelope, written by Kotlin into a sized buffer and by Swift by appending, and read by both.
    Ids are ASCII and labels UTF-8, so both are their bytes here. */
module KeystoreEnvelope {
  import opened Basics

  datatype Secret = Secret(name: bytes, value: bytes)

  type Vault = map<bytes, Secret>

  // The order a map is walked in
  ghost predicate Order(ids: seq<bytes>, m: Vault) {
    && (forall i, j :: 0 <= i < j < |ids| ==> ids[i] != ids[j])
    && (forall id :: id in ids <==> id in m)
  }

  predicate EntryFits(id: bytes, s: Secret) {
    |id| < 256 && |s.name| < TWO16 && |s.value| < TWO16
  }

  // What the length fields can say
  ghost predicate Fits(m: Vault) {
    |m| < TWO16 && forall id :: id in m ==> EntryFits(id, m[id])
  }

  // idLen:u8 id labelLen:u16 name valLen:u16 val; the lengths keep only their low bits
  function EntryBytes(id: bytes, s: Secret): bytes {
    [|id| % 256] + id + U16(|s.name|) + s.name + U16(|s.value|) + s.value
  }

  function Entries(ids: seq<bytes>, m: Vault): bytes
    requires forall id :: id in ids ==> id in m
  {
    if ids == [] then [] else EntryBytes(ids[0], m[ids[0]]) + Entries(ids[1..], m)
  }

  function Envelope(ids: seq<bytes>, m: Vault): bytes
    requires forall id :: id in ids ==> id in m
  {
    U16(|ids|) + Entries(ids, m)
  }

  // ---------- Kotlin: a buffer of the estimated size ----------

  function EntrySize(id: bytes, s: Secret): nat { 1 + |id| + 2 + |s.name| + 2 + |s.value| }

  lemma EntryIsItsSize(id: bytes, s: Secret)
    ensures |EntryBytes(id, s)| == EntrySize(id, s)
  {
  }

  method EstimateSize(ids: seq<bytes>, m: Vault) returns (n: nat)
    requires forall id :: id in ids ==> id in m
    ensures n == |Envelope(ids, m)|
  {
    n := 2;
    var rest := ids;
    while rest != []
      invariant forall id :: id in rest ==> id in m
      invariant n + |Entries(rest, m)| == |Envelope(ids, m)|
      decreases |rest|
    {
      var id, s := rest[0], m[rest[0]];
      EntryIsItsSize(id, s);
      n := n + 1 + |id| + 2 + |s.name| + 2 + |s.value|;
      rest := rest[1..];
    }
  }

  // ByteBuffer.put: copies the bytes at the position, which must leave room for them
  method Put(buf: array<byte>, pos: nat, b: bytes) returns (pos': nat)
    requires pos + |b| <= buf.Length
    modifies buf
    ensures pos' == pos + |b| && buf[..pos'] == old(buf[..pos]) + b
  {
    pos' := pos;
    for i := 0 to |b|
      invariant pos' == pos + i && buf[..pos'] == old(buf[..pos]) + b[..i]
    {
      buf[pos'] := b[i];
      pos' := pos' + 1;
    }
    assert b[..|b|] == b;
  }

  method PutEntry(buf: array<byte>, pos: nat, id: bytes, s: Secret) returns (pos': nat)
    requires pos + EntrySize(id, s) <= buf.Length
    modifies buf
    ensures pos' == pos + EntrySize(id, s) && buf[..pos'] == old(buf[..pos]) + EntryBytes(id, s)
  {
    pos' := Put(buf, pos, [|id| % 256]);
    pos' := Put(buf, pos', id);
    pos' := Put(buf, pos', U16(|s.name|));
    pos' := Put(buf, pos', s.name);
    pos' := Put(buf, pos', U16(|s.value|));
    pos' := Put(buf, pos', s.value);
    SixFields(old(buf[..pos]), [|id| % 256], id, U16(|s.name|), s.name, U16(|s.value|), s.value);
  }

  lemma SixFields(p: bytes, a: bytes, b: bytes, c: bytes, d: bytes, e: bytes, f: bytes)
    ensures p + a + b + c + d + e + f == p + (a + b + c + d + e + f)
  {
  }

  lemma Joined(a: bytes, b: bytes, c: bytes)
    ensures a + b + c == a + (b + c)
  {
  }

  lemma NextEntry(p: bytes, rest: seq<bytes>, m: Vault)
    requires rest != [] && forall id :: id in rest ==> id in m
    ensures p + Entries(rest, m) == p + EntryBytes(rest[0], m[rest[0]]) + Entries(rest[1..], m)
    ensures |p + Entries(rest, m)| >= |p| + EntrySize(rest[0], m[rest[0]])
  {
    EntryIsItsSize(rest[0], m[rest[0]]);
    hide EntryBytes;
    Joined(p, EntryBytes(rest[0], m[rest[0]]), Entries(rest[1..], m));
  }

  // No put overflows and none leaves room: the buffer ends up filled to exactly the estimate, whatever the sizes
  method KotlinEncode(ids: seq<bytes>, m: Vault) returns (blob: bytes, capacity: nat)
    requires Order(ids, m)
    ensures blob == Envelope(ids, m) && |blob| == capacity
  {
    hide EntryBytes, U16;
    capacity := EstimateSize(ids, m);
    var buf := new byte[capacity];
    var pos: nat := Put(buf, 0, U16(|ids|));
    assert [] + U16(|ids|) == U16(|ids|);
    var rest := ids;
    while rest != []
      invariant buf.Length == capacity && pos <= buf.Length && forall id :: id in rest ==> id in m
      invariant buf[..pos] + Entries(rest, m) == Envelope(ids, m)
      decreases |rest|
    {
      NextEntry(buf[..pos], rest, m);
      pos := PutEntry(buf, pos, rest[0], m[rest[0]]);
      rest := rest[1..];
    }
    blob := buf[..pos];
    assert blob + [] == blob;
  }

  // ---------- Swift: appending, with checked conversions ----------

  // UInt8(n) and UInt16(n) stop the process when n does not fit
  method AppendEntry(d: bytes, id: bytes, s: Secret) returns (d': Option<bytes>)
    ensures d' == if EntryFits(id, s) then Some(d + EntryBytes(id, s)) else None
  {
    if |id| >= 256 {
      return None;
    }
    var out := d + [|id|];
    out := out + id;
    if |s.name| >= TWO16 {
      return None;
    }
    out := out + U16(|s.name|);
    out := out + s.name;
    if |s.value| >= TWO16 {
      return None;
    }
    out := out + U16(|s.value|);
    out := out + s.value;
    SixFields(d, [|id| % 256], id, U16(|s.name|), s.name, U16(|s.value|), s.value);
    return Some(out);
  }

  method SwiftEncode(ids: seq<bytes>, m: Vault) returns (blob: Option<bytes>)
    requires Order(ids, m)
    ensures blob == if Fits(m) then Some(Envelope(ids, m)) else None
  {
    hide EntryBytes, U16, EntryFits;
    OrderCounts(ids, m);
    if |ids| >= TWO16 {
      return None;
    }
    var d := U16(|ids|);
    var rest := ids;
    while rest != []
      invariant forall id :: id in rest ==> id in m
      invariant d + Entries(rest, m) == Envelope(ids, m)
      invariant forall id :: id in m ==> id in rest || EntryFits(id, m[id])
      decreases |rest|
    {
      NextEntry(d, rest, m);
      var next := AppendEntry(d, rest[0], m[rest[0]]);
      if next.None? {
        return None;
      }
      d := next.value;
      assert forall id :: id in rest ==> id == rest[0] || id in rest[1..];
      rest := rest[1..];
    }
    assert d + [] == d;
    return Some(d);
  }

  lemma {:induction false} DistinctCount(ids: seq<bytes>, s: set<bytes>)
    requires forall i, j :: 0 <= i < j < |ids| ==> ids[i] != ids[j]
    requires forall id :: id in ids <==> id in s
    ensures |ids| == |s|
  {
    if ids == [] {
      assert s == {};
    } else {
      var last := |ids| - 1;
      forall id ensures id in ids[..last] <==> id in s - {ids[last]} {
        if id in s && id != ids[last] {
          assert id in ids;
        }
      }
      DistinctCount(ids[..last], s - {ids[last]});
      assert ids[last] in ids;
    }
  }

  lemma OrderCounts(ids: seq<bytes>, m: Vault)
    requires Order(ids, m)
    ensures |ids| == |m|
  {
    DistinctCount(ids, m.Keys);
  }

  // ---------- decoding, the same on both phones ----------

  // The first n bytes and the rest; reading past the end throws on Android and stops the process on iOS
  function Take(b: bytes, n: nat): Option<(bytes, bytes)> {
    if n <= |b| then Some((b[..n], b[n..])) else None
  }

  // A length of the given width and as many bytes
  function TakeField(b: bytes, width: nat): Option<(bytes, bytes)> {
    var len := Take(b, width);
    if len.None? then None else Take(len.value.1, FromBigEndian(len.value.0))
  }

  function ReadEntry(b: bytes): (r: Option<(bytes, Secret, bytes)>)
    ensures r.Some? ==> |r.value.0| < 256 && |r.value.1.name| < TWO16 && |r.value.1.value| < TWO16
  {
    var id := TakeField(b, 1);
    if id.None? then None
    else
      var name := TakeField(id.value.1, 2);
      if name.None? then None
      else
        var value := TakeField(name.value.1, 2);
        if value.None? then None
        else
          FieldLimit(b, 1);
          FieldLimit(id.value.1, 2);
          FieldLimit(name.value.1, 2);
          Limits();
          Some((id.value.0, Secret(name.value.0, value.value.0), value.value.1))
  }

  lemma FieldLimit(b: bytes, width: nat)
    requires TakeField(b, width).Some?
    ensures |TakeField(b, width).value.0| < Pow256(width)
  {
    hide FromBigEndian, BigEndian, Pow256;
    BigEndianEncodes(Take(b, width).value.0);
  }

  lemma Limits()
    ensures Pow256(1) == 256 && Pow256(2) == TWO16
  {
    Widths();
  }

  // n entries, later ones replacing earlier ones with the same id; bytes after them are ignored
  function ReadEntries(b: bytes, n: nat, m: Vault): Option<(Vault, bytes)> {
    if n == 0 then Some((m, b))
    else
      var e := ReadEntry(b);
      if e.None? then None else ReadEntries(e.value.2, n - 1, m[e.value.0 := e.value.1])
  }

  function DecodeAll(blob: bytes): Option<(Vault, bytes)> {
    var n := Take(blob, 2);
    if n.None? then None else ReadEntries(n.value.1, FromBigEndian(n.value.0), map[])
  }

  function Decoded(blob: bytes): Option<Vault> {
    var r := DecodeAll(blob);
    if r.Some? then Some(r.value.0) else None
  }

  // The cursor walks the blob and fills the map entry by entry
  method Decode(blob: bytes) returns (m: Option<Vault>)
    ensures m == Decoded(blob)
  {
    if |blob| < 2 {
      return None;
    }
    var n, off := FromBigEndian(blob[..2]), 2;
    var out: Vault := map[];
    for i := 0 to n
      invariant off <= |blob| && DecodeAll(blob) == ReadEntries(blob[off..], n - i, out)
    {
      var id, name, value;
      var ok;
      ghost var start := off;
      id, off, ok := ReadField(blob, off, 1);
      if !ok {
        return None;
      }
      name, off, ok := ReadField(blob, off, 2);
      if !ok {
        return None;
      }
      value, off, ok := ReadField(blob, off, 2);
      if !ok {
        return None;
      }
      assert ReadEntry(blob[start..]) == Some((id, Secret(name, value), blob[off..]));
      out := out[id := Secret(name, value)];
    }
    return Some(out);
  }

  method ReadField(blob: bytes, off: nat, width: nat) returns (field: bytes, off': nat, ok: bool)
    requires off <= |blob|
    ensures ok <==> TakeField(blob[off..], width).Some?
    ensures ok ==> off' <= |blob| && TakeField(blob[off..], width).value == (field, blob[off'..])
  {
    field, off' := [], off;
    if off + width > |blob| {
      return field, off', false;
    }
    assert blob[off..][..width] == blob[off..off + width] && blob[off..][width..] == blob[off + width..];
    var len := FromBigEndian(blob[off..off + width]);
    off' := off + width;
    if off' + len > |blob| {
      return field, off', false;
    }
    assert blob[off'..][..len] == blob[off'..off' + len] && blob[off'..][len..] == blob[off' + len..];
    field := blob[off'..off' + len];
    off' := off' + len;
    ok := true;
  }

  // ---------- round trips ----------

  lemma FieldReads(len: bytes, field: bytes, rest: bytes)
    requires FromBigEndian(len) == |field|
    ensures TakeField(len + field + rest, |len|) == Some((field, rest))
  {
    var b := len + field + rest;
    assert b[..|len|] == len && b[|len|..] == field + rest;
    assert (field + rest)[..|field|] == field && (field + rest)[|field|..] == rest;
  }

  lemma OneByte(n: nat)
    requires n < 256
    ensures FromBigEndian([n % 256]) == n
  {
    assert [n % 256][..0] == [];
  }

  lemma EntryReads(id: bytes, s: Secret, rest: bytes)
    requires EntryFits(id, s)
    ensures ReadEntry(EntryBytes(id, s) + rest) == Some((id, s, rest))
  {
    var value := U16(|s.value|) + s.value + rest;
    var name := U16(|s.name|) + s.name + value;
    OneByte(|id|);
    U16Decodes(|s.name|);
    U16Decodes(|s.value|);
    hide TakeField, U16, FromBigEndian;
    FieldReads([|id| % 256], id, name);
    FieldReads(U16(|s.name|), s.name, value);
    FieldReads(U16(|s.value|), s.value, rest);
    EntryGroups([|id| % 256], id, U16(|s.name|), s.name, U16(|s.value|), s.value, rest);
  }

  lemma EntryGroups(a: bytes, b: bytes, c: bytes, d: bytes, e: bytes, f: bytes, rest: bytes)
    ensures a + b + c + d + e + f + rest == a + b + (c + d + (e + f + rest))
  {
  }

  function Picked(ids: seq<bytes>, m: Vault): Vault
    requires forall id :: id in ids ==> id in m
  {
    map id | id in ids :: m[id]
  }

  lemma PickNext(ids: seq<bytes>, m: Vault, sofar: Vault)
    requires ids != [] && forall id :: id in ids ==> id in m
    ensures sofar[ids[0] := m[ids[0]]] + Picked(ids[1..], m) == sofar + Picked(ids, m)
  {
    assert forall id :: id in ids <==> id == ids[0] || id in ids[1..];
  }

  lemma {:induction false} EntriesRead(ids: seq<bytes>, m: Vault, sofar: Vault)
    requires forall id :: id in ids ==> id in m && EntryFits(id, m[id])
    ensures ReadEntries(Entries(ids, m), |ids|, sofar) == Some((sofar + Picked(ids, m), []))
    decreases |ids|
  {
    if ids == [] {
      assert sofar + Picked(ids, m) == sofar;
    } else {
      EntryReads(ids[0], m[ids[0]], Entries(ids[1..], m));
      PickNext(ids, m, sofar);
      hide ReadEntry, EntryBytes, Picked, EntryFits;
      EntriesRead(ids[1..], m, sofar[ids[0] := m[ids[0]]]);
    }
  }

  lemma PickAll(ids: seq<bytes>, m: Vault)
    requires Order(ids, m)
    ensures map[] + Picked(ids, m) == m
  {
  }

  lemma DecodeStarts(n: nat, tail: bytes)
    requires n < TWO16
    ensures DecodeAll(U16(n) + tail) == ReadEntries(tail, n, map[])
  {
    U16Decodes(n);
    hide U16, FromBigEndian, ReadEntries;
    assert (U16(n) + tail)[..2] == U16(n) && (U16(n) + tail)[2..] == tail;
  }

  // Within the field limits every walk of the map decodes to the map, to the last byte
  lemma DecodeInvertsEnvelope(ids: seq<bytes>, m: Vault)
    requires Order(ids, m) && Fits(m)
    ensures DecodeAll(Envelope(ids, m)) == Some((m, []))
  {
    hide U16, Entries, DecodeAll, ReadEntries, Picked, EntryFits;
    OrderCounts(ids, m);
    PickAll(ids, m);
    DecodeStarts(|ids|, Entries(ids, m));
    EntriesRead(ids, m, map[]);
  }

  lemma {:induction false} EntriesAreWithinLimits(b: bytes, n: nat, m: Vault)
    requires forall id :: id in m ==> EntryFits(id, m[id])
    ensures var r := ReadEntries(b, n, m);
            r.Some? ==> |r.value.0| <= |m| + n && forall id :: id in r.value.0 ==> EntryFits(id, r.value.0[id])
    decreases n
  {
    hide ReadEntry;
    if n > 0 && ReadEntry(b).Some? {
      var (id, s, rest) := ReadEntry(b).value;
      assert m[id := s].Keys == m.Keys + {id};
      EntriesAreWithinLimits(rest, n - 1, m[id := s]);
    }
  }

  // Nothing outside the limits can ever be read
  lemma DecodedFits(blob: bytes)
    ensures Decoded(blob).Some? ==> Fits(Decoded(blob).value)
  {
    if Decoded(blob).Some? {
      var n := blob[..2];
      Widths();
      BigEndianEncodes(n);
      EntriesAreWithinLimits(blob[2..], FromBigEndian(n), map[]);
    }
  }

  // What Android stores is what either phone reads back, exactly when the map fits the fields; beyond that Android
  // stores a truncated length and the map is lost, where iOS refuses to write
  lemma RoundTripIffFits(ids: seq<bytes>, m: Vault)
    requires Order(ids, m)
    ensures Decoded(Envelope(ids, m)) == Some(m) <==> Fits(m)
  {
    if Fits(m) {
      DecodeInvertsEnvelope(ids, m);
    }
    DecodedFits(Envelope(ids, m));
  }

  lemma DigitsAsLength(b: bytes)
    requires |b| >= 2 && b[0] == b[1] == 48 && |b| < 12338
    ensures TakeField(b, 2).None?
  {
    var len := b[..2];
    assert len == [48] + [48] && len[..1] == [48] && len[1] == 48;
    assert [48][..0] == [];
    assert FromBigEndian(len) == 12336;
  }

  // At the first id that does not fit, 256 digits, the length is written as zero: the reader takes the digits for the
  // length of the label and runs past the end, so the whole stored map is lost
  lemma LongIdLosesTheMap() returns (id: bytes, m: Vault)
    ensures |id| == 256 && m == map[id := Secret([], [])] && Order([id], m) && !Fits(m)
    ensures Decoded(Envelope([id], m)) == None
  {
    id := seq(256, _ => 48);
    m := map[id := Secret([], [])];
    assert id in m && !EntryFits(id, m[id]);
    var rest := id + U16(0) + [] + U16(0) + [];
    OneByte(0);
    U16Decodes(0);
    FieldReads([0], [], rest);
    assert |U16(0)| == 2 && EntryBytes(id, m[id]) == [0] + [] + rest;
    assert rest[0] == id[0] == 48 && rest[1] == id[1] == 48;
    DigitsAsLength(rest);
    DecodeStarts(1, Entries([id], m));
    assert Entries([id], m) == EntryBytes(id, m[id]);
    hide U16, EntryBytes, TakeField;
    assert ReadEntry([0] + [] + rest).None?;
  }

  // ---------- the store ----------

  function Inserted(m: Vault, ids: seq<bytes>, secrets: seq<Secret>): Vault
    requires |ids| == |secrets|
  {
    if ids == [] then m
    else
      var last := |ids| - 1;
      Inserted(m, ids[..last], secrets[..last])[ids[last] := secrets[last]]
  }

  datatype Failure = KeyNotFound

  // The sealed file, seen through its authenticated decryption
  class KeyStore {
    var file: Option<bytes>

    ghost predicate Readable()
      reads this
    {
      file.Some? ==> Decoded(file.value).Some?
    }

    ghost function Contents(): Vault
      requires Readable()
      reads this
    {
      if file.None? then map[] else Decoded(file.value).value
    }

    constructor ()
      ensures Readable() && Contents() == map[]
    {
      file := None;
    }

    method LoadMap() returns (m: Vault)
      requires Readable()
      ensures m == Contents()
    {
      if file.None? {
        return map[];
      }
      var d := Decode(file.value);
      return d.value;
    }

    method Walk(m: Vault) returns (ids: seq<bytes>)
      ensures Order(ids, m)
    {
      ids := [];
      var rest := m.Keys;
      while rest != {}
        invariant rest <= m.Keys && forall i, j :: 0 <= i < j < |ids| ==> ids[i] != ids[j]
        invariant forall id :: id in ids <==> id in m && id !in rest
        decreases |rest|
      {
        var id: bytes :| id in rest;
        ids := ids + [id];
        rest := rest - {id};
      }
    }

    method SaveMap(m: Vault)
      modifies this
      ensures Fits(m) ==> Readable() && Contents() == m
      ensures !Fits(m) && Readable() ==> Contents() != m
    {
      var ids := Walk(m);
      var blob, _ := KotlinEncode(ids, m);
      RoundTripIffFits(ids, m);
      file := Some(blob);
    }

    // id is the random handle the call draws
    method PutSecret(id: bytes, name: bytes, plaintext: bytes)
      requires Readable()
      modifies this
      ensures Fits(old(Contents())[id := Secret(name, plaintext)]) ==>
                Readable() && Contents() == old(Contents())[id := Secret(name, plaintext)]
      ensures !Fits(old(Contents())[id := Secret(name, plaintext)]) && Readable() ==>
                Contents() != old(Contents())[id := Secret(name, plaintext)]
    {
      var m := LoadMap();
      SaveMap(m[id := Secret(name, plaintext)]);
    }

    // One save for all entries, so the file never holds a part of them
    method PutMany(ids: seq<bytes>, secrets: seq<Secret>)
      requires Readable() && |ids| == |secrets|
      modifies this
      ensures Fits(Inserted(old(Contents()), ids, secrets)) ==>
                Readable() && Contents() == Inserted(old(Contents()), ids, secrets)
      ensures !Fits(Inserted(old(Contents()), ids, secrets)) && Readable() ==>
                Contents() != Inserted(old(Contents()), ids, secrets)
    {
      var m := LoadMap();
      ghost var before := m;
      for i := 0 to |ids|
        invariant m == Inserted(before, ids[..i], secrets[..i])
      {
        assert ids[..i + 1][..i] == ids[..i] && secrets[..i + 1][..i] == secrets[..i];
        m := m[ids[i] := secrets[i]];
      }
      assert ids[..|ids|] == ids && secrets[..|ids|] == secrets;
      SaveMap(m);
    }

    method Delete(id: bytes) returns (r: Result<(), Failure>)
      requires Readable()
      modifies this
      ensures Readable() && Contents() == old(Contents()) - {id}
      ensures r.Ok? <==> id in old(Contents())
    {
      var m := LoadMap();
      StoredFits();
      if id !in m {
        assert m - {id} == m;
        return Err(KeyNotFound);
      }
      assert |(m - {id}).Keys| <= |m.Keys|;
      SaveMap(m - {id});
      return Ok(());
    }

    // What could be read once fits, so taking an entry out can always be saved
    lemma StoredFits()
      requires Readable()
      ensures Fits(Contents())
    {
      if file.Some? {
        DecodedFits(file.value);
      }
    }
  }
}
