/**
 * Decoding of a DNS-SD TXT record (the string format of section 6.1 of RFC 6763):
 * a sequence of records, each one length byte followed by that many bytes,
 * each record split at its first '=' into a key and an optional value.
 *
 * Keys and values are kept as bytes. The record bytes are split on byte 0x3D,
 * which never occurs inside a multi-byte UTF-8 sequence, so splitting before or
 * after UTF-8 decoding gives the same parts.
 */
module MDNSUtil {
  import opened Wrappers

  newtype uint8 = x: int | 0 <= x < 256

  type Bytes = seq<uint8>

  /** The decoded record: a key maps to its value, or to `None` (Java `null`) for a bare flag. */
  type TxtMap = map<Bytes, Option<Bytes>>

  /** `new String(data, offset + 1, length, UTF_8)` with a length running past the array. */
  datatype TxtError = StringIndexOutOfBounds(offset: nat, length: nat)

  /** The byte '='. */
  const EQUALS: uint8 := 0x3D

  /** Java's widening `(int) b` of a signed `byte`: 0x80..0xFF read as -128..-1. */
  function SignedByte(b: uint8): (v: int)
    ensures -128 <= v < 128
    ensures v <= 0 <==> b == 0 || b >= 128
  {
    if b < 128 then b as int else b as int - 256
  }

  /** `String.indexOf`: the position of the first occurrence of `x`, if any. */
  function IndexOf(s: Bytes, x: uint8): (r: Option<nat>)
    ensures r.Some? ==> r.value < |s|
  {
    if s == [] then None
    else if s[0] == x then Some(0)
    else
      var rest := IndexOf(s[1..], x);
      if rest.None? then None else Some(rest.value + 1)
  }

  /** The position found is the first occurrence; none is found only when there is none. */
  lemma {:induction false} IndexOfIsFirst(s: Bytes, x: uint8)
    ensures IndexOf(s, x).None? ==> forall j :: 0 <= j < |s| ==> s[j] != x
    ensures IndexOf(s, x).Some? ==>
      var i := IndexOf(s, x).value;
      s[i] == x && forall j :: 0 <= j < i ==> s[j] != x
  {
    if s != [] && s[0] != x {
      IndexOfIsFirst(s[1..], x);
      assert forall j :: 1 <= j < |s| ==> s[j] == s[1..][j - 1];
    }
  }

  /** The key and the optional value of one record: split at the first '=', if there is one. */
  function SplitRecord(rec: Bytes): (Bytes, Option<Bytes>) {
    match IndexOf(rec, EQUALS)
    case None => (rec, None)
    case Some(i) => (rec[..i], Some(rec[i + 1..]))
  }

  /** The key is the text before the first '=' and the value all of the text after it. */
  lemma SplitRecordParts(rec: Bytes)
    ensures SplitRecord(rec).1.Some? ==>
      rec == SplitRecord(rec).0 + [EQUALS] + SplitRecord(rec).1.value && EQUALS !in SplitRecord(rec).0
    ensures SplitRecord(rec).1.None? ==> SplitRecord(rec).0 == rec && EQUALS !in rec
  {
    var r := IndexOf(rec, EQUALS);
    IndexOfIsFirst(rec, EQUALS);
    if r.Some? {
      var i := r.value;
      assert rec == rec[..i] + [EQUALS] + rec[i + 1..];
    }
  }

  /** Store one record: its key now maps to its value, overwriting any earlier entry. */
  function Put(acc: TxtMap, rec: Bytes): TxtMap {
    var kv := SplitRecord(rec);
    acc[kv.0 := kv.1]
  }

  /**
   * The decoding loop from cursor `offset`, with `acc` the entries read so far:
   * stop at the end of the data or at a length byte that reads as zero or
   * negative; fail when the record runs past the end; otherwise store the
   * record (overwriting an earlier entry for the same key) and move on.
   */
  function DecodeFrom(data: Bytes, offset: nat, acc: TxtMap): Result<TxtMap, TxtError>
    decreases |data| - offset
  {
    if offset >= |data| then Ok(acc)
    else
      var length := SignedByte(data[offset]);
      if length <= 0 then Ok(acc)
      else if offset + 1 + length > |data| then Err(StringIndexOutOfBounds(offset + 1, length))
      else
        DecodeFrom(data, offset + 1 + length, Put(acc, data[offset + 1..offset + 1 + length]))
  }

  /** What `parseTxt` computes for the whole array. */
  function Decode(data: Bytes): Result<TxtMap, TxtError> {
    DecodeFrom(data, 0, map[])
  }

  /** One turn of the decoding loop over a record that fits. */
  lemma DecodeNext(data: Bytes, offset: nat, acc: TxtMap, length: int)
    requires offset < |data| && length == SignedByte(data[offset])
    requires 0 < length && offset + 1 + length <= |data|
    ensures DecodeFrom(data, offset, acc) == DecodeFrom(data, offset + 1 + length, Put(acc, data[offset + 1..offset + 1 + length]))
  {
  }

  /** Storing a record by the position of its first '=', as the loop body does. */
  lemma PutAt(acc: TxtMap, rec: Bytes, eqPos: Option<nat>)
    requires eqPos == IndexOf(rec, EQUALS)
    ensures eqPos.Some? ==> Put(acc, rec) == acc[rec[..eqPos.value] := Some(rec[eqPos.value + 1..])]
    ensures eqPos.None? ==> Put(acc, rec) == acc[rec := None]
  {
  }

  /**
   * `MDNSUtil.parseTxt`: the cursor loop over the byte array. The array is only
   * read (there is no `modifies` clause).
   */
  method ParseTxt(data: array<uint8>) returns (r: Result<TxtMap, TxtError>)
    ensures r == Decode(data[..])
  {
    ghost var bytes := data[..];
    var m: TxtMap := map[];
    var offset := 0;
    while offset < data.Length
      invariant 0 <= offset <= data.Length
      invariant DecodeFrom(bytes, offset, m) == Decode(bytes)
      decreases data.Length - offset
    {
      var length := SignedByte(data[offset]);
      if length <= 0 {
        break;
      }
      if offset + 1 + length > data.Length {
        return Err(StringIndexOutOfBounds(offset + 1, length));
      }
      var stringData := data[offset + 1..offset + 1 + length];
      DecodeNext(bytes, offset, m, length);
      var eqPos := IndexOf(stringData, EQUALS);
      PutAt(m, stringData, eqPos);
      if eqPos.Some? {
        m := m[stringData[..eqPos.value] := Some(stringData[eqPos.value + 1..])];
      } else {
        m := m[stringData := None];
      }
      offset := offset + length + 1;
    }
    return Ok(m);
  }

  // ---------------------------------------------------------------------------
  // A reference encoder, and what decoding does to its output.

  /** A record the encoder can write: between 1 and 127 bytes, so its length byte is positive. */
  predicate Encodable(rec: Bytes) {
    1 <= |rec| <= 127
  }

  /** Length-prefixed concatenation of the records. */
  function Encode(recs: seq<Bytes>): (data: Bytes)
    requires forall i :: 0 <= i < |recs| ==> Encodable(recs[i])
  {
    if recs == [] then []
    else
      assert Encodable(recs[0]);
      [|recs[0]| as uint8] + recs[0] + Encode(recs[1..])
  }

  /** Store the records one after another, each overwriting any earlier entry for its key. */
  function Store(acc: TxtMap, recs: seq<Bytes>): TxtMap
    decreases recs
  {
    if recs == [] then acc else Store(Put(acc, recs[0]), recs[1..])
  }

  /** One iteration of the loop over a record of 1 to 127 bytes. */
  lemma DecodeStep(data: Bytes, offset: nat, acc: TxtMap, rec: Bytes)
    requires Encodable(rec) && offset + 1 + |rec| <= |data|
    requires data[offset] as int == |rec| && data[offset + 1..offset + 1 + |rec|] == rec
    ensures DecodeFrom(data, offset, acc)
         == DecodeFrom(data, offset + 1 + |rec|, Put(acc, rec))
  {
  }

  /** The encoding of a non-empty list starts with the first record's length byte and bytes. */
  lemma EncodeFirst(recs: seq<Bytes>)
    requires recs != [] && forall i :: 0 <= i < |recs| ==> Encodable(recs[i])
    ensures Encodable(recs[0])
    ensures Encode(recs) == [|recs[0]| as uint8] + recs[0] + Encode(recs[1..])
  {
  }

  /** Two regroupings of `prefix + e + tail` once `e` is split into a length byte, a record and the rest. */
  lemma Regroup(data: Bytes, prefix: Bytes, e: Bytes, tail: Bytes, b: uint8, rec: Bytes, rest: Bytes)
    requires data == prefix + e + tail && e == [b] + rec + rest
    ensures data == prefix + ([b] + rec + (rest + tail))
    ensures data == (prefix + [b] + rec) + rest + tail
  {
  }

  /** The length byte and the record bytes sit right after `prefix`. */
  lemma RecordAt(data: Bytes, prefix: Bytes, b: uint8, rec: Bytes, rest: Bytes)
    requires data == prefix + ([b] + rec + rest)
    ensures data[|prefix|] == b
    ensures data[|prefix| + 1..|prefix| + 1 + |rec|] == rec
  {
    assert data[|prefix|..] == [b] + rec + rest;
    assert data[|prefix| + 1..|prefix| + 1 + |rec|] == data[|prefix|..][1..1 + |rec|];
  }

  /** Where the first encoded record sits inside `data`. */
  lemma EncodedHead(data: Bytes, prefix: Bytes, recs: seq<Bytes>, tail: Bytes)
    requires recs != [] && forall i :: 0 <= i < |recs| ==> Encodable(recs[i])
    requires data == prefix + Encode(recs) + tail
    ensures Encodable(recs[0])
    ensures |Encode(recs)| == 1 + |recs[0]| + |Encode(recs[1..])|
    ensures data[|prefix|] as int == |recs[0]|
    ensures data[|prefix| + 1..|prefix| + 1 + |recs[0]|] == recs[0]
    ensures data == (prefix + [|recs[0]| as uint8] + recs[0]) + Encode(recs[1..]) + tail
  {
    var rec := recs[0];
    EncodeFirst(recs);
    var b := |rec| as uint8;
    var rest := Encode(recs[1..]);
    Regroup(data, prefix, Encode(recs), tail, b, rec, rest);
    RecordAt(data, prefix, b, rec, rest + tail);
  }

  /** The records `recs` are laid out, length byte then bytes, from `offset` on. */
  ghost predicate EncodedAt(data: Bytes, offset: nat, recs: seq<Bytes>)
    decreases recs
  {
    recs == [] ||
      (&& Encodable(recs[0])
       && offset + 1 + |recs[0]| <= |data|
       && data[offset] as int == |recs[0]|
       && data[offset + 1..offset + 1 + |recs[0]|] == recs[0]
       && EncodedAt(data, offset + 1 + |recs[0]|, recs[1..]))
  }

  /** The number of bytes the encoding of `recs` takes: a length byte and the bytes of each record. */
  ghost function EncodedSize(recs: seq<Bytes>): nat
    decreases recs
  {
    if recs == [] then 0 else 1 + |recs[0]| + EncodedSize(recs[1..])
  }

  lemma {:induction false} EncodeSize(recs: seq<Bytes>)
    requires forall i :: 0 <= i < |recs| ==> Encodable(recs[i])
    ensures |Encode(recs)| == EncodedSize(recs)
    decreases recs
  {
    if recs != [] {
      EncodeFirst(recs);
      EncodeSize(recs[1..]);
    }
  }

  /** Records encoded after `prefix` are laid out from offset `|prefix|`. */
  lemma {:induction false} EncodedAtPrefix(data: Bytes, prefix: Bytes, recs: seq<Bytes>, tail: Bytes)
    requires forall i :: 0 <= i < |recs| ==> Encodable(recs[i])
    requires data == prefix + Encode(recs) + tail
    ensures EncodedAt(data, |prefix|, recs)
    decreases recs
  {
    if recs != [] {
      EncodedHead(data, prefix, recs, tail);
      EncodedAtPrefix(data, prefix + [|recs[0]| as uint8] + recs[0], recs[1..], tail);
    }
  }

  /**
   * Decoding walks through laid-out records one at a time, storing each; it
   * reaches offset `end` with the entries `s`.
   */
  lemma {:induction false} DecodeEncodedAt(data: Bytes, offset: nat, recs: seq<Bytes>, acc: TxtMap, end: nat, s: TxtMap)
    requires EncodedAt(data, offset, recs)
    requires end == offset + EncodedSize(recs) && s == Store(acc, recs)
    ensures DecodeFrom(data, offset, acc) == DecodeFrom(data, end, s)
    decreases recs
  {
    if recs != [] {
      var rec := recs[0];
      DecodeStep(data, offset, acc, rec);
      DecodeEncodedAt(data, offset + 1 + |rec|, recs[1..], Put(acc, rec), end, s);
    }
  }

  /** Decoding from the start of encoded records ends up right after them, with the records stored. */
  lemma DecodeEncodedFrom(data: Bytes, prefix: Bytes, recs: seq<Bytes>, tail: Bytes, acc: TxtMap)
    requires forall i :: 0 <= i < |recs| ==> Encodable(recs[i])
    requires data == prefix + Encode(recs) + tail
    ensures DecodeFrom(data, |prefix|, acc) == DecodeFrom(data, |prefix| + |Encode(recs)|, Store(acc, recs))
  {
    EncodedAtPrefix(data, prefix, recs, tail);
    EncodeSize(recs);
    DecodeEncodedAt(data, |prefix|, recs, acc, |prefix| + |Encode(recs)|, Store(acc, recs));
    }

  /** An empty array decodes to an empty map. */
  lemma DecodeEmpty()
    ensures Decode([]) == Ok(map[])
  {
  }

  /** Decoding data that starts with encoded records reads those records first. */
  lemma DecodeEncodedPrefix(recs: seq<Bytes>, tail: Bytes)
    requires forall i :: 0 <= i < |recs| ==> Encodable(recs[i])
    ensures Decode(Encode(recs) + tail) == DecodeFrom(Encode(recs) + tail, |Encode(recs)|, Store(map[], recs))
  {
    var empty: Bytes := [];
    var data := Encode(recs) + tail;
    assert data == empty + Encode(recs) + tail;
    DecodeEncodedFrom(data, empty, recs, tail, map[]);
  }

  /** Decoding inverts encoding: the result is the records stored in order. */
  lemma DecodeEncode(recs: seq<Bytes>)
    requires forall i :: 0 <= i < |recs| ==> Encodable(recs[i])
    ensures Decode(Encode(recs)) == Ok(Store(map[], recs))
  {
    var empty: Bytes := [];
    assert Encode(recs) + empty == Encode(recs);
    DecodeEncodedPrefix(recs, empty);
  }

  /** The byte after the encoded records, and the regrouping `DecodeEncodedPrefix` expects. */
  lemma ByteAfter(e: Bytes, b: uint8, rest: Bytes)
    ensures e + [b] + rest == e + ([b] + rest)
    ensures |e| < |e + ([b] + rest)| && (e + ([b] + rest))[|e|] == b
  {
  }

  /**
   * A length byte of 0 or of 128 and above (negative as a Java `byte`) ends the
   * decoding: the entries read before it are kept and the bytes after it are ignored.
   */
  lemma DecodeStopsAtNonPositiveLength(recs: seq<Bytes>, stop: uint8, rest: Bytes)
    requires forall i :: 0 <= i < |recs| ==> Encodable(recs[i])
    requires stop == 0 || stop >= 128
    ensures Decode(Encode(recs) + [stop] + rest) == Ok(Store(map[], recs))
  {
    ByteAfter(Encode(recs), stop, rest);
    DecodeEncodedPrefix(recs, [stop] + rest);
  }

  /** A record whose declared length runs past the end of the data is an error, not a stop. */
  lemma DecodeOverrunFails(recs: seq<Bytes>, length: uint8, partial: Bytes)
    requires forall i :: 0 <= i < |recs| ==> Encodable(recs[i])
    requires 1 <= length < 128 && |partial| < length as int
    ensures Decode(Encode(recs) + [length] + partial).Err?
  {
    ByteAfter(Encode(recs), length, partial);
    DecodeEncodedPrefix(recs, [length] + partial);
  }

  /** A key that no record names keeps its entry (or its absence) from `acc`. */
  lemma {:induction false} StoreUntouched(acc: TxtMap, recs: seq<Bytes>, k: Bytes)
    requires forall i :: 0 <= i < |recs| ==> SplitRecord(recs[i]).0 != k
    ensures k in Store(acc, recs) <==> k in acc
    ensures k in acc ==> Store(acc, recs)[k] == acc[k]
    decreases recs
  {
    if recs != [] {
      StoreUntouched(Put(acc, recs[0]), recs[1..], k);
    }
  }

  /** Duplicate keys: the last record naming a key decides its entry. */
  lemma {:induction false} StoreLastWins(acc: TxtMap, recs: seq<Bytes>, i: nat)
    requires i < |recs|
    requires forall j :: i < j < |recs| ==> SplitRecord(recs[j]).0 != SplitRecord(recs[i]).0
    ensures SplitRecord(recs[i]).0 in Store(acc, recs)
    ensures Store(acc, recs)[SplitRecord(recs[i]).0] == SplitRecord(recs[i]).1
    decreases recs
  {
    var kv := SplitRecord(recs[0]);
    if i == 0 {
      StoreUntouched(Put(acc, recs[0]), recs[1..], kv.0);
    } else {
      StoreLastWins(Put(acc, recs[0]), recs[1..], i - 1);
    }
  }

  /** The keys of the decoded map are exactly the keys of the records. */
  lemma {:induction false} StoreKeys(acc: TxtMap, recs: seq<Bytes>, k: Bytes)
    ensures k in Store(acc, recs) <==> k in acc || exists i :: 0 <= i < |recs| && SplitRecord(recs[i]).0 == k
    decreases recs
  {
    if recs != [] {
      StoreKeys(Put(acc, recs[0]), recs[1..], k);
      if exists i :: 0 <= i < |recs[1..]| && SplitRecord(recs[1..][i]).0 == k {
        var i :| 0 <= i < |recs[1..]| && SplitRecord(recs[1..][i]).0 == k;
        assert SplitRecord(recs[i + 1]).0 == k;
      }
      if exists i :: 0 <= i < |recs| && SplitRecord(recs[i]).0 == k {
        var i :| 0 <= i < |recs| && SplitRecord(recs[i]).0 == k;
        if i > 0 {
          assert SplitRecord(recs[1..][i - 1]).0 == k;
        }
      }
    }
  }

  /**
   * The split is at the FIRST '=': a key without '=' followed by '=' and any
   * value (which may itself contain '=') splits back into that key and value;
   * a record without '=' is a flag whose value is `None`.
   */
  lemma SplitJoin(key: Bytes, value: Bytes)
    requires EQUALS !in key
    ensures SplitRecord(key + [EQUALS] + value) == (key, Some(value))
  {
    var rec := key + [EQUALS] + value;
    var kv := SplitRecord(rec);
    SplitRecordParts(rec);
    IndexOfIsFirst(rec, EQUALS);
    assert rec[|key|] == EQUALS;
    assert forall j :: 0 <= j < |key| ==> rec[j] == key[j];
    var i := |kv.0|;
    assert i == |key|;
    assert kv.0 == rec[..i] == key;
    assert kv.1.value == rec[i + 1..] == value;
  }

  lemma SplitFlag(rec: Bytes)
    requires EQUALS !in rec
    ensures SplitRecord(rec) == (rec, None)
  {
    IndexOfIsFirst(rec, EQUALS);
  }
}
