/** An optional value, for lookups and decoders that may find nothing. */
module Wrappers {
  datatype Option<+T> = None | Some(value: T)
}

/**
 * The document values the services hand to the database driver: a small tree
 * whose documents keep their keys in order (bson.D). Coordinates are carried as
 * an opaque sequence of reals that the core only copies.
 */
module Bson {
  import opened Wrappers

  newtype byte = x: int | 0 <= x < 256

  /** The driver's 12-byte object identifier (primitive.ObjectID). */
  type ObjectId = b: seq<byte> | |b| == 12 witness [0, 0, 0, 0, 0, 0, 0, 0, 0, 0, 0, 0]

  datatype Value =
    | Null
    | Bool(b: bool)
    | Int(i: int)
    | Str(s: string)
    | Floats(coordinates: seq<real>)
    | Oid(id: ObjectId)
    | Doc(elems: seq<Elem>)

  /** One key/value element of an ordered document (bson.E). */
  datatype Elem = Elem(key: string, value: Value)

  /** The keys of an ordered document, in order. */
  function Keys(elems: seq<Elem>): seq<string> {
    if elems == [] then [] else [elems[0].key] + Keys(elems[1..])
  }

  lemma {:induction false} KeysConcat(a: seq<Elem>, b: seq<Elem>)
    ensures Keys(a + b) == Keys(a) + Keys(b)
  {
    if a != [] {
      assert (a + b)[0] == a[0] && (a + b)[1..] == a[1..] + b;
      KeysConcat(a[1..], b);
      calc {
        Keys(a + b);
        [a[0].key] + Keys(a[1..] + b);
        [a[0].key] + (Keys(a[1..]) + Keys(b));
        ([a[0].key] + Keys(a[1..])) + Keys(b);
      }
    } else {
      assert a + b == b;
    }
  }

  predicate DistinctKeys(elems: seq<Elem>) {
    forall i, j :: 0 <= i < j < |elems| ==> elems[i].key != elems[j].key
  }

  /**
   * The field map a decoder reads out of an ordered document: every key that
   * occurs is a field, and a later element wins over an earlier one. Lookup
   * below reads a repeated key the other way, taking the first element.
   */
  function ToMap(elems: seq<Elem>): map<string, Value> {
    if elems == [] then map[]
    else ToMap(elems[..|elems| - 1])[elems[|elems| - 1].key := elems[|elems| - 1].value]
  }

  /** The value of the first element named key, as a field lookup reads it. */
  function Lookup(elems: seq<Elem>, key: string): (r: Option<Value>)
    ensures r.Some? <==> key in Keys(elems)
  {
    if elems == [] then None
    else if elems[0].key == key then Some(elems[0].value)
    else Lookup(elems[1..], key)
  }

  /** A value Lookup finds is the value of the first element carrying that key. */
  lemma {:induction false} LookupIsFirstMatch(elems: seq<Elem>, key: string)
    ensures Lookup(elems, key).Some? ==>
              exists i :: 0 <= i < |elems| && elems[i].key == key && Lookup(elems, key).value == elems[i].value &&
                          forall j :: 0 <= j < i ==> elems[j].key != key
  {
    if elems != [] && elems[0].key != key && Lookup(elems, key).Some? {
      LookupIsFirstMatch(elems[1..], key);
      var i :| 0 <= i < |elems[1..]| && elems[1..][i].key == key && Lookup(elems[1..], key).value == elems[1..][i].value &&
                forall j :: 0 <= j < i ==> elems[1..][j].key != key;
      assert forall j :: 0 <= j < i + 1 ==> elems[j].key != key by {
        forall j | 0 <= j < i + 1 ensures elems[j].key != key {
          if j > 0 { assert elems[j] == elems[1..][j - 1]; }
        }
      }
      assert elems[i + 1] == elems[1..][i];
    } else if elems != [] && elems[0].key == key {
      assert elems[0].key == key;
    }
  }
}

/**
 * The driver's textual forms of an object identifier: ObjectIDFromHex accepts
 * exactly 24 hexadecimal digits of either case, and Hex writes 24 lower-case
 * digits, two per byte, high nibble first.
 */
module ObjectIds {
  import opened Wrappers
  import opened Bson

  predicate IsHexDigit(c: char) {
    '0' <= c <= '9' || 'a' <= c <= 'f' || 'A' <= c <= 'F'
  }

  predicate IsLowerHexDigit(c: char) {
    '0' <= c <= '9' || 'a' <= c <= 'f'
  }

  predicate IsObjectIdHex(s: string) {
    |s| == 24 && forall i :: 0 <= i < |s| ==> IsHexDigit(s[i])
  }

  function DigitValue(c: char): (v: int)
    requires IsHexDigit(c)
    ensures 0 <= v < 16
  {
    if c <= '9' then c as int - '0' as int
    else if c <= 'F' then c as int - 'A' as int + 10
    else c as int - 'a' as int + 10
  }

  function LowerDigit(n: int): (c: char)
    requires 0 <= n < 16
    ensures IsLowerHexDigit(c) && IsHexDigit(c) && DigitValue(c) == n
  {
    if n < 10 then ('0' as int + n) as char else ('a' as int + n - 10) as char
  }

  /** hex.DecodeString: pairs of hex digits to bytes; odd length or a non-digit fails. */
  function DecodeString(s: string): (r: Option<seq<byte>>)
    ensures r.Some? <==> |s| % 2 == 0 && forall i :: 0 <= i < |s| ==> IsHexDigit(s[i])
    ensures r.Some? ==> |r.value| == |s| / 2
  {
    if s == [] then Some([])
    else if |s| == 1 || !IsHexDigit(s[0]) || !IsHexDigit(s[1]) then None
    else
      match DecodeString(s[2..])
      case None => None
      case Some(rest) => Some([(DigitValue(s[0]) * 16 + DigitValue(s[1])) as byte] + rest)
  }

  /** hex.EncodeToString: two lower-case digits per byte. */
  function EncodeHex(b: seq<byte>): (s: string)
    ensures |s| == 2 * |b|
    ensures forall i :: 0 <= i < |s| ==> IsLowerHexDigit(s[i])
  {
    if b == [] then []
    else [LowerDigit(b[0] as int / 16), LowerDigit(b[0] as int % 16)] + EncodeHex(b[1..])
  }

  /** primitive.ObjectIDFromHex: the length check, then the hex decoding. */
  function FromHex(s: string): (r: Option<ObjectId>)
    ensures r.Some? <==> IsObjectIdHex(s)
  {
    if |s| != 24 then None
    else
      match DecodeString(s)
      case None => None
      case Some(b) => Some(b)
  }

  /** ObjectID.Hex. */
  function Hex(id: ObjectId): string {
    EncodeHex(id)
  }

  /** ObjectID.String, which the facades return as the new record's id: `ObjectID("<hex>")`. */
  function DriverString(id: ObjectId): string {
    "ObjectID(\"" + Hex(id) + "\")"
  }

  lemma {:induction false} DecodeOfEncode(b: seq<byte>)
    ensures DecodeString(EncodeHex(b)) == Some(b)
  {
    if b != [] {
      var s := EncodeHex(b);
      assert s[2..] == EncodeHex(b[1..]);
      DecodeOfEncode(b[1..]);
      assert (DigitValue(s[0]) * 16 + DigitValue(s[1])) as byte == b[0];
      assert [b[0]] + b[1..] == b;
    }
  }

  lemma ByteOfDigits(hi: int, lo: int)
    requires 0 <= hi < 16 && 0 <= lo < 16
    ensures 0 <= hi * 16 + lo < 256
    ensures (hi * 16 + lo) / 16 == hi && (hi * 16 + lo) % 16 == lo
  {
  }

  lemma LowerDigitOfValue(c: char)
    requires IsLowerHexDigit(c)
    ensures LowerDigit(DigitValue(c)) == c
  {
  }

  lemma EncodeHead(b: seq<byte>, c0: char, c1: char)
    requires b != [] && IsLowerHexDigit(c0) && IsLowerHexDigit(c1)
    requires b[0] as int == DigitValue(c0) * 16 + DigitValue(c1)
    ensures EncodeHex(b) == [c0, c1] + EncodeHex(b[1..])
  {
    ByteOfDigits(DigitValue(c0), DigitValue(c1));
    LowerDigitOfValue(c0);
    LowerDigitOfValue(c1);
  }

  lemma {:induction false} EncodeOfDecode(s: string)
    requires |s| % 2 == 0 && forall i :: 0 <= i < |s| ==> IsLowerHexDigit(s[i])
    ensures DecodeString(s).Some? && EncodeHex(DecodeString(s).value) == s
  {
    if s != [] {
      var tail := s[2..];
      EncodeOfDecode(tail);
      assert IsHexDigit(s[0]) && IsHexDigit(s[1]);
      var x := DigitValue(s[0]) * 16 + DigitValue(s[1]);
      ByteOfDigits(DigitValue(s[0]), DigitValue(s[1]));
      var b := [x as byte] + DecodeString(tail).value;
      assert DecodeString(s) == Some(b);
      EncodeHead(b, s[0], s[1]);
      assert b[1..] == DecodeString(tail).value;
      assert s == [s[0], s[1]] + tail;
    }
  }

  /** Reading back what Hex writes yields the same identifier. */
  lemma HexRoundTrip(id: ObjectId)
    ensures IsObjectIdHex(Hex(id))
    ensures FromHex(Hex(id)) == Some(id)
  {
    DecodeOfEncode(id);
  }

  /** Writing out what FromHex accepted gives the input back, for lower-case input. */
  lemma FromHexRoundTrip(s: string)
    requires |s| == 24 && forall i :: 0 <= i < |s| ==> IsLowerHexDigit(s[i])
    ensures FromHex(s).Some? && Hex(FromHex(s).value) == s
  {
    EncodeOfDecode(s);
  }

  /** The driver's String form is twelve characters longer than any string FromHex accepts. */
  lemma DriverStringIsNotHex(id: ObjectId)
    ensures |DriverString(id)| == 36
    ensures FromHex(DriverString(id)) == None
  {
  }
}
