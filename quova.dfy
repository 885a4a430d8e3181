/**
 * The packet codec of quova.py, a stand-in for a Quova geolocation server.
 *
 * A request carries an IPv4 address in its last four bytes; the reply is a
 * fixed header, ten length-prefixed lower-cased fields of the GeoIP record,
 * each followed by a separator and the code of the next field, and a fixed
 * trailer.  A record that cannot be encoded yields an all-zero "no records"
 * reply.  The program runs under Python 2, where `str` is a byte string: the
 * record's field texts (`str(ipinfo[key])`) are byte strings here.  The GeoIP
 * lookup, the sockets, syslog and the worker threads are not modelled.
 */
module Quova {
  import opened Common
  import opened PyText

  type Bytes = seq<byte>

  /** The address used when a request is too short: near the centre of the 48 contiguous states. */
  const DEFAULT_IP: string := "129.130.8.50"

  // ---------------------------------------------------------------------------
  // Requests
  // ---------------------------------------------------------------------------

  /** `"%d"` of each byte. */
  function Decimals(ip: Bytes): (parts: seq<string>)
    ensures |parts| == |ip|
  {
    if ip == [] then [] else [Decimal(ip[0])] + Decimals(ip[1..])
  }

  /** `"%d.%d.%d.%d"` of four bytes. */
  function DottedQuad(ip: Bytes): string
    requires |ip| == 4
  {
    JoinOn(Decimals(ip), '.')
  }

  /**
   * `decode_quova`: the dotted quad of the last four bytes; when there are
   * fewer than four, `IP[3]` raises and the default address is used.
   */
  function DecodeQuova(data: Bytes): string
  {
    if |data| < 4 then DEFAULT_IP else DottedQuad(data[|data| - 4..])
  }

  /** Reads a dotted quad back: four decimal parts, each below 256. */
  function ParseQuad(s: string): Option<Bytes>
  {
    var parts := SplitOn(s, '.');
    if |parts| != 4 then None else Octets(parts)
  }

  /** Decimal parts read as bytes, or None when one is not a decimal below 256. */
  function Octets(parts: seq<string>): Option<Bytes>
  {
    if parts == [] then Some([])
    else match Digits(parts[0])
      case None => None
      case Some(v) =>
        if v >= 256 then None
        else match Octets(parts[1..])
          case None => None
          case Some(rest) => Some([v as byte] + rest)
  }

  lemma NoDotInDecimal(n: nat)
    ensures '.' !in Decimal(n)
  {
    assert AllDigits(Decimal(n));
  }

  /** Each byte's decimal is read back as that byte, and none holds a dot. */
  lemma {:induction false} OctetsOfDecimals(ip: Bytes)
    ensures Octets(Decimals(ip)) == Some(ip)
    ensures forall k :: 0 <= k < |ip| ==> '.' !in Decimals(ip)[k]
  {
    if ip != [] {
      OctetsOfDecimals(ip[1..]);
      DigitsOfDecimal(ip[0]);
      NoDotInDecimal(ip[0]);
      assert Decimals(ip)[1..] == Decimals(ip[1..]);
      assert [ip[0]] + ip[1..] == ip;
    }
  }

  /** The address a request decodes to is exactly its last four bytes. */
  lemma DecodeQuovaRoundTrip(data: Bytes)
    requires |data| >= 4
    ensures ParseQuad(DecodeQuova(data)) == Some(data[|data| - 4..])
  {
    var ip := data[|data| - 4..];
    OctetsOfDecimals(ip);
    SplitOnJoin(Decimals(ip), '.');
  }

  /** The default address is the dotted quad of 129, 130, 8 and 50. */
  lemma DefaultIsDottedQuad()
    ensures DEFAULT_IP == DottedQuad([129, 130, 8, 50])
  {
    DefaultDecimals();
    var parts := ["129", "130", "8", "50"];
    assert JoinOn(parts[3..], '.') == "50";
    assert JoinOn(parts[2..], '.') == "8.50";
    assert JoinOn(parts[1..], '.') == "130.8.50";
  }

  lemma DefaultDecimals()
    ensures Decimals([129, 130, 8, 50]) == ["129", "130", "8", "50"]
  {
    DecimalOfThreeDigits(129, "129");
    DecimalOfThreeDigits(130, "130");
    DecimalOfTwoDigits(50, "50");
    assert Decimal(8) == "8";
  }

  lemma DecimalOfTwoDigits(n: nat, s: string)
    requires 10 <= n < 100 && |s| == 2
    requires s[0] == DigitChar(n / 10) && s[1] == DigitChar(n % 10)
    ensures Decimal(n) == s
  {
    assert Decimal(n / 10) == [s[0]];
  }

  lemma DecimalOfThreeDigits(n: nat, s: string)
    requires 100 <= n < 1000 && |s| == 3
    requires s[0] == DigitChar(n / 100) && s[1] == DigitChar(n / 10 % 10) && s[2] == DigitChar(n % 10)
    ensures Decimal(n) == s
  {
    assert Decimal(n / 10) == [s[0], s[1]];
  }

  /** A request shorter than four bytes decodes to the default address, 129.130.8.50. */
  lemma DecodeQuovaShort(data: Bytes)
    requires |data| < 4
    ensures ParseQuad(DecodeQuova(data)) == Some([129, 130, 8, 50])
  {
    DefaultIsDottedQuad();
    OctetsOfDecimals([129, 130, 8, 50]);
    SplitOnJoin(Decimals([129, 130, 8, 50]), '.');
  }

  // ---------------------------------------------------------------------------
  // uni_to_ba
  // ---------------------------------------------------------------------------

  /** A `bytearray`, shared by reference. */
  class ByteArray {
    var bytes: Bytes

    constructor (init: Bytes)
      ensures bytes == init
    {
      bytes := init;
    }

    method Append(b: byte)
      modifies this`bytes
      ensures bytes == old(bytes) + [b]
    {
      bytes := bytes + [b];
    }

    method Extend(more: Bytes)
      modifies this`bytes
      ensures bytes == old(bytes) + more
    {
      bytes := bytes + more;
    }
  }

  /**
   * The codes of the leading characters of `s` up to the first that does not
   * fit in a byte: what `append(ord(c))` manages before it raises.
   */
  function NarrowPrefix(s: string): (b: Bytes)
    ensures |b| <= |s|
    ensures forall i :: 0 <= i < |b| ==> b[i] == s[i] as int
    ensures |b| < |s| ==> s[|b|] as int >= 256
  {
    if s == [] || s[0] as int >= 256 then [] else [s[0] as int] + NarrowPrefix(s[1..])
  }

  /** A text of byte-sized characters is appended whole. */
  lemma NarrowPrefixOfNarrow(s: string)
    requires IsNarrow(s)
    ensures NarrowPrefix(s) == Narrow(s)
  {
  }

  /**
   * `uni_to_ba`: appends each character's code to the array it is given and
   * returns that same array.  A character that does not fit ends the loop
   * with an exception, and the handler returns the array too, so the codes
   * appended before it stay.
   */
  method UniToBa(ba: ByteArray, data: string) returns (r: ByteArray)
    modifies ba
    ensures r == ba
    ensures ba.bytes == old(ba.bytes) + NarrowPrefix(data)
  {
    var newba := ba;
    var i := 0;
    while i < |data|
      invariant 0 <= i <= |data| && newba == ba
      invariant i <= |NarrowPrefix(data)|
      invariant NarrowPrefix(data[i..]) == NarrowPrefix(data)[i..]
      invariant ba.bytes == old(ba.bytes) + NarrowPrefix(data)[..i]
    {
      if data[i] as int >= 256 {
        assert NarrowPrefix(data[i..]) == [];
        return ba;
      }
      assert data[i..][1..] == data[i + 1..];
      newba.Append(data[i] as int);
      i := i + 1;
    }
    assert NarrowPrefix(data)[..i] == NarrowPrefix(data);
    return newba;
  }

  // ---------------------------------------------------------------------------
  // Replies
  // ---------------------------------------------------------------------------

  /** Sixteen zero bytes, one record, twelve fields, then the "Mapped" field and the code of the first field. */
  const HEADER: Bytes := [0, 0, 0, 0, 0, 0, 0, 0, 0, 0, 0, 0, 0, 0, 0, 0, 1, 0, 0, 0, 0, 0, 0, 0,
    12, 0, 0, 0, 0, 0, 0, 0, 6, 77, 97, 112, 112, 101, 100, 255, 255, 255, 255, 0, 0, 0, 14, 0, 0, 0]

  const SEP: Bytes := [255, 255, 255, 255, 0, 0, 0]

  /** The record keys, in the order the reply carries them. */
  const FIELDS: seq<string> := ["country_name", "region_name", "city", "country_code", "dma_code",
    "area_code", "postal_code", "metro_code", "latitude", "longitude"]

  /** What follows each field's separator: the next field's code, or for the last field the trailer. */
  const NEXT: seq<Bytes> := [[6, 0, 0, 0], [7, 0, 0, 0], [3, 0, 0, 0], [10, 0, 0, 0], [27, 0, 0, 0],
    [15, 0, 0, 0], [4, 0, 0, 0], [8, 0, 0, 0], [9, 0, 0, 0], [2, 0, 0, 0, 1, 48, 255, 255, 255, 255]]

  /** The reply meaning zero records of zero fields. */
  const NO_RECORDS: Bytes := [0, 0, 0, 0, 0, 0, 0, 0, 0, 0, 0, 0, 0, 0, 0, 0,
    0, 0, 0, 0, 0, 0, 0, 0, 0, 0, 0, 0, 0, 0, 0, 0]

  /** The fields written through `uni_to_ba` (the others are added with `+=`). */
  predicate ViaUniToBa(i: nat) { i == 0 || i == 2 || i == 3 }

  function LowerByte(b: byte): byte
  {
    if 65 <= b <= 90 then b + 32 else b
  }

  /** `str.lower()` on a byte string: ASCII letters only. */
  function LowerBytes(s: Bytes): (r: Bytes)
    ensures |r| == |s|
    ensures forall i :: 0 <= i < |s| ==> r[i] == LowerByte(s[i])
  {
    if s == [] then [] else [LowerByte(s[0])] + LowerBytes(s[1..])
  }

  /** One field: its length in a byte, its lower-cased text, the separator and what follows it. */
  function FieldBytes(text: Bytes, i: nat): Bytes
    requires |text| < 256 && i < |FIELDS|
  {
    Framed(|text|, LowerBytes(text), SEP + NEXT[i])
  }

  /** A length byte, a body and what follows it. */
  function Framed(n: byte, body: Bytes, tail: Bytes): Bytes
  {
    [n] + body + tail
  }

  /** Field `i` can be written: the key is present and its text fits a one-byte length. */
  predicate Writable(info: map<string, Bytes>, i: nat)
    requires i < |FIELDS|
  {
    FIELDS[i] in info && |info[FIELDS[i]]| < 256
  }

  /** Fields `i` onwards, or None when one of them cannot be written. */
  function Body(info: map<string, Bytes>, i: nat): Option<Bytes>
    decreases |FIELDS| - i
  {
    if i >= |FIELDS| then Some([])
    else if !Writable(info, i) then None
    else match Body(info, i + 1)
      case None => None
      case Some(rest) => Some(FieldBytes(info[FIELDS[i]], i) + rest)
  }

  /** The reply when the record can be encoded; `info == None` is a failed lookup. */
  function Packet(info: Option<map<string, Bytes>>): Option<Bytes>
  {
    if info.None? then None
    else match Body(info.value, 0)
      case None => None
      case Some(b) => Some(HEADER + b)
  }

  /** `encode_quova`: the packet, or the no-records reply after any exception. */
  function Encoded(info: Option<map<string, Bytes>>): Bytes
  {
    if Packet(info).Some? then Packet(info).value else NO_RECORDS
  }

  /** The encoding fails exactly when the lookup failed, a key is missing or a text is longer than 255 bytes. */
  lemma {:induction false} BodyFails(info: map<string, Bytes>, i: nat)
    ensures Body(info, i).None? <==> exists j :: i <= j < |FIELDS| && !Writable(info, j)
    decreases |FIELDS| - i
  {
    if i < |FIELDS| {
      BodyFails(info, i + 1);
    }
  }

  // ---------------------------------------------------------------------------
  // Reading a reply back
  // ---------------------------------------------------------------------------

  /** Fields `i` onwards read from `p`: a length byte, that many bytes, the expected separator and code. */
  function ReadFields(p: Bytes, i: nat): Option<seq<Bytes>>
    decreases |FIELDS| - i
  {
    if i >= |FIELDS| then (if p == [] then Some([]) else None)
    else if p == [] then None
    else
      var n := p[0];
      var end := 1 + n + |SEP| + |NEXT[i]|;
      if |p| < end || p[1 + n..end] != SEP + NEXT[i] then None
      else match ReadFields(p[end..], i + 1)
        case None => None
        case Some(fs) => Some([p[1..1 + n]] + fs)
  }

  function ParsePacket(p: Bytes): Option<seq<Bytes>>
  {
    if |p| < |HEADER| || p[..|HEADER|] != HEADER then None else ReadFields(p[|HEADER|..], 0)
  }

  /** Every key from position `i` of `keys` on is in `info`. */
  ghost predicate HasKeys(info: map<string, Bytes>, keys: seq<string>, i: nat)
  {
    forall j :: i <= j < |keys| ==> keys[j] in info
  }

  lemma HasKeysStep(info: map<string, Bytes>, keys: seq<string>, i: nat)
    requires i < |keys| && keys[i] in info && HasKeys(info, keys, i + 1)
    ensures HasKeys(info, keys, i)
  {
    forall j | i <= j < |keys|
      ensures keys[j] in info
    {
      if j > i {
        assert i + 1 <= j;
      }
    }
  }

  /** The lower-cased texts of fields `i` onwards. */
  function Lowered(info: map<string, Bytes>, i: nat): seq<Bytes>
    requires HasKeys(info, FIELDS, i)
    decreases |FIELDS| - i
  {
    if i >= |FIELDS| then [] else [LowerBytes(info[FIELDS[i]])] + Lowered(info, i + 1)
  }

  /** One field is read back as its lower-cased text, the rest as what the rest reads to. */
  lemma ReadField(text: Bytes, i: nat, rest: Bytes)
    requires |text| < 256 && i < |FIELDS|
    ensures ReadFields(FieldBytes(text, i) + rest, i) == match ReadFields(rest, i + 1)
      case None => None
      case Some(fs) => Some([LowerBytes(text)] + fs)
  {
    var p := FieldBytes(text, i) + rest;
    var n := |text|;
    var end := 1 + n + |SEP| + |NEXT[i]|;
    assert p[0] == n;
    assert p[1 + n..end] == SEP + NEXT[i];
    assert p[1..1 + n] == LowerBytes(text);
    assert p[end..] == rest;
  }

  lemma {:induction false} ReadBody(info: map<string, Bytes>, i: nat)
    requires Body(info, i).Some?
    ensures HasKeys(info, FIELDS, i)
    ensures ReadFields(Body(info, i).value, i) == Some(Lowered(info, i))
    decreases |FIELDS| - i
  {
    if i < |FIELDS| {
      BodyStep(info, i);
      ReadBody(info, i + 1);
      HasKeysStep(info, FIELDS, i);
      var text := info[FIELDS[i]];
      ReadField(text, i, Body(info, i + 1).value);
      assert Lowered(info, i) == [LowerBytes(text)] + Lowered(info, i + 1);
    }
  }

  /** A body that can be written starts with field `i`, followed by the rest of the body. */
  lemma BodyStep(info: map<string, Bytes>, i: nat)
    requires i < |FIELDS| && Body(info, i).Some?
    ensures Writable(info, i) && Body(info, i + 1).Some?
    ensures Body(info, i).value == FieldBytes(info[FIELDS[i]], i) + Body(info, i + 1).value
  {
  }

  /** A reply that encodes a record reads back as the record's lower-cased field texts, in order. */
  lemma PacketRoundTrip(info: map<string, Bytes>)
    requires Packet(Some(info)).Some?
    ensures HasKeys(info, FIELDS, 0)
    ensures ParsePacket(Packet(Some(info)).value) == Some(Lowered(info, 0))
  {
    ReadBody(info, 0);
    var b := Body(info, 0).value;
    assert (HEADER + b)[..|HEADER|] == HEADER;
    assert (HEADER + b)[|HEADER|..] == b;
  }

  /** The fallback reply is not a record reply: it fails at the record count. */
  lemma NoRecordsIsNoPacket()
    ensures ParsePacket(NO_RECORDS) == None
  {
    assert NO_RECORDS[16] != HEADER[16];
  }

  /** The bytes built so far followed by the rest of the body, if it can be written. */
  function Continue(acc: Bytes, rest: Option<Bytes>): Option<Bytes>
  {
    match rest
      case None => None
      case Some(r) => Some(acc + r)
  }

  /** Writing field `i` moves its bytes from the rest of the body to the bytes built so far. */
  lemma ContinueStep(info: map<string, Bytes>, i: nat, acc: Bytes)
    requires i < |FIELDS| && Writable(info, i)
    ensures Continue(acc, Body(info, i)) == Continue(acc + FieldBytes(info[FIELDS[i]], i), Body(info, i + 1))
  {
    match Body(info, i + 1)
      case None =>
      case Some(r) =>
        assert acc + (FieldBytes(info[FIELDS[i]], i) + r) == acc + FieldBytes(info[FIELDS[i]], i) + r;
  }

  // ---------------------------------------------------------------------------
  // The responder
  // ---------------------------------------------------------------------------

  class Responder {
    /** Lookups answered so far. */
    var statcounter: int

    constructor ()
      ensures statcounter == 0
    {
      statcounter := 0;
    }

    /**
     * `encode_quova`: builds the reply field by field in one array; any
     * failure replaces it with the no-records reply.  Either way the
     * counter goes up by one.
     */
    method EncodeQuova(info: Option<map<string, Bytes>>) returns (packet: Bytes)
      modifies this`statcounter
      ensures packet == Encoded(info)
      ensures statcounter == old(statcounter) + 1
    {
      var ok := info.Some?;
      var resba := new ByteArray(HEADER);
      var i := 0;
      while ok && i < |FIELDS|
        invariant 0 <= i <= |FIELDS|
        invariant ok ==> info.Some? && |resba.bytes| >= |HEADER| && resba.bytes[..|HEADER|] == HEADER
        invariant ok ==> Packet(info) == Continue(resba.bytes, Body(info.value, i))
        invariant !ok ==> Packet(info) == None
        invariant fresh(resba) && statcounter == old(statcounter)
        decreases |FIELDS| - i, ok
      {
        var key := FIELDS[i];
        if key !in info.value || |info.value[key]| > 255 {
          ok := false;
        } else {
          ContinueStep(info.value, i, resba.bytes);
          resba := WriteField(resba, info.value[key], i);
          i := i + 1;
        }
      }
      packet := if ok then resba.bytes else NO_RECORDS;
      statcounter := statcounter + 1;
    }
  }

  /**
   * One field of `encode_quova`: the length byte, the lower-cased text
   * (through `uni_to_ba` for the fields that use it), the separator and
   * the next code, all appended to the same array.
   */
  method WriteField(resba: ByteArray, text: Bytes, i: nat) returns (r: ByteArray)
    requires |text| < 256 && i < |FIELDS|
    modifies resba
    ensures r == resba
    ensures resba.bytes == old(resba.bytes) + FieldBytes(text, i)
  {
    r := resba;
    r.Append(|text|);
    var lowered := LowerBytes(text);
    if ViaUniToBa(i) {
      NarrowOfLatin1(lowered);
      r := UniToBa(r, Latin1(lowered));
    } else {
      r.Extend(lowered);
    }
    var tail := SEP + NEXT[i];
    FramedParts(old(resba.bytes), |text|, lowered, tail);
    r.Extend(tail);
  }

  /** Appending the length byte, then the body, then the tail appends the framed field. */
  lemma FramedParts(acc: Bytes, n: byte, body: Bytes, tail: Bytes)
    ensures acc + [n] + body + tail == acc + Framed(n, body, tail)
  {
    assert acc + [n] + body + tail == acc + ([n] + body) + tail;
  }

  lemma NarrowOfLatin1(b: Bytes)
    ensures NarrowPrefix(Latin1(b)) == b
  {
    var s := Latin1(b);
    assert IsNarrow(s);
    NarrowPrefixOfNarrow(s);
    assert Narrow(s) == b;
  }
}
