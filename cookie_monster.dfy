/**
 * The cookie codec of cookieMonster.py.  `makeCookie` lays out the base85
 * text of the Fernet key, the base85 text of the Fernet token of the
 * pickled data, and the base85 text of the SHA-512 hex digest of that
 * token; `eatCookie` cuts a cookie 55 characters from the start and 160
 * from the end, recomputes the digest of the middle and only when it
 * matches decrypts and unpickles.
 *
 * Fernet, SHA-512, base85 and pickle are the fields of a `Library` value;
 * the only facts the proofs use about them are the ones `Lawful` states.
 * UTF-8 encoding and Python's slicing are written out.
 */
module CookieMonster {
  import opened Common
  import opened PyText

  type Bytes = seq<byte>

  // ---------------------------------------------------------------------------
  // The library calls
  // ---------------------------------------------------------------------------

  /**
   * The foreign calls of the codec, `None` standing for a call that raises.
   * `fernetKey(k)` says whether `Fernet(k)` accepts the key; `encrypt` takes
   * the key, the random IV and clock reading Fernet draws, and the plain text.
   */
  datatype Library<!D> = Library(
    b85encode: Bytes -> Bytes,
    b85decode: Bytes -> Option<Bytes>,
    sha512hex: Bytes -> string,
    fernetKey: Bytes -> bool,
    encrypt: (Bytes, Bytes, Bytes) -> Bytes,
    decrypt: (Bytes, Bytes) -> Option<Bytes>,
    dumps: D -> Option<Bytes>,
    loads: Bytes -> Option<D>)

  /** The base85 alphabet of RFC 1924, which Python's `b85encode` uses. */
  predicate IsB85Digit(b: byte)
  {
    || 48 <= b <= 57 || 65 <= b <= 90 || 97 <= b <= 122
    || b in {33, 35, 36, 37, 38, 40, 41, 42, 43, 45, 59, 60, 61, 62, 63, 64, 94, 95, 96, 123, 124, 125, 126}
  }

  predicate AllB85Digits(b: Bytes)
  {
    forall i :: 0 <= i < |b| ==> IsB85Digit(b[i])
  }

  predicate IsAsciiText(s: string)
  {
    forall i :: 0 <= i < |s| ==> s[i] as int < 128
  }

  /** Length of `b85encode` (no padding) of `n` bytes: five digits per four bytes, `r + 1` for a tail of `r`. */
  function B85Length(n: nat): nat
  {
    5 * (n / 4) + (if n % 4 == 0 then 0 else n % 4 + 1)
  }

  /**
   * What the codec relies on: base85 decodes what it encodes, has the
   * length above, writes only alphabet digits and refuses anything else;
   * a SHA-512 hex digest is 128 ASCII characters; a key Fernet accepts
   * has at least 44 bytes (url-safe base64 of 32 bytes, which the lenient
   * decoder still finds when bytes outside the alphabet, such as a trailing
   * newline, are added); Fernet decrypts what it encrypted under the same
   * key; pickle loads what it dumped.
   */
  ghost predicate Lawful<D(!new)>(lib: Library<D>)
  {
    && (forall b :: lib.b85decode(lib.b85encode(b)) == Some(b))
    && (forall b :: |lib.b85encode(b)| == B85Length(|b|) && AllB85Digits(lib.b85encode(b)))
    && (forall b :: !AllB85Digits(b) ==> lib.b85decode(b) == None)
    && (forall b :: |lib.sha512hex(b)| == 128 && IsAsciiText(lib.sha512hex(b)))
    && (forall k :: lib.fernetKey(k) ==> |k| >= 44)
    && (forall k, n, m :: lib.fernetKey(k) ==> lib.decrypt(k, lib.encrypt(k, n, m)) == Some(m))
    && (forall d :: lib.dumps(d).Some? ==> lib.loads(lib.dumps(d).value) == Some(d))
  }

  lemma KeyAndDigestLengths()
    ensures B85Length(44) == 55 && B85Length(128) == 160
  {
  }

  // ---------------------------------------------------------------------------
  // Text: UTF-8 and slicing
  // ---------------------------------------------------------------------------

  /** `str.encode("utf-8")` of one character. */
  function Utf8Char(c: char): (b: Bytes)
    ensures 1 <= |b| <= 4
    ensures c as int < 128 ==> b == [c as int]
  {
    var n := c as int;
    if n < 0x80 then [n]
    else if n < 0x800 then [0xC0 + n / 0x40, 0x80 + n % 0x40]
    else if n < 0x1_0000 then [0xE0 + n / 0x1000, 0x80 + n / 0x40 % 0x40, 0x80 + n % 0x40]
    else [0xF0 + n / 0x4_0000, 0x80 + n / 0x1000 % 0x40, 0x80 + n / 0x40 % 0x40, 0x80 + n % 0x40]
  }

  /** `str.encode("utf-8")`. */
  function Utf8(s: string): (b: Bytes)
    ensures |b| >= |s|
  {
    if s == [] then [] else Utf8Char(s[0]) + Utf8(s[1..])
  }

  /** Text that is all ASCII encodes to as many bytes as it has characters. */
  lemma {:induction false} Utf8AsciiLength(s: string)
    requires IsAsciiText(s)
    ensures |Utf8(s)| == |s|
  {
    if s != [] {
      Utf8AsciiLength(s[1..]);
    }
  }

  /** Decoding base85 output as text and encoding it again gives the same bytes. */
  lemma {:induction false} Utf8OfLatin1(b: Bytes)
    requires AllB85Digits(b)
    ensures Utf8(Latin1(b)) == b
  {
    if b != [] {
      assert Latin1(b) == [b[0] as char] + Latin1(b[1..]);
      assert Latin1(b)[1..] == Latin1(b[1..]);
      Utf8OfLatin1(b[1..]);
    }
  }

  /** A Python index counted from the end when negative, clipped to `0..n`. */
  function Clip(i: int, n: nat): (j: nat)
    ensures j <= n
    ensures 0 <= i <= n ==> j == i
    ensures i < 0 && n + i >= 0 ==> j == n + i
  {
    if i < 0 then Max(0, n + i) else Min(i, n)
  }

  /** Python's `s[lo:hi]`. */
  function Slice<T>(s: seq<T>, lo: int, hi: int): (r: seq<T>)
    ensures |r| == Max(0, Clip(hi, |s|) - Clip(lo, |s|))
    ensures forall i :: 0 <= i < |r| ==> r[i] == s[Clip(lo, |s|) + i]
  {
    var a, b := Clip(lo, |s|), Clip(hi, |s|);
    if a < b then s[a..b] else []
  }

  const KEY_CHARS := 55
  const DIGEST_CHARS := 160

  /** `cookie[:55]`, the base85 text of the key. */
  function KeyPart(cookie: string): string { Slice(cookie, 0, KEY_CHARS) }

  /** `cookie[55:-160]`, the base85 text of the Fernet token. */
  function CipherPart(cookie: string): string { Slice(cookie, KEY_CHARS, -DIGEST_CHARS) }

  /** `cookie[-160:]`, the base85 text of the digest. */
  function DigestPart(cookie: string): string { Slice(cookie, -DIGEST_CHARS, |cookie|) }

  /** Three pieces of 55, any and 160 characters are cut back out of their concatenation. */
  lemma Parts(key: string, middle: string, digest: string)
    requires |key| == KEY_CHARS && |digest| == DIGEST_CHARS
    ensures KeyPart(key + middle + digest) == key
    ensures CipherPart(key + middle + digest) == middle
    ensures DigestPart(key + middle + digest) == digest
  {
    var c := key + middle + digest;
    assert KeyPart(c) == c[..55];
    assert CipherPart(c) == c[55..|c| - 160];
    assert DigestPart(c) == c[|c| - 160..];
  }

  // ---------------------------------------------------------------------------
  // makeCookie
  // ---------------------------------------------------------------------------

  /** The key `makeCookie` uses: the caller's, or the generated one when the caller's is empty. */
  function ChosenKey(key: Bytes, generated: Bytes): (k: Bytes)
    ensures k == [] ==> generated == []
    ensures key != [] ==> k == key
  {
    if key == [] then generated else key
  }

  /** The base85 text of the SHA-512 hex digest of `cdata`, as both functions compute it. */
  function Digest<D(!new)>(lib: Library<D>, cdata: Bytes): string
  {
    Latin1(lib.b85encode(Utf8(lib.sha512hex(cdata))))
  }

  /**
   * `makeCookie(data, key)`: `""` when Fernet refuses the key or pickling
   * raises, else key text, token text and digest text.  `generated` is what
   * `Fernet.generate_key()` would return and `nonce` the randomness Fernet
   * draws for the token.
   */
  function Make<D(!new)>(lib: Library<D>, data: D, key: Bytes, generated: Bytes, nonce: Bytes): (cookie: string)
  {
    var k := ChosenKey(key, generated);
    if !lib.fernetKey(k) then ""
    else match lib.dumps(data)
      case None => ""
      case Some(pdata) =>
        var cdata := lib.b85encode(lib.encrypt(k, nonce, pdata));
        Latin1(lib.b85encode(k)) + Latin1(cdata) + Digest(lib, cdata)
  }

  /**
   * The key length the docstring of `makeCookie` asks of its callers: 44
   * characters of base64, which is also what `Fernet.generate_key()` returns.
   */
  predicate DocumentedKey(key: Bytes, generated: Bytes)
  {
    |ChosenKey(key, generated)| == 44
  }

  /** The three pieces of a cookie that was made under a documented key. */
  lemma MadeParts<D(!new)>(lib: Library<D>, data: D, key: Bytes, generated: Bytes, nonce: Bytes)
    requires Lawful(lib) && DocumentedKey(key, generated)
    requires lib.fernetKey(ChosenKey(key, generated)) && lib.dumps(data).Some?
    ensures var k := ChosenKey(key, generated);
      var cdata := lib.b85encode(lib.encrypt(k, nonce, lib.dumps(data).value));
      var cookie := Make(lib, data, key, generated, nonce);
      && KeyPart(cookie) == Latin1(lib.b85encode(k))
      && CipherPart(cookie) == Latin1(cdata)
      && DigestPart(cookie) == Digest(lib, cdata)
  {
    var k := ChosenKey(key, generated);
    var cdata := lib.b85encode(lib.encrypt(k, nonce, lib.dumps(data).value));
    var hex := lib.sha512hex(cdata);
    Utf8AsciiLength(hex);
    KeyAndDigestLengths();
    Parts(Latin1(lib.b85encode(k)), Latin1(cdata), Digest(lib, cdata));
  }

  /** `makeCookie` returns `""` exactly when Fernet refuses the key or pickling raises. */
  lemma MakeEmpty<D(!new)>(lib: Library<D>, data: D, key: Bytes, generated: Bytes, nonce: Bytes)
    requires Lawful(lib)
    ensures Make(lib, data, key, generated, nonce) == "" <==> !lib.fernetKey(ChosenKey(key, generated)) || lib.dumps(data).None?
  {
    var k := ChosenKey(key, generated);
    if lib.fernetKey(k) && lib.dumps(data).Some? {
      assert |Latin1(lib.b85encode(k))| == B85Length(|k|) >= 55;
    }
  }

  /** The key text of a cookie decodes to the caller's key, or to the generated one when none was given. */
  lemma MakeCarriesKey<D(!new)>(lib: Library<D>, data: D, key: Bytes, generated: Bytes, nonce: Bytes)
    requires Lawful(lib) && DocumentedKey(key, generated)
    requires Make(lib, data, key, generated, nonce) != ""
    ensures lib.b85decode(Utf8(KeyPart(Make(lib, data, key, generated, nonce)))) == Some(if key == [] then generated else key)
  {
    var k := ChosenKey(key, generated);
    MadeParts(lib, data, key, generated, nonce);
    Utf8OfLatin1(lib.b85encode(k));
  }

  /** A cookie that was made passes the tamper check: its digest text is that of its middle. */
  lemma MadePassesCheck<D(!new)>(lib: Library<D>, data: D, key: Bytes, generated: Bytes, nonce: Bytes)
    requires Lawful(lib) && DocumentedKey(key, generated)
    requires Make(lib, data, key, generated, nonce) != ""
    ensures var cookie := Make(lib, data, key, generated, nonce);
      Digest(lib, Utf8(CipherPart(cookie))) == DigestPart(cookie)
  {
    var k := ChosenKey(key, generated);
    MadeParts(lib, data, key, generated, nonce);
    Utf8OfLatin1(lib.b85encode(lib.encrypt(k, nonce, lib.dumps(data).value)));
  }

  // ---------------------------------------------------------------------------
  // eatCookie
  // ---------------------------------------------------------------------------

  /** Which warning precedes a `None`: the digest did not match, or the try block raised. */
  datatype Refusal = Tampered | Undecodable

  /** What `eatCookie` does: returns the data, returns `None` for a reason, or raises. */
  datatype Eaten<D> = Eaten(data: D) | Refused(why: Refusal) | Raises

  /** Python's view of an outcome that returns: the data, or `None`. */
  function Returned<D(!new)>(e: Eaten<D>): (r: Option<D>)
    requires !e.Raises?
    ensures r.Some? <==> e.Eaten?
    ensures r.Some? ==> r.value == e.data
  {
    if e.Eaten? then Some(e.data) else None
  }

  /** The try block of `eatCookie`: Fernet of the key, base85 of the token, decryption, unpickling. */
  function Opened<D(!new)>(lib: Library<D>, key: Bytes, cdata: Bytes): (r: Eaten<D>)
    ensures !r.Raises?
    ensures r.Eaten? ==> lib.fernetKey(key)
  {
    if !lib.fernetKey(key) then Refused(Undecodable)
    else match lib.b85decode(cdata)
      case None => Refused(Undecodable)
      case Some(token) =>
        match lib.decrypt(key, token)
          case None => Refused(Undecodable)
          case Some(pdata) =>
            match lib.loads(pdata)
              case None => Refused(Undecodable)
              case Some(data) => Eaten(data)
  }

  /**
   * `eatCookie(cookie)` as written: the key text is decoded before the
   * tamper check and outside the try block, so a key text that is not
   * base85 raises; a digest mismatch is `None` before anything is decrypted.
   */
  function Eat<D(!new)>(lib: Library<D>, cookie: string): (r: Eaten<D>)
    ensures r.Raises? <==> lib.b85decode(Utf8(KeyPart(cookie))).None?
    ensures r.Eaten? ==> Digest(lib, Utf8(CipherPart(cookie))) == DigestPart(cookie)
  {
    match lib.b85decode(Utf8(KeyPart(cookie)))
      case None => Raises
      case Some(key) =>
        var cdata := Utf8(CipherPart(cookie));
        if Digest(lib, cdata) != DigestPart(cookie) then Refused(Tampered)
        else Opened(lib, key, cdata)
  }

  /**
   * `eatCookie` with the key decoded inside the try block, after the tamper
   * check: it never raises and agrees with `Eat` wherever `Eat` returns.
   */
  function EatChecked<D(!new)>(lib: Library<D>, cookie: string): (r: Eaten<D>)
    ensures !r.Raises?
    ensures !Eat(lib, cookie).Raises? ==> r == Eat(lib, cookie)
    ensures r.Eaten? ==> Digest(lib, Utf8(CipherPart(cookie))) == DigestPart(cookie)
  {
    var cdata := Utf8(CipherPart(cookie));
    if Digest(lib, cdata) != DigestPart(cookie) then Refused(Tampered)
    else match lib.b85decode(Utf8(KeyPart(cookie)))
      case None => Refused(Undecodable)
      case Some(key) => Opened(lib, key, cdata)
  }

  /** A digest mismatch refuses the cookie whatever Fernet and pickle would do. */
  lemma TamperedBeforeDecrypt<D(!new)>(lib: Library<D>, cookie: string, other: Library<D>)
    requires lib.b85decode(Utf8(KeyPart(cookie))).Some?
    requires Digest(lib, Utf8(CipherPart(cookie))) != DigestPart(cookie)
    requires other == lib.(fernetKey := other.fernetKey, decrypt := other.decrypt, loads := other.loads)
    ensures Eat(other, cookie) == Refused(Tampered)
  {
    assert Digest(other, Utf8(CipherPart(cookie))) == Digest(lib, Utf8(CipherPart(cookie)));
  }

  /** A cookie whose first character is a space raises in `Eat`; `EatChecked` refuses it. */
  lemma EatRaisesOnBadKey<D(!new)>(lib: Library<D>, cookie: string)
    requires Lawful(lib)
    requires cookie != [] && cookie[0] == ' '
    ensures Eat(lib, cookie).Raises?
    ensures EatChecked(lib, cookie).Refused?
  {
    var k := KeyPart(cookie);
    assert k[0] == ' ';
    assert k == [k[0]] + k[1..];
    assert Utf8(k)[0] == 32;
    assert !AllB85Digits(Utf8(k));
  }

  /**
   * Round trip: a cookie made from picklable data under a documented key
   * Fernet accepts is nonempty and eats back to the data.
   */
  lemma RoundTrip<D(!new)>(lib: Library<D>, data: D, key: Bytes, generated: Bytes, nonce: Bytes)
    requires Lawful(lib) && DocumentedKey(key, generated)
    requires lib.fernetKey(ChosenKey(key, generated)) && lib.dumps(data).Some?
    ensures Make(lib, data, key, generated, nonce) != ""
    ensures Eat(lib, Make(lib, data, key, generated, nonce)) == Eaten(data)
    ensures EatChecked(lib, Make(lib, data, key, generated, nonce)) == Eaten(data)
  {
    var k := ChosenKey(key, generated);
    var token := lib.encrypt(k, nonce, lib.dumps(data).value);
    var cookie := Make(lib, data, key, generated, nonce);
    MakeEmpty(lib, data, key, generated, nonce);
    MakeCarriesKey(lib, data, key, generated, nonce);
    MadePassesCheck(lib, data, key, generated, nonce);
    MadeParts(lib, data, key, generated, nonce);
    Utf8OfLatin1(lib.b85encode(token));
    assert Opened(lib, k, lib.b85encode(token)) == Eaten(data);
  }

  /** Pieces of more than 55, any and 160 characters: the cut at 55 falls inside the first. */
  lemma LongParts(key: string, middle: string, digest: string)
    requires |key| > KEY_CHARS && |digest| == DIGEST_CHARS
    ensures KeyPart(key + middle + digest) == key[..KEY_CHARS]
    ensures CipherPart(key + middle + digest) == key[KEY_CHARS..] + middle
    ensures DigestPart(key + middle + digest) == digest
  {
    var c := key + middle + digest;
    assert KeyPart(c) == c[..55];
    assert CipherPart(c) == c[55..|c| - 160];
    assert DigestPart(c) == c[|c| - 160..];
  }

  /** Reading bytes as characters commutes with slicing and concatenation. */
  lemma Latin1Split(a: Bytes, b: Bytes, n: nat)
    requires n <= |a|
    ensures Latin1(a)[..n] == Latin1(a[..n])
    ensures Latin1(a)[n..] + Latin1(b) == Latin1(a[n..] + b)
  {
  }

  /**
   * A key Fernet accepts that is longer than the documented 44 characters
   * (a valid key followed by a newline, say) has a base85 text longer than
   * 55 characters.  The cut at 55 then falls inside the key text: the middle
   * that `eatCookie` hashes starts with the rest of the key text, so the
   * cookie is eaten only if SHA-512 gives that longer middle the digest of
   * the token text alone.
   */
  lemma LongKeyShiftsCut<D(!new)>(lib: Library<D>, data: D, key: Bytes, generated: Bytes, nonce: Bytes)
    requires Lawful(lib)
    requires lib.fernetKey(ChosenKey(key, generated)) && lib.dumps(data).Some?
    requires |ChosenKey(key, generated)| > 44
    ensures var k := ChosenKey(key, generated);
      var pkey := lib.b85encode(k);
      var cdata := lib.b85encode(lib.encrypt(k, nonce, lib.dumps(data).value));
      var cookie := Make(lib, data, key, generated, nonce);
      && |pkey| > KEY_CHARS
      && KeyPart(cookie) == Latin1(pkey[..KEY_CHARS])
      && Utf8(CipherPart(cookie)) == pkey[KEY_CHARS..] + cdata
      && (Eat(lib, cookie).Eaten? ==> Digest(lib, pkey[KEY_CHARS..] + cdata) == Digest(lib, cdata))
  {
    var k := ChosenKey(key, generated);
    var pkey := lib.b85encode(k);
    var cdata := lib.b85encode(lib.encrypt(k, nonce, lib.dumps(data).value));
    assert |pkey| == B85Length(|k|) > KEY_CHARS;
    Utf8AsciiLength(lib.sha512hex(cdata));
    KeyAndDigestLengths();
    LongParts(Latin1(pkey), Latin1(cdata), Digest(lib, cdata));
    Latin1Split(pkey, cdata, KEY_CHARS);
    var rest := pkey[KEY_CHARS..] + cdata;
    assert AllB85Digits(rest) by {
      assert AllB85Digits(pkey) && AllB85Digits(cdata);
    }
    Utf8OfLatin1(rest);
  }
}
