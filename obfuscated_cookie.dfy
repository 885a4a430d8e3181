/**
 * obfuscated_cookie.py: the cookie codec again, under scrambled
 * identifiers (`IlIlIllIlllIlIllll` makes a cookie, `llIlIlllllIlIlIIlI`
 * eats one).  The two functions are written out here on their own, with
 * the slices `[:55]`, `[55:-160]` and `[-160:]` in closed form, and then
 * shown to compute exactly what `CookieMonster.Make` and
 * `CookieMonster.Eat` compute, so every property of those carries over.
 */
module ObfuscatedCookie {
  import opened Common
  import opened PyText
  import CookieMonster

  type Library<!D> = CookieMonster.Library<D>
  type Eaten<D> = CookieMonster.Eaten<D>

  /**
   * `IlIlIllIlllIlIllll(data, key)`: an empty key is replaced by the
   * `generated` one; a key Fernet refuses or data pickle refuses give `""`.
   */
  function Make<D(!new)>(lib: Library<D>, data: D, key: CookieMonster.Bytes, generated: CookieMonster.Bytes, nonce: CookieMonster.Bytes): (cookie: string)
  {
    var k := if key == [] then generated else key;
    if !lib.fernetKey(k) then ""
    else
      var pkey := lib.b85encode(k);
      match lib.dumps(data)
        case None => ""
        case Some(pdata) =>
          var cdata := lib.b85encode(lib.encrypt(k, nonce, pdata));
          var sha := Latin1(lib.b85encode(CookieMonster.Utf8(lib.sha512hex(cdata))));
          Latin1(pkey) + Latin1(cdata) + sha
  }

  /** `cookie[:55]` for a cookie of any length. */
  function Head(cookie: string): (s: string)
    ensures s <= cookie
  {
    cookie[..Min(55, |cookie|)]
  }

  /** `cookie[55:-160]`: empty unless the cookie is longer than 215 characters. */
  function Middle(cookie: string): (s: string)
    ensures |s| == Max(0, |cookie| - 215)
  {
    if |cookie| > 215 then cookie[55..|cookie| - 160] else []
  }

  /** `cookie[-160:]`: the whole cookie when it is shorter than 160 characters. */
  function Tail(cookie: string): (s: string)
    ensures |s| == Min(160, |cookie|)
  {
    cookie[Max(0, |cookie| - 160)..]
  }

  /**
   * `llIlIlllllIlIlIIlI(cookie)`: the key text is decoded before the
   * digest comparison and outside the try block; a mismatch is `None`
   * with a warning, any failure in the try block `None` with an error.
   */
  function Eat<D(!new)>(lib: Library<D>, cookie: string): (r: Eaten<D>)
  {
    match lib.b85decode(CookieMonster.Utf8(Head(cookie)))
      case None => CookieMonster.Raises
      case Some(key) =>
        var cdata := CookieMonster.Utf8(Middle(cookie));
        var sha := Latin1(lib.b85encode(CookieMonster.Utf8(lib.sha512hex(cdata))));
        if sha != Tail(cookie) then CookieMonster.Refused(CookieMonster.Tampered)
        else if !lib.fernetKey(key) then CookieMonster.Refused(CookieMonster.Undecodable)
        else match lib.b85decode(cdata)
          case None => CookieMonster.Refused(CookieMonster.Undecodable)
          case Some(token) =>
            match lib.decrypt(key, token)
              case None => CookieMonster.Refused(CookieMonster.Undecodable)
              case Some(pdata) =>
                match lib.loads(pdata)
                  case None => CookieMonster.Refused(CookieMonster.Undecodable)
                  case Some(data) => CookieMonster.Eaten(data)
  }

  /** The closed-form slices are Python's slices at 55 and -160. */
  lemma SlicesAgree(cookie: string)
    ensures Head(cookie) == CookieMonster.KeyPart(cookie)
    ensures Middle(cookie) == CookieMonster.CipherPart(cookie)
    ensures Tail(cookie) == CookieMonster.DigestPart(cookie)
  {
    var n := |cookie|;
    assert CookieMonster.Clip(-160, n) == Max(0, n - 160);
    assert CookieMonster.Clip(55, n) == Min(55, n);
    assert |CookieMonster.CipherPart(cookie)| == |Middle(cookie)|;
  }

  /** The make function computes `CookieMonster.Make`. */
  lemma MakeAgrees<D(!new)>(lib: Library<D>, data: D, key: CookieMonster.Bytes, generated: CookieMonster.Bytes, nonce: CookieMonster.Bytes)
    ensures Make(lib, data, key, generated, nonce) == CookieMonster.Make(lib, data, key, generated, nonce)
  {
  }

  /** The eat function computes `CookieMonster.Eat`, raising on the same cookies. */
  lemma EatAgrees<D(!new)>(lib: Library<D>, cookie: string)
    ensures Eat(lib, cookie) == CookieMonster.Eat(lib, cookie)
  {
    SlicesAgree(cookie);
  }

  /** The test's claim, under a documented key: the cookie is nonempty and eats back to the data. */
  lemma RoundTrip<D(!new)>(lib: Library<D>, data: D, key: CookieMonster.Bytes, generated: CookieMonster.Bytes, nonce: CookieMonster.Bytes)
    requires CookieMonster.Lawful(lib) && CookieMonster.DocumentedKey(key, generated)
    requires lib.fernetKey(if key == [] then generated else key) && lib.dumps(data).Some?
    ensures Make(lib, data, key, generated, nonce) != ""
    ensures Eat(lib, Make(lib, data, key, generated, nonce)) == CookieMonster.Eaten(data)
  {
    MakeAgrees(lib, data, key, generated, nonce);
    EatAgrees(lib, Make(lib, data, key, generated, nonce));
    CookieMonster.RoundTrip(lib, data, key, generated, nonce);
  }

  /** A digest mismatch is `None` whatever Fernet and pickle would do. */
  lemma TamperedIsNone<D(!new)>(lib: Library<D>, cookie: string)
    requires lib.b85decode(CookieMonster.Utf8(Head(cookie))).Some?
    requires CookieMonster.Digest(lib, CookieMonster.Utf8(Middle(cookie))) != Tail(cookie)
    ensures CookieMonster.Returned(Eat(lib, cookie)) == None
    ensures Eat(lib, cookie) == CookieMonster.Refused(CookieMonster.Tampered)
  {
  }
}
