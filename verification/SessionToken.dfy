/** Session tokens on the wire: minting, the bearer header, routing, and the client's session cache. */
module SessionToken {
  import opened Prelude
  import opened Text

  const SESSION_TOKEN_PREFIX := "mts_"
  const MAX_BEARER_TOKEN_BYTES := 16384
  const MAX_SESSION_TOKEN_BYTES := 16384
  const EXPIRY_SAFETY_MARGIN_SECONDS := 30
  const CACHE_VERSION := 1
  const U64_MAX := 0xFFFF_FFFF_FFFF_FFFF

  type Byte = x: int | 0 <= x < 256

  // ---- Base64 with the URL-safe alphabet, no padding (section 5 of RFC 4648) ----

  function Letter(v: nat): (c: char)
    requires v < 64
    ensures IsAlphanumeric(c) || c == '-' || c == '_'
  {
    if v < 26 then (v + 65) as char
    else if v < 52 then (v + 71) as char
    else if v < 62 then (v - 4) as char
    else if v == 62 then '-' else '_'
  }

  function Sextet(c: char): (v: nat)
    ensures v < 64
  {
    if 'A' <= c <= 'Z' then c as int - 65
    else if 'a' <= c <= 'z' then c as int - 71
    else if IsDigit(c) then c as int + 4
    else if c == '-' then 62 else 63
  }

  function Encode(bytes: seq<Byte>): string {
    if bytes == [] then []
    else if |bytes| == 1 then
      [Letter(bytes[0] / 4), Letter(bytes[0] % 4 * 16)]
    else if |bytes| == 2 then
      [Letter(bytes[0] / 4), Letter(bytes[0] % 4 * 16 + bytes[1] / 16), Letter(bytes[1] % 16 * 4)]
    else
      [Letter(bytes[0] / 4), Letter(bytes[0] % 4 * 16 + bytes[1] / 16),
       Letter(bytes[1] % 16 * 4 + bytes[2] / 64), Letter(bytes[2] % 64)]
      + Encode(bytes[3..])
  }

  /** The standard's decoder, as the partner of `Encode`. */
  function Decode(s: string): seq<Byte> {
    if |s| < 2 then []
    else if |s| == 2 then [Sextet(s[0]) * 4 + Sextet(s[1]) / 16]
    else if |s| == 3 then [Sextet(s[0]) * 4 + Sextet(s[1]) / 16, Sextet(s[1]) % 16 * 16 + Sextet(s[2]) / 4]
    else
      [Sextet(s[0]) * 4 + Sextet(s[1]) / 16, Sextet(s[1]) % 16 * 16 + Sextet(s[2]) / 4,
       Sextet(s[2]) % 4 * 64 + Sextet(s[3])]
      + Decode(s[4..])
  }

  lemma SextetOfLetter(v: nat)
    requires v < 64
    ensures Sextet(Letter(v)) == v
  {
  }

  /** The sextets of a group of three bytes give the bytes back. */
  lemma Regroup(a: Byte, b: Byte, c: Byte)
    ensures var v, w, x := a / 4, a % 4 * 16 + b / 16, b % 16 * 4 + c / 64;
            && v * 4 + w / 16 == a && w % 16 * 16 + x / 4 == b && x % 4 * 64 + c % 64 == c
            && w < 64 && x < 64
  {
  }

  lemma DecodeGroup(a: Byte, b: Byte, c: Byte, rest: string)
    ensures Decode([Letter(a / 4), Letter(a % 4 * 16 + b / 16), Letter(b % 16 * 4 + c / 64), Letter(c % 64)] + rest)
         == [a, b, c] + Decode(rest)
  {
    Regroup(a, b, c);
    SextetOfLetter(a / 4);
    SextetOfLetter(a % 4 * 16 + b / 16);
    SextetOfLetter(b % 16 * 4 + c / 64);
    SextetOfLetter(c % 64);
    var group := [Letter(a / 4), Letter(a % 4 * 16 + b / 16), Letter(b % 16 * 4 + c / 64), Letter(c % 64)];
    assert (group + rest)[4..] == rest;
  }

  lemma DecodeOne(a: Byte)
    ensures Decode([Letter(a / 4), Letter(a % 4 * 16)]) == [a]
  {
  }

  lemma DecodeTwo(a: Byte, b: Byte)
    ensures Decode([Letter(a / 4), Letter(a % 4 * 16 + b / 16), Letter(b % 16 * 4)]) == [a, b]
  {
    Regroup(a, b, 0);
    SextetOfLetter(a / 4);
    SextetOfLetter(a % 4 * 16 + b / 16);
    SextetOfLetter(b % 16 * 4);
  }

  lemma {:induction false} DecodeEncode(bytes: seq<Byte>)
    ensures Decode(Encode(bytes)) == bytes
  {
    if |bytes| == 1 {
      DecodeOne(bytes[0]);
      assert bytes == [bytes[0]];
    } else if |bytes| == 2 {
      DecodeTwo(bytes[0], bytes[1]);
      assert bytes == [bytes[0], bytes[1]];
    } else if |bytes| > 2 {
      DecodeEncode(bytes[3..]);
      DecodeGroup(bytes[0], bytes[1], bytes[2], Encode(bytes[3..]));
      assert bytes == [bytes[0], bytes[1], bytes[2]] + bytes[3..];
    }
  }

  predicate IsTokenChar(c: char) { IsAlphanumeric(c) || c == '-' || c == '_' }

  lemma {:induction false} EncodeShape(bytes: seq<Byte>)
    ensures forall i :: 0 <= i < |Encode(bytes)| ==> IsTokenChar(Encode(bytes)[i])
    ensures 3 * |Encode(bytes)| <= 4 * |bytes| + 4
  {
    if |bytes| > 2 {
      EncodeShape(bytes[3..]);
    }
  }

  // ---- Minting and presenting a token ----

  /** A fresh session token from 32 random bytes. */
  function Token(random: seq<Byte>): string {
    SESSION_TOKEN_PREFIX + Encode(random)
  }

  datatype BearerError = MissingBearer | TokenTooLarge

  /** `HeaderValue::to_str` succeeds on visible ASCII, space and tab. */
  predicate VisibleAscii(s: string) {
    forall i :: 0 <= i < |s| ==> ' ' <= s[i] <= '~' || s[i] == '\t'
  }

  predicate HasWhitespace(s: string) {
    exists i :: 0 <= i < |s| && IsWhitespace(s[i])
  }

  /** The token in an Authorization header (section 2.1 of RFC 6750). */
  function BearerToken(header: Option<string>): Result<string, BearerError> {
    if header.None? || !VisibleAscii(header.value) then Err(MissingBearer)
    else
      var value := header.value;
      if |value| > MAX_BEARER_TOKEN_BYTES then Err(TokenTooLarge)
      else match FirstIndexOf(value, ' ')
           case None => Err(MissingBearer)
           case Some(i) =>
             var token := value[i + 1..];
             if !EqIgnoreAsciiCase(value[..i], "bearer") || token == [] || HasWhitespace(token) then Err(MissingBearer)
             else Ok(token)
  }

  /** `is_github_actions_jwt`; `headerOk` is the library's verdict on the first part. */
  predicate IsActionsJwt(token: string, headerOk: bool) {
    SplitCount(token, '.') == 3 && headerOk
  }

  /** What the client's session cache accepts as a token. */
  predicate ValidSessionToken(token: string) {
    StartsWith(token, SESSION_TOKEN_PREFIX) && Utf8Length(token) <= MAX_SESSION_TOKEN_BYTES && !HasWhitespace(token)
  }

  lemma TokenShape(random: seq<Byte>)
    ensures forall i :: 0 <= i < |Token(random)| ==> IsTokenChar(Token(random)[i])
    ensures |Token(random)| == 4 + |Encode(random)|
  {
    EncodeShape(random);
  }

  /** Different random bytes give different tokens. */
  lemma TokenIsInjective(a: seq<Byte>, b: seq<Byte>)
    requires Token(a) == Token(b)
    ensures a == b
  {
    assert Encode(a) == Token(a)[4..] && Encode(b) == Token(b)[4..];
    DecodeEncode(a);
    DecodeEncode(b);
  }

  lemma SchemeIsAlphanumeric(scheme: string)
    requires EqIgnoreAsciiCase(scheme, "bearer")
    ensures forall i :: 0 <= i < |scheme| ==> IsAlphanumeric(scheme[i])
  {
  }

  /** Every minted token survives the bearer header in any spelling of the scheme. */
  lemma TokenSurvivesHeader(random: seq<Byte>, scheme: string)
    requires |random| == 32 && EqIgnoreAsciiCase(scheme, "bearer")
    ensures BearerToken(Some(scheme + " " + Token(random))) == Ok(Token(random))
  {
    var token := Token(random);
    var value := scheme + " " + token;
    TokenShape(random);
    EncodeShape(random);
    SchemeIsAlphanumeric(scheme);
    assert ' ' !in scheme;
    FirstIndexAfter(scheme, ' ', token);
    var i := |scheme|;
    assert value[..i] == scheme && value[i + 1..] == token;
    assert VisibleAscii(value);
  }

  /** Every minted token is routed to the session store, never to the JWT path, and the client may cache it. */
  lemma TokenIsASessionToken(random: seq<Byte>, headerOk: bool)
    requires |random| == 32
    ensures !IsActionsJwt(Token(random), headerOk)
    ensures ValidSessionToken(Token(random))
  {
    var token := Token(random);
    TokenShape(random);
    EncodeShape(random);
    SplitWithoutSeparator(token, '.');
    AsciiLength(token);
    assert token[..4] == SESSION_TOKEN_PREFIX;
  }

  // ---- The client's session cache ----

  datatype Cached = Cached(version: nat, token: string, expiresAt: nat)

  /** A cache file: whether its owner and mode are private, and its JSON if it parses. */
  datatype CacheFile = CacheFile(isPrivate: bool, contents: Option<Cached>)

  function SaturatingAdd(a: nat, b: nat): nat {
    if a + b > U64_MAX then U64_MAX else a + b
  }

  predicate Usable(file: CacheFile, now: nat) {
    && file.isPrivate && file.contents.Some?
    && file.contents.value.version == CACHE_VERSION
    && ValidSessionToken(file.contents.value.token)
    && file.contents.value.expiresAt > SaturatingAdd(now, EXPIRY_SAFETY_MARGIN_SECONDS)
  }

  class SessionCache {
    var file: Option<CacheFile>

    /** Returns the cached token while it is usable; anything else that is there is deleted. */
    method Load(now: nat) returns (r: Option<string>)
      modifies this
      ensures r.Some? <==> old(file).Some? && Usable(old(file).value, now)
      ensures r.Some? ==> file == old(file) && r.value == old(file).value.contents.value.token
      ensures r.None? ==> file.None?
    {
      if file.None? {
        return None;
      }
      var f := file.value;
      if !f.isPrivate {
        file := None;
        return None;
      }
      if f.contents.None? {
        file := None;
        return None;
      }
      var cached := f.contents.value;
      if cached.version != CACHE_VERSION || !ValidSessionToken(cached.token)
         || cached.expiresAt <= SaturatingAdd(now, EXPIRY_SAFETY_MARGIN_SECONDS)
      {
        file := None;
        return None;
      }
      return Some(cached.token);
    }

    method Store(token: string, expiresIn: nat, now: nat) returns (stored: bool)
      modifies this
      ensures stored <==> ValidSessionToken(token) && expiresIn != 0
      ensures file == if stored
              then Some(CacheFile(true, Some(Cached(CACHE_VERSION, token, SaturatingAdd(now, expiresIn)))))
                      else old(file)
    {
      if !ValidSessionToken(token) || expiresIn == 0 {
        return false;
      }
      file := Some(CacheFile(true, Some(Cached(CACHE_VERSION, token, SaturatingAdd(now, expiresIn)))));
      return true;
    }
  }

  /** The file `Store` writes at `storedAt` for a session of `ttl` seconds. */
  function StoredFile(token: string, ttl: nat, storedAt: nat): CacheFile {
    CacheFile(true, Some(Cached(CACHE_VERSION, token, SaturatingAdd(storedAt, ttl))))
  }

  /** The server accepts the session at `now`. */
  predicate ServerAccepts(mintedAt: nat, ttl: nat, now: nat) {
    mintedAt + ttl > now
  }

  /** Stored within 30 seconds of minting, a token the cache returns is one the server still accepts. */
  lemma CachedTokenIsAccepted(token: string, mintedAt: nat, ttl: nat, storedAt: nat, now: nat)
    requires storedAt <= mintedAt + EXPIRY_SAFETY_MARGIN_SECONDS && Usable(StoredFile(token, ttl, storedAt), now)
    ensures ServerAccepts(mintedAt, ttl, now)
  {
  }

  /**
   * Those 30 seconds are the exact limit: for any session the cache can return at all, every load
   * returns an accepted token if and only if it was stored in time.
   */
  lemma StoringDelayIsExact(token: string, mintedAt: nat, ttl: nat, storedAt: nat)
    requires ValidSessionToken(token) && EXPIRY_SAFETY_MARGIN_SECONDS < ttl && mintedAt <= storedAt
    requires storedAt + ttl <= U64_MAX
    ensures storedAt <= mintedAt + EXPIRY_SAFETY_MARGIN_SECONDS
            <==> forall now: nat :: storedAt <= now && Usable(StoredFile(token, ttl, storedAt), now) ==>
                   ServerAccepts(mintedAt, ttl, now)
  {
    if storedAt > mintedAt + EXPIRY_SAFETY_MARGIN_SECONDS {
      var now := if mintedAt + ttl > storedAt then mintedAt + ttl else storedAt;
      assert storedAt <= now && Usable(StoredFile(token, ttl, storedAt), now) && !ServerAccepts(mintedAt, ttl, now);
    }
  }

  // ---- What the parsers mean, in characters ----

  /** The URL-safe alphabet of section 5 of RFC 4648, in the order of its values. */
  const ALPHABET := UPPER + LOWER + DIGITS + "-_"

  lemma LetterTable(v: nat)
    requires v < 64
    ensures |ALPHABET| == 64 && Letter(v) == ALPHABET[v]
  {
    if v < 26 {
      LowerCaseOf(v);
    } else if v < 52 {
      LowerCaseOf(v - 26);
    } else if v < 62 {
      DigitOf(v - 52);
    }
  }

  /** A bearer header: the scheme in any case, one space, and a token without space or tab, in visible ASCII. */
  ghost predicate IsBearer(header: Option<string>, scheme: string, token: string) {
    && header == Some(scheme + " " + token) && |scheme + " " + token| <= 16384
    && (forall c :: c in scheme + " " + token ==> ' ' <= c <= '~' || c == '\t')
    && EqIgnoreAsciiCase(scheme, "bearer")
    && token != "" && ' ' !in token && '\t' !in token
  }

  ghost predicate IsVisible(value: string) {
    forall c :: c in value ==> ' ' <= c <= '~' || c == '\t'
  }

  lemma VisibleMeans(value: string)
    ensures VisibleAscii(value) <==> IsVisible(value)
  {
    assert forall k :: 0 <= k < |value| ==> value[k] in value;
  }

  /** In visible text the only whitespace is space and tab. */
  lemma VisibleWhitespace(value: string)
    requires IsVisible(value)
    ensures HasWhitespace(value) <==> ' ' in value || '\t' in value
  {
    assert forall k :: 0 <= k < |value| ==> value[k] in value;
  }

  lemma BearerParsed(value: string, token: string)
    requires BearerToken(Some(value)) == Ok(token)
    ensures exists scheme :: IsBearer(Some(value), scheme, token)
  {
    var i := FirstIndexOf(value, ' ').value;
    var scheme := value[..i];
    assert value == scheme + " " + token;
    VisibleMeans(value);
    assert IsVisible(token) by {
      assert forall c :: c in token ==> c in value;
    }
    VisibleWhitespace(token);
    assert IsBearer(Some(value), scheme, token);
  }

  lemma BearerParses(value: string, scheme: string, token: string)
    requires IsBearer(Some(value), scheme, token)
    ensures BearerToken(Some(value)) == Ok(token)
  {
    VisibleMeans(value);
    assert IsVisible(token) by {
      assert forall c :: c in token ==> c in scheme + " " + token;
    }
    VisibleWhitespace(token);
    SchemeIsAlphanumeric(scheme);
    FirstIndexAfter(scheme, ' ', token);
    assert value == scheme + [' '] + token && value[..|scheme|] == scheme && value[|scheme| + 1..] == token;
  }

  lemma BearerTokenMeans(header: Option<string>, token: string)
    ensures BearerToken(header) == Ok(token) <==> exists scheme :: IsBearer(header, scheme, token)
  {
    if BearerToken(header) == Ok(token) {
      BearerParsed(header.value, token);
    }
    if scheme :| IsBearer(header, scheme, token) {
      BearerParses(header.value, scheme, token);
    }
  }

  /** A header is too large only past 16,384 bytes, and any other that carries no token is missing one. */
  lemma BearerErrorMeans(header: Option<string>)
    ensures BearerToken(header) == Err(TokenTooLarge) <==>
            header.Some? && |header.value| > 16384 && IsVisible(header.value)
    ensures BearerToken(header) == Err(MissingBearer) <==>
            && !(header.Some? && |header.value| > 16384 && IsVisible(header.value))
            && !exists token, scheme :: IsBearer(header, scheme, token)
  {
    if header.Some? {
      VisibleMeans(header.value);
    }
    var parsed := BearerToken(header);
    if parsed.Ok? {
      BearerTokenMeans(header, parsed.value);
    }
    if token, scheme :| IsBearer(header, scheme, token) {
      BearerTokenMeans(header, token);
    }
  }

  /** A token is taken for a JWT exactly when it has three parts between dots and a good header. */
  lemma IsActionsJwtMeans(token: string, headerOk: bool)
    ensures IsActionsJwt(token, headerOk) <==> headerOk && exists p, q, r :: ThreeParts(token, '.', p, q, r)
  {
    SplitInThreeMeans(token, '.');
  }

  /** What the client's cache returns: a private file of this version, with a good token, not about to expire. */
  lemma UsableMeans(file: CacheFile, now: nat)
    ensures Usable(file, now) <==>
            && file.isPrivate && file.contents.Some? && file.contents.value.version == 1
            && "mts_" <= file.contents.value.token && Utf8Length(file.contents.value.token) <= 16384
            && (forall c :: c in file.contents.value.token ==> !IsWhitespace(c))
            && (file.contents.value.expiresAt > now + 30 || file.contents.value.expiresAt > 0xFFFF_FFFF_FFFF_FFFF)
  {
    if file.contents.Some? {
      var token := file.contents.value.token;
      assert forall k :: 0 <= k < |token| ==> token[k] in token;
    }
  }

  /** What was stored comes back exactly while the token is good and has more than 30 seconds to live. */
  lemma StoredIsUsableIff(token: string, ttl: nat, storedAt: nat, now: nat)
    ensures Usable(StoredFile(token, ttl, storedAt), now) <==>
            ValidSessionToken(token) && storedAt + ttl > now + 30 && now + 30 < 0xFFFF_FFFF_FFFF_FFFF
    ensures StoredFile(token, ttl, storedAt).contents.Some?
            && StoredFile(token, ttl, storedAt).contents.value.token == token
  {
  }
}
