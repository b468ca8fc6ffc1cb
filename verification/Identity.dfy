/** Identity assertions: signing them into a session description and validating them (`identity/`).

    Base64, JSON, UTF-8 input and ECDSA are libraries; of the first two only that reading inverts writing is used, of
    the last only that a key's own signatures verify. Instants are nanoseconds since the epoch. */
module Identity {
  import opened Std
  import opened Codec
  import opened Text
  import Utf8

  datatype Error = Missing | Malformed | Untrusted | ClientPublicKey | FingerprintMismatch | NoFingerprints | Signing

  // ---- libraries ----

  datatype Base64 = Base64(encode: seq<u8> -> string, decode: string -> Option<seq<u8>>) {
    ghost predicate Ideal() {
      forall b :: decode(encode(b)) == Some(b) && forall i | 0 <= i < |encode(b)| :: Base64Char(encode(b)[i])
    }
  }

  /** The characters of both alphabets and the padding. */
  predicate Base64Char(c: char) {
    IsDigit(c) || 'a' <= c <= 'z' || 'A' <= c <= 'Z' || c in {'+', '/', '-', '_', '='}
  }

  function Letter(n: nat): (c: char)
    requires n < 16
    ensures Base64Char(c)
  {
    'A' + n as char
  }

  function FromLetter(c: char): Option<nat> {
    if 'A' <= c <= 'P' then Some((c - 'A') as nat) else None
  }

  lemma LetterInverts(n: nat)
    requires n < 16
    ensures FromLetter(Letter(n)) == Some(n)
  {
    assert (Letter(n) - 'A') as nat == n;
  }

  function Pair(n: u8): (s: string)
    ensures |s| == 2 && Base64Char(s[0]) && Base64Char(s[1])
  {
    [Letter(n / 16), Letter(n % 16)]
  }

  function FromPair(a: char, b: char): Option<u8> {
    var high :- FromLetter(a);
    var low :- FromLetter(b);
    if high < 16 && low < 16 then Some(high * 16 + low) else None
  }

  lemma PairInverts(n: u8)
    ensures FromPair(Pair(n)[0], Pair(n)[1]) == Some(n)
  {
    hide Letter, FromLetter;
    LetterInverts(n / 16);
    LetterInverts(n % 16);
  }

  function Letters(b: seq<u8>): (s: string)
    ensures forall i | 0 <= i < |s| :: Base64Char(s[i])
  {
    if b == [] then "" else Pair(b[0]) + Letters(b[1..])
  }

  function FromLetters(s: string): Option<seq<u8>> {
    if s == "" then Some([])
    else if |s| == 1 then None
    else
      var first :- FromPair(s[0], s[1]);
      var rest :- FromLetters(s[2..]);
      Some([first] + rest)
  }

  lemma {:induction false} LettersInvert(b: seq<u8>)
    ensures FromLetters(Letters(b)) == Some(b)
  {
    hide Pair, FromPair, Base64Char;
    if b != [] {
      LettersInvert(b[1..]);
      PairInverts(b[0]);
      assert Letters(b)[2..] == Letters(b[1..]);
      assert [b[0]] + b[1..] == b;
    }
  }

  function SimpleBase64(): (r: Base64)
    ensures r.Ideal()
  {
    assert forall b :: FromLetters(Letters(b)) == Some(b) by {
      forall b {
        LettersInvert(b);
      }
    }
    Base64(Letters, FromLetters)
  }

  type IdealBase64 = b: Base64 | b.Ideal() witness SimpleBase64()

  /** `STANDARD` and `URL_SAFE_NO_PAD`. */
  const STANDARD: IdealBase64
  const URL_SAFE: IdealBase64

  type PublicKey = nat
  type SecretKey = nat

  datatype Claims = Claims(cpk: Option<PublicKey>, iat: nat, iss: Option<string>, exp: Option<nat>)

  datatype Idp = Idp(domain: string, protocol: string)
  datatype Assertion = Assertion(token: string, fingerprints: string)
  datatype Raw = Raw(idp: Idp, assertion: string)
  datatype Envelope = Envelope(idp: Idp, assertion: Assertion)

  /** The ASCII bytes of `{"alg":"ES384"}`. */
  const ES384_HEADER: seq<u8> :=
    [0x7B, 0x22, 0x61, 0x6C, 0x67, 0x22, 0x3A, 0x22, 0x45, 0x53, 0x33, 0x38, 0x34, 0x22, 0x7D]

  /** Writing may fail; what was written reads back. A quoted string shows where it ends. */
  datatype Json = Json(
    writeAssertion: Assertion -> Option<string>,
    readAssertion: string -> Option<Assertion>,
    writeRaw: Raw -> Option<string>,
    readRaw: string -> Option<Raw>,
    writeClaims: Claims -> Option<string>,
    readClaims: seq<u8> -> Option<Claims>,
    readAlgorithm: seq<u8> -> Option<string>,
    quote: string -> string)
  {
    ghost predicate Ideal() {
      && (forall a :: writeAssertion(a).Some? ==> readAssertion(writeAssertion(a).value) == Some(a))
      && (forall r :: writeRaw(r).Some? ==> readRaw(writeRaw(r).value) == Some(r))
      && (forall c :: writeClaims(c).Some? ==> readClaims(Utf8.Encode(writeClaims(c).value)) == Some(c))
      && readAlgorithm(ES384_HEADER) == Some("ES384")
      && (forall a, x, b, y :: quote(a) + x == quote(b) + y ==> a == b && x == y)
    }
  }

  /** Every character announced, and the end too. */
  function Marked(s: string): string {
    if s == "" then "." else [',', s[0]] + Marked(s[1..])
  }

  lemma MarkedStarts(s: string, x: string)
    ensures var t := Marked(s) + x;
            && |t| > 0
            && (if s == "" then t[0] == '.' && t[1..] == x
                else |t| > 1 && t[0] == ',' && t[1] == s[0] && t[2..] == Marked(s[1..]) + x)
  {
    if s != "" {
      assert Marked(s) + x == [',', s[0]] + (Marked(s[1..]) + x);
    }
  }

  lemma {:induction false} MarkedEnds(a: string, x: string, b: string, y: string)
    requires Marked(a) + x == Marked(b) + y
    ensures a == b && x == y
  {
    hide Marked;
    MarkedStarts(a, x);
    MarkedStarts(b, y);
    if a != "" {
      MarkedEnds(a[1..], x, b[1..], y);
      assert [a[0]] + a[1..] == a && [b[0]] + b[1..] == b;
    }
  }

  function SimpleJson(): (r: Json)
    ensures r.Ideal()
  {
    assert forall a, x, b, y :: Marked(a) + x == Marked(b) + y ==> a == b && x == y by {
      forall a, x, b, y | Marked(a) + x == Marked(b) + y {
        MarkedEnds(a, x, b, y);
      }
    }
    Json(_ => None, _ => None, _ => None, _ => None, _ => None, _ => None, _ => Some("ES384"), Marked)
  }

  type IdealJson = j: Json | j.Ideal() witness SimpleJson()

  const JSON: IdealJson

  datatype Ecdsa = Ecdsa(
    public: SecretKey -> PublicKey,
    sign: (SecretKey, seq<u8>) -> Option<seq<u8>>,
    wellFormed: seq<u8> -> bool,
    verify: (PublicKey, seq<u8>, seq<u8>) -> bool)
  {
    ghost predicate Ideal() {
      forall k, m :: sign(k, m).Some? ==> wellFormed(sign(k, m).value) && verify(public(k), m, sign(k, m).value)
    }
  }

  type IdealEcdsa = e: Ecdsa | e.Ideal() witness Ecdsa(k => k, (_, _) => None, _ => false, (_, _, _) => false)

  const ECDSA: IdealEcdsa

  // ---- compact signatures ----

  datatype Jws = Jws(algorithm: string, signingInput: string, payload: seq<u8>, signature: seq<u8>)

  function Bytes(text: string): Result<seq<u8>, Error> {
    match URL_SAFE.decode(text) case Some(b) => Ok(b) case None => Err(Malformed)
  }

  function Algorithm(header: string): Result<string, Error> {
    var bytes :- Bytes(header);
    match JSON.readAlgorithm(bytes) case Some(a) => Ok(a) case None => Err(Malformed)
  }

  function ParseCompact(compact: string): Result<Jws, Error> {
    var parts := Pieces(compact, {'.'});
    if |parts| != 3 then Err(Malformed)
    else
      var algorithm :- Algorithm(parts[0]);
      var payload :- Bytes(parts[1]);
      var signature :- Bytes(parts[2]);
      Ok(Jws(algorithm, parts[0] + ['.'] + parts[1], payload, signature))
  }

  function ParseDetached(compact: string, payload: string): Result<Jws, Error> {
    var parts := Pieces(compact, {'.'});
    if |parts| != 3 || parts[1] != "" then Err(Malformed)
    else
      var algorithm :- Algorithm(parts[0]);
      var signature :- Bytes(parts[2]);
      Ok(Jws(algorithm, parts[0] + ['.'] + URL_SAFE.encode(Utf8.Encode(payload)), Utf8.Encode(payload), signature))
  }

  function SignParts(key: SecretKey, payload: string): Result<(string, string, string), Error> {
    var header := URL_SAFE.encode(ES384_HEADER);
    var body := URL_SAFE.encode(Utf8.Encode(payload));
    match ECDSA.sign(key, Utf8.Encode(header + ['.'] + body))
    case None => Err(Signing)
    case Some(signature) => Ok((header, body, URL_SAFE.encode(signature)))
  }

  function Sign(key: SecretKey, payload: string): Result<string, Error> {
    var (header, body, signature) :- SignParts(key, payload);
    Ok(header + ['.'] + (body + ['.'] + signature))
  }

  function SignDetached(key: SecretKey, payload: string): Result<string, Error> {
    var (header, _, signature) :- SignParts(key, payload);
    Ok(header + ['.'] + ("" + ['.'] + signature))
  }

  function VerifyEs384(jws: Jws, key: PublicKey): Result<(), Error> {
    if jws.algorithm != "ES384" || !ECDSA.wellFormed(jws.signature) then Err(Malformed)
    else if ECDSA.verify(key, Utf8.Encode(jws.signingInput), jws.signature) then Ok(())
    else Err(FingerprintMismatch)
  }

  // ---- fingerprints ----

  const FINGERPRINT := "a=fingerprint:"
  const IDENTITY := "a=identity:"

  type Fingerprint = (string, string)

  /** The fingerprints on a list of lines, in order; the first malformed one refuses them all. */
  function FingerprintsOn(lines: seq<string>): Result<seq<Fingerprint>, Error> {
    if lines == [] then Ok([])
    else
      var before :- FingerprintsOn(lines[..|lines| - 1]);
      var last := lines[|lines| - 1];
      if !(FINGERPRINT <= last) then Ok(before)
      else match SplitOnce(Trim(last[|FINGERPRINT|..]), ' ')
        case None => Err(Malformed)
        case Some(f) => Ok(before + [f])
  }

  function Fingerprints(sdp: string): Result<seq<Fingerprint>, Error> {
    FingerprintsOn(Pieces(sdp, LINE_BREAKS))
  }

  method SdpFingerprints(sdp: string) returns (r: Result<seq<Fingerprint>, Error>)
    ensures r == Fingerprints(sdp)
  {
    var lines := Pieces(sdp, LINE_BREAKS);
    var fingerprints: seq<Fingerprint> := [];
    for i := 0 to |lines|
      invariant FingerprintsOn(lines[..i]) == Ok(fingerprints)
    {
      assert lines[..i + 1][..i] == lines[..i];
      if FINGERPRINT <= lines[i] {
        var parsed := SplitOnce(Trim(lines[i][|FINGERPRINT|..]), ' ');
        if parsed.None? {
          FirstErrorWins(lines, i + 1);
          return Err(Malformed);
        }
        fingerprints := fingerprints + [parsed.value];
      }
    }
    assert lines[..|lines|] == lines;
    r := Ok(fingerprints);
  }

  lemma {:induction false} FirstErrorWins(lines: seq<string>, i: nat)
    requires i <= |lines| && FingerprintsOn(lines[..i]).Err?
    ensures FingerprintsOn(lines) == FingerprintsOn(lines[..i])
    decreases |lines|
  {
    if i == |lines| {
      assert lines[..i] == lines;
    } else {
      assert lines[..|lines| - 1][..i] == lines[..i];
      FirstErrorWins(lines[..|lines| - 1], i);
    }
  }

  function Entries(fs: seq<Fingerprint>): string {
    if fs == [] then ""
    else
      "{\"algorithm\":" + JSON.quote(fs[0].0) + ",\"digest\":" + JSON.quote(fs[0].1) + "}"
      + (if |fs| == 1 then "" else "," + Entries(fs[1..]))
  }

  /** The exact text the fingerprint signature covers. */
  function Payload(fs: seq<Fingerprint>): string {
    "{\"fingerprint\":[" + Entries(fs) + "]}"
  }

  const EMPTY_FINGERPRINTS := "{\"fingerprint\":[]}"

  // ---- the envelope ----

  function ToBase64(e: Envelope): Result<string, Error> {
    match JSON.writeAssertion(e.assertion)
    case None => Err(Malformed)
    case Some(assertion) =>
      match JSON.writeRaw(Raw(e.idp, assertion))
      case None => Err(Malformed)
      case Some(text) => Ok(STANDARD.encode(Utf8.Encode(text)))
  }

  function FromJson(text: string): Result<Envelope, Error> {
    match JSON.readRaw(text)
    case None => Err(Malformed)
    case Some(raw) =>
      match JSON.readAssertion(raw.assertion)
      case None => Err(Malformed)
      case Some(assertion) => Ok(Envelope(raw.idp, assertion))
  }

  function FromBase64(value: string): Result<Envelope, Error> {
    match STANDARD.decode(Trim(value))
    case None => Err(Malformed)
    case Some(bytes) =>
      match Utf8.Decode(bytes)
      case None => Err(Malformed)
      case Some(text) => FromJson(text)
  }

  function FirstIdentity(lines: seq<string>): Option<string> {
    if lines == [] then None
    else if IDENTITY <= lines[0] then Some(lines[0][|IDENTITY|..])
    else FirstIdentity(lines[1..])
  }

  function FromSdp(sdp: string): Result<Envelope, Error> {
    match FirstIdentity(Pieces(sdp, LINE_BREAKS))
    case None => Err(Missing)
    case Some(value) => FromBase64(value)
  }

  // ---- validation under `Any` trust ----

  const NANOS: nat := 1_000_000_000
  const LEEWAY_SECONDS: nat := 60

  predicate Unexpired(claims: Claims, now: int) {
    claims.exp.Some? && now <= (claims.exp.value + LEEWAY_SECONDS) * NANOS
  }

  function TokenClaims(token: string, now: int): Result<Claims, Error> {
    var jws :- ParseCompact(token);
    match JSON.readClaims(jws.payload)
    case None => Err(Malformed)
    case Some(claims) => if Unexpired(claims, now) then Ok(claims) else Err(Untrusted)
  }

  function ValidateSdp(sdp: string, now: int): Result<Claims, Error> {
    var envelope :- FromSdp(sdp);
    var claims :- TokenClaims(envelope.assertion.token, now);
    var fs :- Fingerprints(sdp);
    if Payload(fs) == EMPTY_FINGERPRINTS then Err(NoFingerprints)
    else
      var jws :- ParseDetached(envelope.assertion.fingerprints, Payload(fs));
      if claims.cpk.None? then Err(ClientPublicKey)
      else
        var _ :- VerifyEs384(jws, claims.cpk.value);
        Ok(claims)
  }

  // ---- signing an answer ----

  datatype Server = Server(signing: SecretKey, domain: string, lifetime: Option<nat>)

  /** Whole seconds since the epoch, zero before it. */
  function Seconds(time: int): nat {
    if time < 0 then 0 else time / NANOS
  }

  function Minted(server: Server, now: int): Claims {
    Claims(Some(ECDSA.public(server.signing)), Seconds(now),
           if server.domain == "" then None else Some(server.domain),
           if server.lifetime.None? then None else Some(Seconds(now + server.lifetime.value)))
  }

  function MintToken(server: Server, now: int): Result<string, Error> {
    match JSON.writeClaims(Minted(server, now))
    case None => Err(Malformed)
    case Some(text) => Sign(server.signing, text)
  }

  function IdentityFor(server: Server, fs: seq<Fingerprint>, now: int): Result<string, Error> {
    var token :- MintToken(server, now);
    var signature :- SignDetached(server.signing, Payload(fs));
    ToBase64(Envelope(Idp(server.domain, "default"), Assertion(token, signature)))
  }

  function IdentityValue(server: Server, answer: string, now: int): Result<string, Error> {
    var fs :- Fingerprints(answer);
    IdentityFor(server, fs, now)
  }

  /** `split_inclusive('\n')`: lines with their line feed. */
  function Inclusive(s: string): seq<string> {
    if s == "" then []
    else
      var rest := Inclusive(s[1..]);
      if s[0] == '\n' || rest == [] then [[s[0]]] + rest else [[s[0]] + rest[0]] + rest[1..]
  }

  predicate IsMedia(line: string) {
    "m=" <= line
  }

  predicate Contains(s: string, part: string) {
    exists i | 0 <= i <= |s| :: part <= s[i..]
  }

  function Eol(answer: string): string {
    if Contains(answer, "\r\n") then "\r\n" else "\n"
  }

  /** The lines put together with `added` before the first media line, and whether there was one. */
  function InsertedAt(lines: seq<string>, added: string): (string, bool) {
    if lines == [] then ("", false)
    else
      var (out, inserted) := InsertedAt(lines[..|lines| - 1], added);
      var last := lines[|lines| - 1];
      if !inserted && IsMedia(last) then (out + added + last, true) else (out + last, inserted)
  }

  function Inserted(answer: string, added: string): string {
    var (out, inserted) := InsertedAt(Inclusive(answer), added);
    if inserted then out else out + added
  }

  function Augmented(server: Server, answer: string, now: int): Result<string, Error> {
    var value :- IdentityValue(server, answer, now);
    Ok(Inserted(answer, IDENTITY + value + Eol(answer)))
  }

  method Augment(server: Server, answer: string, now: int) returns (r: Result<string, Error>)
    ensures r == Augmented(server, answer, now)
  {
    hide IdentityFor, Contains, Inclusive, FingerprintsOn;
    var fs := SdpFingerprints(answer);
    if fs.Err? {
      return Err(fs.error);
    }
    var value := IdentityFor(server, fs.value, now);
    if value.Err? {
      return Err(value.error);
    }
    var attribute, eol := IDENTITY + value.value, Eol(answer);
    var out, inserted := "", false;
    var lines := Inclusive(answer);
    for i := 0 to |lines|
      invariant (out, inserted) == InsertedAt(lines[..i], attribute + eol)
    {
      assert lines[..i + 1][..i] == lines[..i];
      if !inserted && IsMedia(lines[i]) {
        assert out + attribute + eol == out + (attribute + eol);
        out := out + attribute;
        out := out + eol;
        inserted := true;
      }
      out := out + lines[i];
    }
    assert lines[..|lines|] == lines;
    if !inserted {
      assert out + attribute + eol == out + (attribute + eol);
      out := out + attribute;
      out := out + eol;
    }
    r := Ok(out);
  }
}
