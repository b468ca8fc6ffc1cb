/** What validation accepts, for every text: the identity line, the fingerprints and the signature over them. */
module IdentitySoundness {
  import opened Std
  import opened Codec
  import opened Text
  import opened Identity
  import opened IdentityProofs
  import Utf8

  // ---- what is read off the lines ----

  predicate IsFingerprint(line: string) {
    FINGERPRINT <= line
  }

  predicate Reads(line: string, f: Fingerprint)
    requires IsFingerprint(line)
  {
    SplitOnce(Trim(line[|FINGERPRINT|..]), ' ') == Some(f)
  }

  predicate AllRead(lines: seq<string>, fs: seq<Fingerprint>) {
    |lines| == |fs| && forall i | 0 <= i < |fs| :: IsFingerprint(lines[i]) && Reads(lines[i], fs[i])
  }

  lemma AllReadSnoc(lines: seq<string>, line: string, fs: seq<Fingerprint>)
    requires IsFingerprint(line)
    ensures AllRead(lines + [line], fs) <==>
              fs != [] && AllRead(lines, fs[..|fs| - 1]) && Reads(line, fs[|fs| - 1])
  {
    hide Reads;
    var all := lines + [line];
    if fs != [] && |all| == |fs| {
      assert all[|fs| - 1] == line;
      assert forall i | 0 <= i < |lines| :: all[i] == lines[i] && fs[..|fs| - 1][i] == fs[i];
    }
  }

  lemma NothingRead(fs: seq<Fingerprint>)
    ensures AllRead([], fs) <==> fs == []
  {
  }

  lemma FingerprintsSnoc(lines: seq<string>, line: string, fs: seq<Fingerprint>)
    requires IsFingerprint(line)
    ensures FingerprintsOn(lines + [line]) == Ok(fs) <==>
              fs != [] && FingerprintsOn(lines) == Ok(fs[..|fs| - 1]) && Reads(line, fs[|fs| - 1])
  {
    hide Trim, SplitOnce;
    assert (lines + [line])[..|lines|] == lines;
    if fs != [] {
      assert fs == fs[..|fs| - 1] + [fs[|fs| - 1]];
    }
    var before := FingerprintsOn(lines);
    if before.Ok? {
      var f := SplitOnce(Trim(line[|FINGERPRINT|..]), ' ');
      if f.Some? {
        assert (before.value + [f.value])[..|before.value|] == before.value;
      }
    }
  }

  /** The fingerprints of a list of lines are those of its fingerprint lines, all of them and in order. */
  lemma {:induction false} FingerprintsExactly(lines: seq<string>, fs: seq<Fingerprint>)
    ensures FingerprintsOn(lines) == Ok(fs) <==> AllRead(Keep(lines, IsFingerprint), fs)
  {
    hide Trim, SplitOnce, AllRead;
    if lines == [] {
      assert AllRead([], fs) <==> fs == [] by { NothingRead(fs); }
    } else {
      var (init, last) := (lines[..|lines| - 1], lines[|lines| - 1]);
      if IsFingerprint(last) {
        AllReadSnoc(Keep(init, IsFingerprint), last, fs);
        if fs != [] {
          FingerprintsExactly(init, fs[..|fs| - 1]);
          assert fs == fs[..|fs| - 1] + [fs[|fs| - 1]];
        }
        FingerprintsSnoc(init, last, fs);
      } else {
        FingerprintsExactly(init, fs);
      }
    }
  }

  /** The identity is the first line that starts like one. */
  lemma {:induction false} IdentityExactly(lines: seq<string>, value: string)
    ensures FirstIdentity(lines) == Some(value) <==>
              exists k | 0 <= k < |lines| ::
                lines[k] == IDENTITY + value && forall i | 0 <= i < k :: !(IDENTITY <= lines[i])
    decreases |lines|
  {
    if lines != [] {
      if IDENTITY <= lines[0] {
        assert lines[0] == IDENTITY + lines[0][|IDENTITY|..];
        assert (IDENTITY + value)[|IDENTITY|..] == value;
      } else {
        IdentityExactly(lines[1..], value);
        assert !(lines[0] == IDENTITY + value);
        assert forall i | 0 < i < |lines| :: lines[i] == lines[1..][i - 1];
        forall k | 0 <= k < |lines[1..]| && lines[1..][k] == IDENTITY + value
          ensures lines[k + 1] == IDENTITY + value
        {
        }
      }
    }
  }

  // ---- what is accepted ----

  /** The value is base64 of UTF-8 of the JSON of this envelope. */
  predicate Carries(value: string, e: Envelope) {
    var bytes := STANDARD.decode(Trim(value));
    && bytes.Some?
    && var text := Utf8.Decode(bytes.value);
    && text.Some?
    && var raw := JSON.readRaw(text.value);
    && raw.Some? && raw.value.idp == e.idp && JSON.readAssertion(raw.value.assertion) == Some(e.assertion)
  }

  ghost predicate Presents(sdp: string, e: Envelope) {
    var lines := Pieces(sdp, LINE_BREAKS);
    exists k | 0 <= k < |lines| ::
      && IDENTITY <= lines[k] && (forall i | 0 <= i < k :: !(IDENTITY <= lines[i]))
      && Carries(lines[k][|IDENTITY|..], e)
  }

  lemma PresentsExactly(sdp: string, e: Envelope)
    ensures FromSdp(sdp) == Ok(e) <==> Presents(sdp, e)
  {
    hide Trim, Utf8.Decode, Pieces, FirstIdentity;
    var lines := Pieces(sdp, LINE_BREAKS);
    forall k | 0 <= k < |lines| && IDENTITY <= lines[k] && forall i | 0 <= i < k :: !(IDENTITY <= lines[i])
      ensures FirstIdentity(lines) == Some(lines[k][|IDENTITY|..])
    {
      assert lines[k] == IDENTITY + lines[k][|IDENTITY|..];
      IdentityExactly(lines, lines[k][|IDENTITY|..]);
    }
    if FirstIdentity(lines).Some? {
      IdentityExactly(lines, FirstIdentity(lines).value);
    }
  }

  predicate Names(header: string, algorithm: string) {
    var bytes := URL_SAFE.decode(header);
    bytes.Some? && JSON.readAlgorithm(bytes.value) == Some(algorithm)
  }

  /** The token reads as these claims. Its own signature is read but not checked. */
  ghost predicate TokenSays(token: string, c: Claims) {
    var parts := Pieces(token, {'.'});
    && |parts| == 3 && (exists algorithm :: Names(parts[0], algorithm)) && URL_SAFE.decode(parts[2]).Some?
    && var payload := URL_SAFE.decode(parts[1]);
    && payload.Some? && JSON.readClaims(payload.value) == Some(c)
  }

  /** What a detached signature with this header covers. */
  function Message(header: string, payload: string): seq<u8> {
    Utf8.Encode(header + ['.'] + URL_SAFE.encode(Utf8.Encode(payload)))
  }

  /** The text is a detached ES384 signature over the payload that verifies under the key. */
  predicate Signs(detached: string, payload: string, key: PublicKey) {
    var parts := Pieces(detached, {'.'});
    && |parts| == 3 && parts[1] == "" && Names(parts[0], "ES384")
    && var signature := URL_SAFE.decode(parts[2]);
    && signature.Some? && ECDSA.wellFormed(signature.value)
    && ECDSA.verify(key, Message(parts[0], payload), signature.value)
  }

  lemma TokenExactly(token: string, now: int, c: Claims)
    ensures TokenClaims(token, now) == Ok(c) <==>
              TokenSays(token, c) && c.exp.Some? && now <= (c.exp.value + 60) * 1_000_000_000
  {
    hide Pieces;
    var parts := Pieces(token, {'.'});
    if |parts| == 3 && Algorithm(parts[0]).Ok? {
      assert Names(parts[0], Algorithm(parts[0]).value);
    }
  }

  lemma SignatureExactly(detached: string, payload: string, key: PublicKey)
    ensures Signs(detached, payload, key) <==>
              var jws := ParseDetached(detached, payload); jws.Ok? && VerifyEs384(jws.value, key).Ok?
  {
    hide Pieces, Utf8.Encode;
  }

  lemma EmptyPayload(fs: seq<Fingerprint>)
    ensures Payload(fs) == EMPTY_FINGERPRINTS <==> fs == []
  {
    var (before, after) := ("{\"fingerprint\":[", "]}");
    if fs == [] {
      assert before + "" + after == EMPTY_FINGERPRINTS;
    } else {
      assert Entries(fs)[0] == '{';
      assert Payload(fs)[|before|] == '{' && EMPTY_FINGERPRINTS[|before|] == ']';
    }
  }

  ghost predicate Vouches(sdp: string, e: Envelope, c: Claims) {
    && TokenSays(e.assertion.token, c)
    && Fingerprints(sdp).Ok? && Fingerprints(sdp).value != []
    && c.cpk.Some? && Signs(e.assertion.fingerprints, Payload(Fingerprints(sdp).value), c.cpk.value)
  }

  /** A description is accepted with these claims exactly when it presents an identity whose token reads as them and has
      not run out, it has fingerprints, and the key in the claims verifies the signature over all of them. */
  lemma AcceptsExactlyWhen(sdp: string, now: int, c: Claims)
    ensures ValidateSdp(sdp, now) == Ok(c) <==>
              exists e :: Presents(sdp, e) && Vouches(sdp, e, c) && c.exp.Some? && now <= (c.exp.value + 60) * 1_000_000_000
  {
    hide TokenClaims, FromSdp, Fingerprints, ParseDetached, VerifyEs384, Payload, Presents, TokenSays, Signs, Pieces;
    forall e {
      PresentsExactly(sdp, e);
    }
    if FromSdp(sdp).Ok? {
      var a := FromSdp(sdp).value.assertion;
      TokenExactly(a.token, now, c);
      if Fingerprints(sdp).Ok? {
        EmptyPayload(Fingerprints(sdp).value);
        if c.cpk.Some? {
          SignatureExactly(a.fingerprints, Payload(Fingerprints(sdp).value), c.cpk.value);
        }
      }
    }
  }

  // ---- the signature covers every fingerprint ----

  const ALGORITHM := "{\"algorithm\":"
  const DIGEST := ",\"digest\":"

  lemma Regroup(a: string, b: string, c: string, d: string, e: string, f: string, g: string)
    ensures a + b + c + d + e + f + g == a + (b + (c + (d + (e + (f + g)))))
  {
    assert a + b + c + d + e + f + g == a + b + c + d + e + (f + g);
    assert a + b + c + d + e + (f + g) == a + b + c + d + (e + (f + g));
    assert a + b + c + d + (e + (f + g)) == a + b + c + (d + (e + (f + g)));
    assert a + b + c + (d + (e + (f + g))) == a + b + (c + (d + (e + (f + g))));
  }

  lemma EntriesStart(fs: seq<Fingerprint>, rest: string)
    requires fs != []
    ensures var tail := (if |fs| == 1 then "" else "," + Entries(fs[1..])) + rest;
            Entries(fs) + rest == ALGORITHM + (JSON.quote(fs[0].0) + (DIGEST + (JSON.quote(fs[0].1) + ("}" + tail))))
  {
    Regroup(ALGORITHM, JSON.quote(fs[0].0), DIGEST, JSON.quote(fs[0].1), "}",
            if |fs| == 1 then "" else "," + Entries(fs[1..]), rest);
  }

  lemma Cancel(a: string, x: string, y: string)
    requires a + x == a + y
    ensures x == y
  {
    assert x == (a + x)[|a|..] == (a + y)[|a|..] == y;
  }

  lemma QuoteEnds(a: string, x: string, b: string, y: string)
    requires JSON.quote(a) + x == JSON.quote(b) + y
    ensures a == b && x == y
  {
  }

  lemma FirstCharacter(fs: seq<Fingerprint>, rest: string)
    requires rest != ""
    ensures (Entries(fs) + rest)[0] == if fs == [] then rest[0] else '{'
  {
    if fs != [] {
      EntriesStart(fs, rest);
      assert ALGORITHM[0] == '{';
    }
  }

  lemma SameEntry(f: Fingerprint, g: Fingerprint, t: string, u: string)
    requires ALGORITHM + (JSON.quote(f.0) + (DIGEST + (JSON.quote(f.1) + ("}" + t))))
          == ALGORITHM + (JSON.quote(g.0) + (DIGEST + (JSON.quote(g.1) + ("}" + u))))
    ensures f == g && t == u
  {
    var (a, b) := (JSON.quote(f.1) + ("}" + t), JSON.quote(g.1) + ("}" + u));
    Cancel(ALGORITHM, JSON.quote(f.0) + (DIGEST + a), JSON.quote(g.0) + (DIGEST + b));
    QuoteEnds(f.0, DIGEST + a, g.0, DIGEST + b);
    Cancel(DIGEST, a, b);
    QuoteEnds(f.1, "}" + t, g.1, "}" + u);
    Cancel("}", t, u);
  }

  lemma {:induction false} EntriesDiffer(fs: seq<Fingerprint>, gs: seq<Fingerprint>, x: string, y: string)
    requires x != "" && x[0] == ']' && y != "" && y[0] == ']'
    requires Entries(fs) + x == Entries(gs) + y
    ensures fs == gs
    decreases |fs|
  {
    hide Entries;
    FirstCharacter(fs, x);
    FirstCharacter(gs, y);
    if fs != [] {
      EntriesStart(fs, x);
      EntriesStart(gs, y);
      var t := (if |fs| == 1 then "" else "," + Entries(fs[1..])) + x;
      var u := (if |gs| == 1 then "" else "," + Entries(gs[1..])) + y;
      assert t == u && fs[0] == gs[0] by {
        SameEntry(fs[0], gs[0], t, u);
      }
      if |fs| == 1 || |gs| == 1 {
        assert t[0] == (if |fs| == 1 then ']' else ',') && u[0] == (if |gs| == 1 then ']' else ',');
        assert fs == [fs[0]] && gs == [gs[0]];
      } else {
        assert t == "," + (Entries(fs[1..]) + x) && u == "," + (Entries(gs[1..]) + y);
        Cancel(",", Entries(fs[1..]) + x, Entries(gs[1..]) + y);
        EntriesDiffer(fs[1..], gs[1..], x, y);
        assert [fs[0]] + fs[1..] == fs && [gs[0]] + gs[1..] == gs;
      }
    }
  }

  /** Different fingerprints, or the same in another order, give different payloads. */
  lemma PayloadIsInjective(fs: seq<Fingerprint>, gs: seq<Fingerprint>)
    requires Payload(fs) == Payload(gs)
    ensures fs == gs
  {
    hide Entries;
    var before := "{\"fingerprint\":[";
    assert Payload(fs) == before + (Entries(fs) + "]}") && Payload(gs) == before + (Entries(gs) + "]}");
    Cancel(before, Entries(fs) + "]}", Entries(gs) + "]}");
    EntriesDiffer(fs, gs, "]}", "]}");
  }

  lemma EncodingIsInjective(a: string, b: string)
    requires Utf8.Encode(a) == Utf8.Encode(b)
    ensures a == b
  {
    hide Utf8.Encode, Utf8.Decode;
    Utf8.RoundTrip(a);
    Utf8.RoundTrip(b);
  }

  /** What is signed tells the header and the payload apart. */
  lemma MessageIsInjective(header: string, payload: string, other: string, text: string)
    requires Free(header, {'.'}) && Free(other, {'.'}) && Message(header, payload) == Message(other, text)
    ensures header == other && payload == text
  {
    hide Utf8.Encode;
    var (a, b) := (URL_SAFE.encode(Utf8.Encode(payload)), URL_SAFE.encode(Utf8.Encode(text)));
    EncodingIsInjective(header + ['.'] + a, other + ['.'] + b);
    SplitOnceFirst(header, '.', a);
    SplitOnceFirst(other, '.', b);
    EncodedIsFree(Utf8.Encode(payload));
    EncodedIsFree(Utf8.Encode(text));
    EncodingIsInjective(payload, text);
  }

  /** The message covers fingerprints from the set, or a text that is no list of fingerprints. */
  ghost predicate Issued(m: seq<u8>, signed: iset<seq<Fingerprint>>) {
    exists header, text ::
      && Free(header, {'.'}) && m == Message(header, text)
      && forall fs | Payload(fs) == text :: fs in signed
  }

  /** Suppose a key verifies only what its holder issued: fingerprints from a set, and texts such as tokens. Then what is
      accepted under that key has exactly the fingerprints of one member of the set, so a description with a fingerprint
      changed, added, dropped or moved is refused. */
  lemma OnlyIssuedFingerprintsPass(sdp: string, now: int, signed: iset<seq<Fingerprint>>)
    requires ValidateSdp(sdp, now).Ok?
    requires var key := ValidateSdp(sdp, now).value.cpk;
             forall m, signature | key.Some? && ECDSA.verify(key.value, m, signature) :: Issued(m, signed)
    ensures Fingerprints(sdp).Ok? && Fingerprints(sdp).value in signed
  {
    hide ValidateSdp, Fingerprints, Payload, Presents, TokenSays, Pieces, Utf8.Encode, Message;
    var c := ValidateSdp(sdp, now).value;
    AcceptsExactlyWhen(sdp, now, c);
    var e :| Presents(sdp, e) && Vouches(sdp, e, c);
    var parts := Pieces(e.assertion.fingerprints, {'.'});
    var m := Message(parts[0], Payload(Fingerprints(sdp).value));
    assert Issued(m, signed);
    var header, text :| Free(header, {'.'}) && m == Message(header, text) && forall fs | Payload(fs) == text :: fs in signed;
    PiecesFree(e.assertion.fingerprints, {'.'});
    MessageIsInjective(parts[0], Payload(Fingerprints(sdp).value), header, text);
  }

  /** Of one set of fingerprints the signature says which: it issues no other list. */
  lemma IssuingOneIssuesNoOther(header: string, fs: seq<Fingerprint>)
    requires Free(header, {'.'})
    ensures Issued(Message(header, Payload(fs)), iset{fs})
  {
    hide Payload, Message;
    forall gs | Payload(gs) == Payload(fs)
      ensures gs == fs
    {
      PayloadIsInjective(gs, fs);
    }
  }
}
