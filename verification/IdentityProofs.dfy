/** A description signed by `augment` carries a valid identity, exactly when its text lets the line stand on its own. */
module IdentityProofs {
  import opened Std
  import opened Codec
  import opened Text
  import opened Identity
  import Utf8

  // ---- compact signatures read back ----

  lemma EncodedIsFree(b: seq<u8>)
    ensures Free(URL_SAFE.encode(b), {'.'})
    ensures Free(STANDARD.encode(b), LINE_BREAKS) && forall i | 0 <= i < |STANDARD.encode(b)| :: !White(STANDARD.encode(b)[i])
    ensures URL_SAFE.decode(URL_SAFE.encode(b)) == Some(b) && STANDARD.decode(STANDARD.encode(b)) == Some(b)
  {
    assert forall i | 0 <= i < |URL_SAFE.encode(b)| :: Base64Char(URL_SAFE.encode(b)[i]);
    assert forall i | 0 <= i < |STANDARD.encode(b)| :: Base64Char(STANDARD.encode(b)[i]);
  }

  lemma ThreeParts(a: string, b: string, c: string)
    requires Free(a, {'.'}) && Free(b, {'.'}) && Free(c, {'.'})
    ensures Pieces(a + ['.'] + (b + ['.'] + c), {'.'}) == [a, b, c]
  {
    hide Pieces;
    PiecesOfFree(a, {'.'});
    PiecesOfFree(b, {'.'});
    PiecesOfFree(c, {'.'});
    PiecesAppend(b, '.', c, {'.'});
    PiecesAppend(a, '.', b + ['.'] + c, {'.'});
  }

  lemma HeaderReads()
    ensures Algorithm(URL_SAFE.encode(ES384_HEADER)) == Ok("ES384")
  {
    hide Utf8.Encode;
    EncodedIsFree(ES384_HEADER);
  }

  /** Parsing a compact signature gives back the payload, and its maker's key verifies it. */
  lemma SignedReadsBack(key: SecretKey, payload: string)
    requires Sign(key, payload).Ok?
    ensures var jws := ParseCompact(Sign(key, payload).value);
            jws.Ok? && jws.value.payload == Utf8.Encode(payload) && VerifyEs384(jws.value, ECDSA.public(key)) == Ok(())
  {
    hide Utf8.Encode, Pieces, Algorithm;
    var (header, body, signature) := SignParts(key, payload).value;
    var signed := ECDSA.sign(key, Utf8.Encode(header + ['.'] + body)).value;
    HeaderReads();
    EncodedIsFree(ES384_HEADER);
    EncodedIsFree(Utf8.Encode(payload));
    EncodedIsFree(signed);
    ThreeParts(header, body, signature);
  }

  /** Likewise with the payload left out and supplied by the reader. */
  lemma DetachedReadsBack(key: SecretKey, payload: string)
    requires SignDetached(key, payload).Ok?
    ensures var jws := ParseDetached(SignDetached(key, payload).value, payload);
            jws.Ok? && VerifyEs384(jws.value, ECDSA.public(key)) == Ok(())
  {
    hide Utf8.Encode, Pieces, Algorithm;
    var (header, body, signature) := SignParts(key, payload).value;
    var signed := ECDSA.sign(key, Utf8.Encode(header + ['.'] + body)).value;
    HeaderReads();
    EncodedIsFree(ES384_HEADER);
    EncodedIsFree(signed);
    ThreeParts(header, "", signature);
  }

  // ---- the envelope reads back ----

  lemma EnvelopeReadsBack(e: Envelope)
    requires ToBase64(e).Ok?
    ensures FromBase64(ToBase64(e).value) == Ok(e) && Free(ToBase64(e).value, LINE_BREAKS)
  {
    hide Utf8.Encode, Utf8.Decode, Trim;
    var text := JSON.writeRaw(Raw(e.idp, JSON.writeAssertion(e.assertion).value)).value;
    EncodedIsFree(Utf8.Encode(text));
    TrimNothing(STANDARD.encode(Utf8.Encode(text)));
    Utf8.RoundTrip(text);
  }

  lemma TokenReadsBack(server: Server, now: int, t: int)
    requires MintToken(server, now).Ok?
    ensures var claims := Minted(server, now);
            TokenClaims(MintToken(server, now).value, t) == if Unexpired(claims, t) then Ok(claims) else Err(Untrusted)
  {
    hide Utf8.Encode, Sign, ParseCompact, VerifyEs384, Unexpired, Minted;
    var text := JSON.writeClaims(Minted(server, now)).value;
    SignedReadsBack(server.signing, text);
  }

  /** The identity value is readable as exactly what was put in, and holds the minted token and a signature of the
      fingerprints that the key in that token verifies. */
  lemma ValueReadsBack(server: Server, fs: seq<Fingerprint>, now: int, t: int)
    requires IdentityFor(server, fs, now).Ok?
    ensures var value := IdentityFor(server, fs, now).value; var claims := Minted(server, now);
            && Free(value, LINE_BREAKS)
            && FromBase64(value).Ok? && FromBase64(value).value.idp == Idp(server.domain, "default")
            && var a := FromBase64(value).value.assertion;
            && TokenClaims(a.token, t) == (if Unexpired(claims, t) then Ok(claims) else Err(Untrusted))
            && var jws := ParseDetached(a.fingerprints, Payload(fs));
            && jws.Ok? && VerifyEs384(jws.value, ECDSA.public(server.signing)) == Ok(())
  {
    hide Utf8.Encode, MintToken, SignDetached, ParseDetached, VerifyEs384, Unexpired, Minted, TokenClaims, FromBase64,
      ToBase64, Payload;
    TokenReadsBack(server, now, t);
    DetachedReadsBack(server.signing, Payload(fs));
    EnvelopeReadsBack(Envelope(Idp(server.domain, "default"),
                               Assertion(MintToken(server, now).value, SignDetached(server.signing, Payload(fs)).value)));
  }

  // ---- where the line goes ----

  /** A line delimited by line feeds starts a media section. */
  /** Whole seconds of an instant, counted from the epoch. */
  predicate SecondsOf(n: nat, time: int) {
    if time < 0 then n == 0 else n * 1_000_000_000 <= time < (n + 1) * 1_000_000_000
  }

  /** A token names the signing key, its instant, its end if it has one, and its issuer unless that is empty. */
  lemma MintedSays(server: Server, now: int)
    ensures var c := Minted(server, now);
            && c.cpk == Some(ECDSA.public(server.signing)) && SecondsOf(c.iat, now)
            && (c.iss == None <==> server.domain == "") && (c.iss.Some? ==> c.iss.value == server.domain)
            && (c.exp == None <==> server.lifetime == None)
            && (c.exp.Some? ==> SecondsOf(c.exp.value, now + server.lifetime.value))
  {
  }

  predicate HasMedia(answer: string) {
    exists i | 0 <= i < |Inclusive(answer)| :: IsMedia(Inclusive(answer)[i])
  }

  predicate EndsInBreak(s: string) {
    s != "" && s[|s| - 1] in LINE_BREAKS
  }

  /** The inserted line stands on its own. */
  predicate Delimited(answer: string) {
    HasMedia(answer) || EndsInBreak(answer)
  }

  function Concat(lines: seq<string>): string {
    if lines == [] then "" else Concat(lines[..|lines| - 1]) + lines[|lines| - 1]
  }

  lemma {:induction false} ConcatCons(line: string, lines: seq<string>)
    ensures Concat([line] + lines) == line + Concat(lines)
  {
    if lines == [] {
      assert [line] + lines == [line] && [line][..0] == [];
    } else {
      assert ([line] + lines)[..|lines|] == [line] + lines[..|lines| - 1];
      ConcatCons(line, lines[..|lines| - 1]);
    }
  }

  lemma InclusiveCons(s: string)
    requires s != ""
    ensures var rest := Inclusive(s[1..]);
            Inclusive(s) ==
              if s[0] == '\n' || rest == [] then [[s[0]]] + rest else [[s[0]] + rest[0]] + rest[1..]
  {
  }

  lemma {:induction false} InclusiveCovers(s: string)
    ensures Concat(Inclusive(s)) == s
  {
    if s == "" {
      assert Concat([]) == "";
    } else {
      hide Concat, Inclusive;
      InclusiveCons(s);
      var rest := Inclusive(s[1..]);
      InclusiveCovers(s[1..]);
      assert [s[0]] + s[1..] == s;
      if s[0] == '\n' || rest == [] {
        ConcatCons([s[0]], rest);
      } else {
        assert rest == [rest[0]] + rest[1..];
        ConcatCons(rest[0], rest[1..]);
        ConcatCons([s[0]] + rest[0], rest[1..]);
        assert [s[0]] + rest[0] + Concat(rest[1..]) == [s[0]] + (rest[0] + Concat(rest[1..]));
      }
    }
  }

  lemma {:induction false} InclusiveEnds(s: string)
    ensures forall i | 0 <= i < |Inclusive(s)| - 1 :: EndsInBreak(Inclusive(s)[i])
  {
    if s != "" {
      InclusiveEnds(s[1..]);
    }
  }

  predicate NoMedia(lines: seq<string>) {
    forall i | 0 <= i < |lines| :: !IsMedia(lines[i])
  }

  lemma {:induction false} InsertedSplits(lines: seq<string>, added: string) returns (k: nat)
    ensures var (out, inserted) := InsertedAt(lines, added);
            && (inserted <==> !NoMedia(lines))
            && (if inserted then
                  && k < |lines| && IsMedia(lines[k]) && NoMedia(lines[..k])
                  && out == Concat(lines[..k]) + added + Concat(lines[k..])
                else out == Concat(lines))
  {
    hide IsMedia;
    k := 0;
    if lines != [] {
      var (init, last) := (lines[..|lines| - 1], lines[|lines| - 1]);
      k := InsertedSplits(init, added);
      if !NoMedia(init) {
        assert !NoMedia(lines);
        assert init[..k] == lines[..k];
        assert lines[k..][..|lines[k..]| - 1] == init[k..];
      } else if IsMedia(last) {
        k := |init|;
        assert Concat(lines[k..]) == last by { assert lines[k..] == [last] && [last][..0] == []; }
      }
    }
  }

  lemma {:induction false} ConcatEnds(lines: seq<string>)
    requires forall i | 0 <= i < |lines| :: EndsInBreak(lines[i])
    ensures Concat(lines) == "" || EndsInBreak(Concat(lines))
  {
    if lines != [] {
      ConcatEnds(lines[..|lines| - 1]);
    }
  }

  lemma {:induction false} ConcatSplit(lines: seq<string>, k: nat)
    requires k <= |lines|
    ensures Concat(lines) == Concat(lines[..k]) + Concat(lines[k..])
  {
    if k == |lines| {
      assert lines[..k] == lines;
    } else {
      var init := lines[..|lines| - 1];
      ConcatSplit(init, k);
      assert init[..k] == lines[..k];
      assert lines[k..][..|lines[k..]| - 1] == init[k..];
    }
  }

  /** The line is put between two parts of the answer; when it stands on its own the first is empty or ends a line. */
  lemma InsertedBetween(answer: string, added: string) returns (pre: string, post: string)
    ensures answer == pre + post && Inserted(answer, added) == pre + added + post
    ensures if Delimited(answer) then pre == "" || EndsInBreak(pre) else pre == answer && post == ""
  {
    hide Inclusive, IsMedia;
    var lines := Inclusive(answer);
    InclusiveCovers(answer);
    InclusiveEnds(answer);
    var k := InsertedSplits(lines, added);
    if NoMedia(lines) {
      pre, post := answer, "";
      assert pre + added + post == pre + added;
    } else {
      pre, post := Concat(lines[..k]), Concat(lines[k..]);
      ConcatSplit(lines, k);
      ConcatEnds(lines[..k]);
      assert HasMedia(answer);
    }
  }

  /** The line goes before the first media line, or to the end if there is none. */
  lemma InsertedBeforeMedia(answer: string, added: string) returns (k: nat)
    ensures var lines := Inclusive(answer);
            if NoMedia(lines) then Inserted(answer, added) == answer + added
            else
              && k < |lines| && IsMedia(lines[k]) && NoMedia(lines[..k])
              && Inserted(answer, added) == Concat(lines[..k]) + added + Concat(lines[k..])
  {
    hide Inclusive, IsMedia;
    InclusiveCovers(answer);
    k := InsertedSplits(Inclusive(answer), added);
  }

  /** Some line ends in a carriage return and a line feed. */
  predicate HasCrlf(s: string) {
    exists i | 0 <= i < |s| - 1 :: s[i] == '\r' && s[i + 1] == '\n'
  }

  /** The added line ends as the lines of the answer do: with a carriage return exactly when one of them has it. */
  lemma LineEndExactly(answer: string)
    ensures Eol(answer) == if HasCrlf(answer) then "\r\n" else "\n"
  {
    if HasCrlf(answer) {
      var i :| 0 <= i < |answer| - 1 && answer[i] == '\r' && answer[i + 1] == '\n';
      assert answer[i..][..2] == "\r\n";
      assert "\r\n" <= answer[i..];
    }
    if Contains(answer, "\r\n") {
      var i :| 0 <= i <= |answer| && "\r\n" <= answer[i..];
      assert answer[i..][0] == '\r' && answer[i..][1] == '\n';
      assert answer[i] == '\r' && answer[i + 1] == '\n';
    }
  }
}
