/** Rewriting the candidates of a signed answer leaves its identity as valid, or invalid, as it was. */
module AnswerIntegrity {
  import opened Std
  import opened Text
  import C = Candidates
  import CandidateGuarantees
  import I = Identity
  import IdentityProofs
  import IdentityValidity

  // ---- lines that validation does not look at ----

  lemma {:induction false} FirstIdentitySnoc(lines: seq<string>, last: string)
    ensures I.FirstIdentity(lines + [last]) ==
              if I.FirstIdentity(lines).Some? then I.FirstIdentity(lines)
              else if I.IDENTITY <= last then Some(last[|I.IDENTITY|..])
              else None
  {
    var all := lines + [last];
    if lines == [] {
      assert all[0] == last && all[1..] == [];
    } else {
      assert all[0] == lines[0] && all[1..] == lines[1..] + [last];
      FirstIdentitySnoc(lines[1..], last);
    }
  }

  /** Only identity lines matter to the identity. */
  lemma {:induction false} IdentityOfKept(lines: seq<string>, f: string -> bool)
    requires forall l | l in lines && I.IDENTITY <= l :: f(l)
    ensures I.FirstIdentity(Keep(lines, f)) == I.FirstIdentity(lines)
  {
    if lines != [] {
      var (init, last) := (lines[..|lines| - 1], lines[|lines| - 1]);
      hide I.FirstIdentity;
      IdentityOfKept(init, f);
      assert lines == init + [last];
      FirstIdentitySnoc(init, last);
      FirstIdentitySnoc(Keep(init, f), last);
    }
  }

  /** Only fingerprint lines matter to the fingerprints. */
  lemma {:induction false} FingerprintsOfKept(lines: seq<string>, f: string -> bool)
    requires forall l | l in lines && I.FINGERPRINT <= l :: f(l)
    ensures I.FingerprintsOn(Keep(lines, f)) == I.FingerprintsOn(lines)
  {
    hide Trim, SplitOnce;
    if lines != [] {
      var (init, last) := (lines[..|lines| - 1], lines[|lines| - 1]);
      FingerprintsOfKept(init, f);
      var kept := Keep(init, f);
      assert (kept + [last])[..|kept|] == kept;
    }
  }

  lemma AttributesAreOthers(line: string)
    ensures I.IDENTITY <= line || I.FINGERPRINT <= line ==> CandidateGuarantees.Other(line) && C.NonEmpty(line)
  {
    assert C.PREFIX[2] == 'c' && I.IDENTITY[2] == 'i' && I.FINGERPRINT[2] == 'f';
  }

  /** What validation reads off a description is on its non-empty lines that are no candidates. */
  lemma ReadOffOtherLines(sdp: string)
    ensures var others := Keep(C.Lines(sdp), CandidateGuarantees.Other);
            && I.FirstIdentity(Pieces(sdp, LINE_BREAKS)) == I.FirstIdentity(others)
            && I.FingerprintsOn(Pieces(sdp, LINE_BREAKS)) == I.FingerprintsOn(others)
  {
    hide I.FirstIdentity, I.FingerprintsOn, Pieces, Keep, CandidateGuarantees.Other, C.NonEmpty;
    forall line {
      AttributesAreOthers(line);
    }
    var pieces := Pieces(sdp, LINE_BREAKS);
    IdentityOfKept(pieces, C.NonEmpty);
    FingerprintsOfKept(pieces, C.NonEmpty);
    IdentityOfKept(C.Lines(sdp), CandidateGuarantees.Other);
    FingerprintsOfKept(C.Lines(sdp), CandidateGuarantees.Other);
  }

  // ---- the theorem ----

  /** For every description, list of addresses and instant, rewriting the candidates changes neither the identity nor
      the fingerprints, so validation gives the same claims or the same error. */
  lemma RewritingKeepsIdentity(sdp: string, allowed: seq<string>, now: int)
    ensures var out := C.WithAdvertised(sdp, allowed);
            && I.FromSdp(out) == I.FromSdp(sdp)
            && I.Fingerprints(out) == I.Fingerprints(sdp)
            && I.ValidateSdp(out, now) == I.ValidateSdp(sdp, now)
  {
    hide I.FirstIdentity, I.FingerprintsOn, Pieces, Keep, C.WithAdvertised, C.Lines, I.FromBase64, I.TokenClaims,
      I.ParseDetached, I.VerifyEs384, I.Payload;
    ReadOffOtherLines(sdp);
    ReadOffOtherLines(C.WithAdvertised(sdp, allowed));
    CandidateGuarantees.OtherLinesStay(sdp, allowed);
  }

  /** An answer signed by the server and then rewritten for its advertised addresses validates at the client exactly when
      the signed one would: the line stands on its own, the token has a lifetime, and it has not run out. */
  lemma RewrittenAnswerValidates(server: I.Server, answer: string, now: int, allowed: seq<string>, t: int)
    requires IdentityValidity.Signable(server, answer, now)
    ensures I.ValidateSdp(C.WithAdvertised(I.Augmented(server, answer, now).value, allowed), t) ==
              if !IdentityProofs.Delimited(answer) then Err(I.Missing)
              else if server.lifetime.None? then Err(I.Untrusted)
              else if t <= (I.Seconds(now + server.lifetime.value) + 60) * I.NANOS then Ok(I.Minted(server, now))
              else Err(I.Untrusted)
  {
    assert I.Augmented(server, answer, now).Ok?;
    hide *;
    IdentityValidity.ValidatesExactlyWhen(server, answer, now, t);
    RewritingKeepsIdentity(I.Augmented(server, answer, now).value, allowed, t);
  }
}
