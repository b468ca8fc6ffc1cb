/** Whether a signed answer validates, for every answer, server and pair of instants. */
module IdentityValidity {
  import opened Std
  import opened Text
  import opened Identity
  import opened IdentityProofs

  // ---- lines around an inserted one ----

  predicate Blank(lines: seq<string>) {
    forall i | 0 <= i < |lines| :: lines[i] == ""
  }

  lemma PiecesAround(pre: string, line: string, eol: string, post: string)
      returns (a: seq<string>, blank: seq<string>, b: seq<string>)
    requires pre == "" || EndsInBreak(pre)
    requires Free(line, LINE_BREAKS) && IsEol(eol)
    ensures Blank(blank)
    ensures Pieces(pre + post, LINE_BREAKS) == a + b
    ensures Pieces(pre + (line + eol) + post, LINE_BREAKS) == a + ([line] + blank) + b
  {
    hide Pieces;
    blank := if eol == "\n" then [] else [""];
    PiecesOfLine(line, eol, post);
    b := Pieces(post, LINE_BREAKS);
    if pre == "" {
      a := [];
      assert pre + post == post && pre + (line + eol) + post == line + eol + post;
    } else {
      var (head, c) := (pre[..|pre| - 1], pre[|pre| - 1]);
      a := Pieces(head, LINE_BREAKS);
      assert pre + post == head + [c] + post;
      assert pre + (line + eol) + post == head + [c] + (line + eol + post);
      PiecesAppend(head, c, post, LINE_BREAKS);
      PiecesAppend(head, c, line + eol + post, LINE_BREAKS);
      assert a + ([line] + blank + b) == a + ([line] + blank) + b;
    }
  }

  // ---- the identity line ----

  predicate NoIdentity(lines: seq<string>) {
    forall i | 0 <= i < |lines| :: !(IDENTITY <= lines[i])
  }

  lemma {:induction false} FirstIdentityIs(a: seq<string>, line: string, b: seq<string>)
    requires NoIdentity(a) && IDENTITY <= line
    ensures FirstIdentity(a + [line] + b) == Some(line[|IDENTITY|..])
    decreases |a|
  {
    var all := a + [line] + b;
    if a != [] {
      assert all[0] == a[0] && all[1..] == a[1..] + [line] + b;
      FirstIdentityIs(a[1..], line, b);
    } else {
      assert all[0] == line;
    }
  }

  lemma {:induction false} NoFirstIdentity(lines: seq<string>)
    requires NoIdentity(lines)
    ensures FirstIdentity(lines) == None
    decreases |lines|
  {
    if lines != [] {
      NoFirstIdentity(lines[1..]);
    }
  }

  // ---- the fingerprint lines ----

  predicate NoFingerprint(lines: seq<string>) {
    forall i | 0 <= i < |lines| :: !(FINGERPRINT <= lines[i])
  }

  lemma {:induction false} OthersSkipped(a: seq<string>, other: seq<string>, b: seq<string>)
    requires NoFingerprint(other)
    ensures FingerprintsOn(a + other + b) == FingerprintsOn(a + b)
    decreases |b|, |other|
  {
    hide Trim, SplitOnce;
    if b != [] {
      var init := b[..|b| - 1];
      OthersSkipped(a, other, init);
      var (x, y) := (a + other + b, a + b);
      assert x[..|x| - 1] == a + other + init && y[..|y| - 1] == a + init;
    } else if other != [] {
      var init := other[..|other| - 1];
      OthersSkipped(a, init, b);
      var x := a + other + b;
      assert x[..|x| - 1] == a + init + b;
    } else {
      assert a + other + b == a + b;
    }
  }

  lemma AttributeIsNoFingerprint(value: string, blank: seq<string>)
    requires Blank(blank)
    ensures NoFingerprint([IDENTITY + value] + blank)
  {
    var line := IDENTITY + value;
    assert line[2] == 'i' && FINGERPRINT[2] == 'f';
  }

  lemma PayloadIsNotEmpty(fs: seq<Fingerprint>)
    requires fs != []
    ensures Payload(fs) != EMPTY_FINGERPRINTS
  {
    var e := Entries(fs);
    assert e[0] == '{';
    assert Payload(fs)[|"{\"fingerprint\":["|] == '{';
  }

  // ---- a line that is glued to what comes before it ----

  /** Text added to the last line. */
  function Glue(lines: seq<string>, b: string): seq<string>
    requires lines != []
  {
    lines[..|lines| - 1] + [lines[|lines| - 1] + b]
  }

  lemma GlueCons(line: string, rest: seq<string>, b: string)
    requires rest != []
    ensures Glue([line] + rest, b) == [line] + Glue(rest, b)
  {
  }

  lemma GlueHead(c: char, rest: seq<string>, b: string)
    requires rest != []
    ensures Glue([[c] + rest[0]] + rest[1..], b) == [[c] + Glue(rest, b)[0]] + Glue(rest, b)[1..]
  {
    if |rest| == 1 {
      assert [c] + rest[0] + b == [c] + (rest[0] + b);
    }
  }

  lemma {:induction false} PiecesGlue(a: string, b: string, seps: set<char>)
    requires Free(b, seps)
    ensures Pieces(a + b, seps) == Glue(Pieces(a, seps), b)
  {
    if a == "" {
      assert a + b == b;
      PiecesOfFree(b, seps);
    } else {
      hide Glue;
      assert (a + b)[1..] == a[1..] + b && (a + b)[0] == a[0];
      PiecesGlue(a[1..], b, seps);
      GlueCons("", Pieces(a[1..], seps), b);
      GlueHead(a[0], Pieces(a[1..], seps), b);
    }
  }

  lemma {:induction false} LastPiece(a: string, seps: set<char>)
    requires a != "" && a[|a| - 1] !in seps
    ensures Pieces(a, seps)[|Pieces(a, seps)| - 1] != ""
  {
    if |a| > 1 {
      LastPiece(a[1..], seps);
    }
  }

  /** `a` begins the prefix and occurs nowhere else in it, so no line becomes an identity line by having one glued on. */
  lemma GluedIsNoIdentity(line: string, value: string)
    requires line != "" && !(IDENTITY <= line)
    ensures !(IDENTITY <= line + (IDENTITY + value))
  {
    var glued := line + (IDENTITY + value);
    if |line| < |IDENTITY| {
      assert glued[|line|] == 'a' && IDENTITY[|line|] != 'a';
    } else {
      assert glued[..|IDENTITY|] == line[..|IDENTITY|];
    }
  }

  lemma GluedLines(answer: string, value: string, eol: string)
    requires answer != "" && !EndsInBreak(answer) && NoIdentity(Pieces(answer, LINE_BREAKS))
    requires Free(value, LINE_BREAKS) && IsEol(eol)
    ensures NoIdentity(Pieces(answer + (IDENTITY + value + eol), LINE_BREAKS))
  {
    hide Pieces;
    var text := answer + (IDENTITY + value);
    assert answer + (IDENTITY + value + eol) == text + eol;
    var ps := Pieces(answer, LINE_BREAKS);
    PiecesGlue(answer, IDENTITY + value, LINE_BREAKS);
    LastPiece(answer, LINE_BREAKS);
    GluedIsNoIdentity(ps[|ps| - 1], value);
    PiecesOfFree([], LINE_BREAKS);
    if eol == "\n" {
      assert text + eol == text + ['\n'] + [];
      PiecesAppend(text, '\n', [], LINE_BREAKS);
    } else {
      assert text + eol == (text + ['\r']) + ['\n'] + [];
      PiecesAppend(text + ['\r'], '\n', [], LINE_BREAKS);
      assert text + ['\r'] == text + ['\r'] + [];
      PiecesAppend(text, '\r', [], LINE_BREAKS);
    }
  }

  // ---- the theorem ----

  predicate Signable(server: Server, answer: string, now: int) {
    && Augmented(server, answer, now).Ok?
    && Fingerprints(answer).Ok? && Fingerprints(answer).value != []
    && NoIdentity(Pieces(answer, LINE_BREAKS))
  }

  /** A line inserted on its own is the first identity line and no fingerprint line. */
  lemma InsertedLine(answer: string, value: string, eol: string)
    requires Delimited(answer) && NoIdentity(Pieces(answer, LINE_BREAKS)) && Free(value, LINE_BREAKS) && IsEol(eol)
    ensures var lines := Pieces(Inserted(answer, IDENTITY + value + eol), LINE_BREAKS);
            FingerprintsOn(lines) == FingerprintsOn(Pieces(answer, LINE_BREAKS)) && FirstIdentity(lines) == Some(value)
  {
    hide Delimited, EndsInBreak, Pieces, FingerprintsOn, Inserted, FirstIdentity;
    var line := IDENTITY + value;
    var pre, post := InsertedBetween(answer, line + eol);
    var a, blank, b := PiecesAround(pre, line, eol, post);
    AttributeIsNoFingerprint(value, blank);
    OthersSkipped(a, [line] + blank, b);
    assert NoIdentity(a) by {
      assert forall i | 0 <= i < |a| :: a[i] == (a + b)[i];
    }
    assert a + ([line] + blank) + b == a + [line] + (blank + b);
    FirstIdentityIs(a, line, blank + b);
    assert line[|IDENTITY|..] == value;
  }

  /** The result has the same fingerprints, and the identity it is read to have is the one just signed. */
  lemma DelimitedReadsBack(server: Server, answer: string, now: int)
    requires Signable(server, answer, now) && Delimited(answer)
    ensures var out := Augmented(server, answer, now).value;
            && Fingerprints(out) == Fingerprints(answer)
            && FromSdp(out) == FromBase64(IdentityValue(server, answer, now).value)
  {
    hide Delimited, Pieces, IdentityFor, FromBase64, FingerprintsOn, Inserted, Contains, Payload, FirstIdentity;
    ValueReadsBack(server, Fingerprints(answer).value, now, 0);
    InsertedLine(answer, IdentityValue(server, answer, now).value, Eol(answer));
  }

  lemma NothingSigned(answer: string)
    requires Fingerprints(answer) != Ok([])
    ensures answer != ""
  {
    assert Pieces("", LINE_BREAKS) == [""];
    assert [""][..0] == [];
    assert FingerprintsOn([""]) == Ok([]);
  }

  lemma UndelimitedIsMissing(server: Server, answer: string, now: int)
    requires Signable(server, answer, now) && !Delimited(answer)
    ensures FromSdp(Augmented(server, answer, now).value) == Err(Missing)
  {
    hide HasMedia, Pieces, IdentityFor, FromBase64, FingerprintsOn, Inserted, Contains, Payload, FirstIdentity;
    var (value, eol) := (IdentityValue(server, answer, now).value, Eol(answer));
    ValueReadsBack(server, Fingerprints(answer).value, now, 0);
    var pre, post := InsertedBetween(answer, IDENTITY + value + eol);
    assert answer != "" by { NothingSigned(answer); }
    assert pre + (IDENTITY + value + eol) + post == answer + (IDENTITY + value + eol);
    GluedLines(answer, value, eol);
    NoFirstIdentity(Pieces(answer + (IDENTITY + value + eol), LINE_BREAKS));
  }

  /** A signed answer that had fingerprints and no identity keeps its fingerprints and validates exactly when the
      inserted line stands on its own, the token has a lifetime, and it has not run out by more than the leeway. */
  lemma ValidatesExactlyWhen(server: Server, answer: string, now: int, t: int)
    requires Signable(server, answer, now)
    ensures var out := Augmented(server, answer, now).value;
            && (Delimited(answer) ==> Fingerprints(out) == Fingerprints(answer))
            && ValidateSdp(out, t) ==
                 if !Delimited(answer) then Err(Missing)
                 else if server.lifetime.None? then Err(Untrusted)
                 else if t <= (Seconds(now + server.lifetime.value) + 60) * NANOS then Ok(Minted(server, now))
                 else Err(Untrusted)
  {
    hide Delimited, Pieces, IdentityFor, FromBase64, FingerprintsOn, Inserted, Contains, Payload, FirstIdentity, Seconds,
      FromSdp, TokenClaims, ParseDetached, VerifyEs384;
    if Delimited(answer) {
      DelimitedReadsBack(server, answer, now);
      var fs := Fingerprints(answer).value;
      ValueReadsBack(server, fs, now, t);
      PayloadIsNotEmpty(fs);
    } else {
      UndelimitedIsMissing(server, answer, now);
    }
  }

  // ---- the shortest answer that loses its identity ----

  const UNFINISHED := "a=fingerprint:a b"

  lemma UnfinishedFingerprints()
    ensures Pieces(UNFINISHED, LINE_BREAKS) == [UNFINISHED] && Fingerprints(UNFINISHED) == Ok([("a", "b")])
  {
    hide Pieces;
    PiecesOfFree(UNFINISHED, LINE_BREAKS);
    var value := UNFINISHED[|FINGERPRINT|..];
    assert value == "a b";
    assert Trim(value) == value;
    assert value == "a" + [' '] + "b";
    SplitOnceFirst("a", ' ', "b");
    assert [UNFINISHED][..0] == [] && FingerprintsOn([]) == Ok([]);
    assert [] + [("a", "b")] == [("a", "b")];
  }

  lemma {:induction false} OneLine(s: string)
    requires s != "" && '\n' !in s
    ensures Inclusive(s) == [s]
  {
    if |s| == 1 {
      assert Inclusive(s[1..]) == [] && [s[0]] == s;
    } else {
      OneLine(s[1..]);
      assert [s[0]] + s[1..] == s;
    }
  }

  /** One fingerprint line without its line end: signing succeeds, and no one finds the identity. */
  lemma UnfinishedIsMissing(server: Server, now: int, t: int)
    requires Augmented(server, UNFINISHED, now).Ok?
    ensures ValidateSdp(Augmented(server, UNFINISHED, now).value, t) == Err(Missing)
  {
    hide Augmented, ValidateSdp, Fingerprints, Pieces, Inclusive, Minted, Seconds;
    UnfinishedFingerprints();
    OneLine(UNFINISHED);
    assert UNFINISHED[0] == 'a' && UNFINISHED[2] == 'f' && IDENTITY[2] == 'i';
    assert !Delimited(UNFINISHED);
    ValidatesExactlyWhen(server, UNFINISHED, now, t);
  }
}
