/** Rewriting the candidates twice: exactly when the second pass changes nothing. */
module CandidateIdempotence {
  import opened Std
  import opened Text
  import opened Candidates
  import opened CandidateRewriting
  import opened CandidateGuarantees
  import Endpoint

  ghost predicate SomeTranslatable(cs: seq<Candidate>, allowed: seq<string>) {
    exists address, host :: Translatable(cs, allowed, address, host)
  }

  /** None of the allowed addresses was gathered, and one of them can be announced through a gathered host. */
  ghost predicate OnlyForeign(sdp: string, allowed: seq<string>) {
    Held(CandidatesOf(sdp), allowed) == {} && SomeTranslatable(CandidatesOf(sdp), allowed)
  }

  lemma TranslatedNonEmpty(cs: seq<Candidate>, allowed: seq<string>)
    ensures Translated(cs, allowed) != [] <==> SomeTranslatable(cs, allowed)
  {
    hide Translated, Translatable;
    TranslatedExactly(cs, allowed);
    var ts := Translated(cs, allowed);
    if ts != [] {
      assert ts[0] in ts;
    }
  }

  // ---- the candidates of the result ----

  /** A candidate whose line survives is a candidate of the result. */
  lemma SurvivorParsed(sdp: string, allowed: seq<string>, line: string)
    requires !LeftAlone(sdp, allowed) && line in Lines(sdp) && Parsable(line)
    requires Kept(Held(CandidatesOf(sdp), allowed), line)
    ensures ParseLine(line).value in CandidatesOf(WithAdvertised(sdp, allowed))
  {
    hide Woven, Written, Translated, Lines, CandidatesOf, ParseLine, WithAdvertised, LeftAlone, Parsed, Kept;
    var cs := CandidatesOf(sdp);
    LinesOfResult(sdp, allowed);
    WovenMembers(Lines(sdp), Held(cs, allowed), Written(Translated(cs, allowed)));
    CandidatesOfLines(WithAdvertised(sdp, allowed));
    ParsedHas(Lines(WithAdvertised(sdp, allowed)), line);
  }

  lemma AnnouncedParsed(sdp: string, allowed: seq<string>, t: Translation)
    requires !LeftAlone(sdp, allowed) && t in Translated(CandidatesOf(sdp), allowed)
    ensures Announced(t) in CandidatesOf(WithAdvertised(sdp, allowed))
  {
    hide Woven, Written, Translated, Lines, CandidatesOf, ParseLine, WithAdvertised, LeftAlone, Parsed, Kept, Sound, Announced;
    var cs := CandidatesOf(sdp);
    LinesOfResult(sdp, allowed);
    WovenMembers(Lines(sdp), Held(cs, allowed), Written(Translated(cs, allowed)));
    TranslatedIsSound(sdp, allowed);
    WrittenMembers(Translated(cs, allowed));
    var line :| line in Written(Translated(cs, allowed)) && ParseLine(line) == Ok(Announced(t));
    CandidatesOfLines(WithAdvertised(sdp, allowed));
    ParsedHas(Lines(WithAdvertised(sdp, allowed)), line);
  }

  lemma HostsComeFromBefore(sdp: string, allowed: seq<string>, c: Candidate)
    requires !LeftAlone(sdp, allowed) && c in CandidatesOf(WithAdvertised(sdp, allowed)) && c.kind == Host
    ensures c in CandidatesOf(sdp)
  {
    hide Woven, Written, Translated, Lines, CandidatesOf, ParseLine, WithAdvertised, LeftAlone, Parsed, Kept, Sound;
    var cs := CandidatesOf(sdp);
    CandidatesOfLines(WithAdvertised(sdp, allowed));
    var line := ParsedFrom(Lines(WithAdvertised(sdp, allowed)), c);
    LinesOfResult(sdp, allowed);
    WovenMembers(Lines(sdp), Held(cs, allowed), Written(Translated(cs, allowed)));
    TranslatedIsSound(sdp, allowed);
    WrittenMembers(Translated(cs, allowed));
    CandidatesOfLines(sdp);
    ParsedHas(Lines(sdp), line);
  }

  lemma AllowedIsNormal(allowed: seq<string>, a: string)
    requires a in AllNormalized(allowed)
    ensures Endpoint.Normalized(a) == a
  {
    hide Endpoint.Normalized;
    var i :| 0 <= i < |allowed| && AllNormalized(allowed)[i] == a;
    Endpoint.NormalizedIsFixed(allowed[i]);
  }

  /** The address a translation announces counts as gathered the second time. */
  lemma AnnouncedGathered(sdp: string, allowed: seq<string>, t: Translation)
    requires !LeftAlone(sdp, allowed) && t in Translated(CandidatesOf(sdp), allowed)
    ensures t.address in Gathered(CandidatesOf(WithAdvertised(sdp, allowed)))
    ensures t.address in AllNormalized(allowed)
  {
    hide Translated, CandidatesOf, WithAdvertised, LeftAlone, Endpoint.Normalized, SameFamily;
    TranslatedExactly(CandidatesOf(sdp), allowed);
    AnnouncedParsed(sdp, allowed, t);
    AllowedIsNormal(allowed, t.address);
    assert Announced(t).address == t.address;
  }

  // ---- some allowed address was gathered ----

  lemma HeldGrows(sdp: string, allowed: seq<string>)
    requires Held(CandidatesOf(sdp), allowed) != {}
    ensures Held(CandidatesOf(sdp), allowed) <= Held(CandidatesOf(WithAdvertised(sdp, allowed)), allowed)
  {
    hide CandidatesOf, WithAdvertised, LeftAlone, Endpoint.Normalized, AllNormalized, ParseLine, Lines;
    HeldMeansRewritten(sdp, allowed);
    forall a | a in Held(CandidatesOf(sdp), allowed)
      ensures a in Held(CandidatesOf(WithAdvertised(sdp, allowed)), allowed)
    {
      var line := GatheredLine(sdp, a);
      SurvivorParsed(sdp, allowed, line);
    }
  }

  lemma NothingNewToTranslate(sdp: string, allowed: seq<string>)
    requires Held(CandidatesOf(sdp), allowed) != {}
    ensures Translated(CandidatesOf(WithAdvertised(sdp, allowed)), allowed) == []
  {
    hide CandidatesOf, WithAdvertised, LeftAlone, Endpoint.Normalized, AllNormalized, Translated, SameFamily, Gathered,
      Candidate.Udp;
    var (cs, cs1) := (CandidatesOf(sdp), CandidatesOf(WithAdvertised(sdp, allowed)));
    HeldMeansRewritten(sdp, allowed);
    HeldGrows(sdp, allowed);
    TranslatedExactly(cs, allowed);
    forall address, host | Translatable(cs1, allowed, address, host)
      ensures false
    {
      HostsComeFromBefore(sdp, allowed, host);
      assert address !in Held(cs1, allowed) && address !in Held(cs, allowed);
      assert Translatable(cs, allowed, address, host);
      var t :| t in Translated(cs, allowed) && t.Key() == (address, host.port);
      AnnouncedGathered(sdp, allowed, t);
    }
    TranslatedNonEmpty(cs1, allowed);
  }

  lemma AllKeptAgain(sdp: string, allowed: seq<string>)
    requires Held(CandidatesOf(sdp), allowed) != {}
    ensures var once := WithAdvertised(sdp, allowed);
            forall l | l in Lines(once) :: Kept(Held(CandidatesOf(once), allowed), l)
  {
    hide CandidatesOf, WithAdvertised, LeftAlone, Translated, Held, Lines, Written, Woven, ParseLine, Sound,
      Endpoint.Normalized;
    var cs := CandidatesOf(sdp);
    HeldMeansRewritten(sdp, allowed);
    HeldGrows(sdp, allowed);
    LinesOfResult(sdp, allowed);
    WovenMembers(Lines(sdp), Held(cs, allowed), Written(Translated(cs, allowed)));
    TranslatedIsSound(sdp, allowed);
    WrittenMembers(Translated(cs, allowed));
  }

  lemma WovenUnchanged(lines: seq<string>, held: set<string>)
    requires forall l | l in lines :: Kept(held, l)
    ensures Woven(lines, held, []) == lines
  {
    hide *;
    WovenAt(lines, held, []);
    var (k, f) := (BlockEnd(lines), KeptWith(held));
    KeptWithIs(held);
    KeepAll(lines[..k], f);
    KeepAll(lines[k..], f);
    assert lines == lines[..k] + [] + lines[k..];
  }

  lemma StableOnceHeld(sdp: string, allowed: seq<string>)
    requires Held(CandidatesOf(sdp), allowed) != {}
    ensures WithAdvertised(WithAdvertised(sdp, allowed), allowed) == WithAdvertised(sdp, allowed)
  {
    hide CandidatesOf, LeftAlone, Translated, Held, Lines, Woven, ParseLine, Join, Kept;
    var once := WithAdvertised(sdp, allowed);
    HeldMeansRewritten(sdp, allowed);
    HeldGrows(sdp, allowed);
    HeldMeansRewritten(once, allowed);
    NothingNewToTranslate(sdp, allowed);
    AllKeptAgain(sdp, allowed);
    WovenUnchanged(Lines(once), Held(CandidatesOf(once), allowed));
    LinesOfResult(sdp, allowed);
    assert Written([]) == [];
  }

  // ---- none was ----

  lemma ForeignMeansRewritten(sdp: string, allowed: seq<string>)
    requires Translated(CandidatesOf(sdp), allowed) != []
    ensures !LeftAlone(sdp, allowed)
  {
    hide CandidatesOf, Translated, SameFamily;
    TranslatedNonEmpty(CandidatesOf(sdp), allowed);
  }

  lemma DroppedTheSecondTime(sdp: string, allowed: seq<string>) returns (line: string)
    requires OnlyForeign(sdp, allowed)
    ensures line in Lines(sdp) && Parsable(line) && ParseLine(line).value.kind == Host
    ensures var once := WithAdvertised(sdp, allowed);
            line in Lines(once) && line !in Lines(WithAdvertised(once, allowed))
  {
    hide CandidatesOf, WithAdvertised, LeftAlone, Translated, Lines, Written, Woven, ParseLine, Sound, AllNormalized,
      Endpoint.Normalized, SameFamily, Candidate.Udp;
    var cs := CandidatesOf(sdp);
    var once := WithAdvertised(sdp, allowed);
    var cs1 := CandidatesOf(once);
    TranslatedNonEmpty(cs, allowed);
    ForeignMeansRewritten(sdp, allowed);
    var t := Translated(cs, allowed)[0];
    assert t in Translated(cs, allowed);
    TranslatedExactly(cs, allowed);
    CandidatesOfLines(sdp);
    line := ParsedFrom(Lines(sdp), t.host);
    NothingDropped(sdp, allowed, line);
    AnnouncedGathered(sdp, allowed, t);
    assert t.address in Held(cs1, allowed);
    assert Endpoint.Normalized(t.host.address) in Gathered(cs);
    assert Endpoint.Normalized(t.host.address) !in Held(cs, allowed);
    assert !Kept(Held(cs1, allowed), line);
    HeldMeansRewritten(once, allowed);
    LinesOfResult(once, allowed);
    WovenMembers(Lines(once), Held(cs1, allowed), Written(Translated(cs1, allowed)));
    TranslatedIsSound(once, allowed);
    WrittenMembers(Translated(cs1, allowed));
  }

  lemma AloneStays(sdp: string, allowed: seq<string>)
    requires Held(CandidatesOf(sdp), allowed) == {} && Translated(CandidatesOf(sdp), allowed) == []
    ensures WithAdvertised(sdp, allowed) == sdp
  {
    hide CandidatesOf, Translated, Held;
  }

  /** Rewriting is idempotent except when the first pass could only add: then the second pass takes the addresses it
      added as gathered and drops the hosts they were translated from. */
  lemma IdempotentExactlyWhen(sdp: string, allowed: seq<string>)
    ensures WithAdvertised(WithAdvertised(sdp, allowed), allowed) == WithAdvertised(sdp, allowed)
            <==> !OnlyForeign(sdp, allowed)
  {
    hide CandidatesOf, WithAdvertised, LeftAlone, Translated, Lines, Held, ParseLine, SomeTranslatable;
    var cs := CandidatesOf(sdp);
    TranslatedNonEmpty(cs, allowed);
    if OnlyForeign(sdp, allowed) {
      var line := DroppedTheSecondTime(sdp, allowed);
    } else if Held(cs, allowed) != {} {
      StableOnceHeld(sdp, allowed);
    } else {
      AloneStays(sdp, allowed);
    }
  }

  // ---- the smallest description that loses its host ----

  function OneHost(address: string): string {
    Spaced(["a=candidate:1", "1", "udp", "1", address, Show(9), "typ", "host"])
  }

  lemma SpacedStarts(tokens: seq<string>)
    requires tokens != []
    ensures tokens[0] <= Spaced(tokens)
  {
  }

  lemma OneHostParsed(address: string)
    requires Endpoint.Literal(address)
    ensures CandidatesOf(OneHost(address)) == [Candidate("udp", address, 9, Host)]
  {
    hide Pieces, Show, ParseUnsigned, Spaced;
    var tokens := ["a=candidate:1", "1", "udp", "1", address, Show(9), "typ", "host"];
    Endpoint.LiteralIsFree(address);
    ShowIsFree(9);
    assert forall t | t in tokens :: Free(t, {' '}) && Free(t, LINE_BREAKS);
    PiecesOfSpaced(tokens);
    SpacedFree(tokens, LINE_BREAKS);
    ParseShow(9, MAX_U16);
    var line := OneHost(address);
    PiecesOfFree(line, LINE_BREAKS);
    SpacedStarts(tokens);
    assert ParseLine(line) == Ok(Candidate("udp", address, 9, Host));
    assert Parsed([line]) == Parsed([]) + [ParseLine(line).value] by { assert [line][..0] == []; }
  }

  /** One UDP host and one other IPv4 address to advertise: the second pass drops the host. */
  lemma SecondPassDropsTheHost(host: string, other: string)
    requires Endpoint.Parse(host).Some? && Endpoint.Parse(host).value.V4?
    requires Endpoint.Parse(other).Some? && Endpoint.Parse(other).value.V4?
    requires Endpoint.Parse(host) != Endpoint.Parse(other)
    ensures WithAdvertised(WithAdvertised(OneHost(host), [other]), [other]) != WithAdvertised(OneHost(host), [other])
  {
    hide WithAdvertised, CandidatesOf;
    var (sdp, allowed, address) := (OneHost(host), [other], Endpoint.Normalized(other));
    OneHostParsed(host);
    var h := Candidate("udp", host, 9, Host);
    assert CandidatesOf(sdp) == [h];
    Endpoint.NormalizedIsFixed(host);
    Endpoint.NormalizedIsFixed(other);
    assert AllNormalized(allowed) == [address];
    assert Gathered([h]) == {Endpoint.Normalized(host)} by { assert forall c :: c in [h] <==> c == h; }
    assert Translatable([h], allowed, address, h);
    IdempotentExactlyWhen(sdp, allowed);
  }
}
