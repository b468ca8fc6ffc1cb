/** What rewriting the candidates of a session description keeps, drops and adds. */
module CandidateRewriting {
  import opened Std
  import opened Text
  import opened Candidates
  import Endpoint
  import Net

  // ---- lines ----

  predicate Clean(line: string) {
    NonEmpty(line) && Free(line, LINE_BREAKS)
  }

  lemma LinesAreClean(sdp: string)
    ensures forall l | l in Lines(sdp) :: Clean(l)
  {
    PiecesFree(sdp, LINE_BREAKS);
    KeepMembers(Pieces(sdp, LINE_BREAKS), NonEmpty);
  }

  lemma {:induction false} JoinPieces(lines: seq<string>, rest: string) returns (pieces: seq<string>)
    requires forall l | l in lines :: Clean(l)
    ensures Pieces(Join(lines) + rest, LINE_BREAKS) == pieces + Pieces(rest, LINE_BREAKS)
    ensures Keep(pieces, NonEmpty) == lines
  {
    hide Pieces, Keep;
    if lines == [] {
      pieces := [];
      assert Join(lines) + rest == rest;
      KeepNothing(NonEmpty);
    } else {
      var (init, last) := (lines[..|lines| - 1], lines[|lines| - 1]);
      assert Clean(last);
      var before := JoinPieces(init, last + CRLF + rest);
      assert Join(lines) + rest == Join(init) + (last + CRLF + rest);
      PiecesOfLine(last, CRLF, rest);
      pieces := before + [last] + [""];
      assert pieces + Pieces(rest, LINE_BREAKS) == before + ([last] + [""] + Pieces(rest, LINE_BREAKS));
      KeepSnoc(before, last, NonEmpty);
      KeepSnoc(before + [last], "", NonEmpty);
    }
  }

  /** Clean lines survive being written and split again. */
  lemma LinesOfJoin(lines: seq<string>)
    requires forall l | l in lines :: Clean(l)
    ensures Lines(Join(lines)) == lines
  {
    hide Join, Keep;
    var pieces := JoinPieces(lines, "");
    assert Join(lines) + "" == Join(lines);
    KeepSnoc(pieces, "", NonEmpty);
  }

  // ---- candidates of lines ----

  lemma {:induction false} ParsedHas(lines: seq<string>, l: string)
    requires l in lines && Parsable(l)
    ensures ParseLine(l).value in Parsed(lines)
  {
    hide ParseLine;
    if l != lines[|lines| - 1] {
      ParsedHas(lines[..|lines| - 1], l);
    }
  }

  lemma {:induction false} ParsedFrom(lines: seq<string>, c: Candidate) returns (l: string)
    requires c in Parsed(lines)
    ensures l in lines && Parsable(l) && ParseLine(l).value == c
  {
    hide ParseLine;
    l := lines[|lines| - 1];
    if !Parsable(l) || ParseLine(l).value != c {
      l := ParsedFrom(lines[..|lines| - 1], c);
    }
  }

  lemma {:induction false} ParsedKeep(lines: seq<string>)
    ensures Parsed(Keep(lines, NonEmpty)) == Parsed(lines)
  {
    hide ParseLine;
    if lines != [] {
      var (init, last) := (lines[..|lines| - 1], lines[|lines| - 1]);
      ParsedKeep(init);
      if NonEmpty(last) {
        var kept := Keep(init, NonEmpty);
        assert (kept + [last])[..|kept|] == kept;
      }
    }
  }

  lemma CandidatesOfLines(sdp: string)
    ensures CandidatesOf(sdp) == Parsed(Lines(sdp))
  {
    ParsedKeep(Pieces(sdp, LINE_BREAKS));
  }

  /** Transport and address hold neither spaces nor line breaks. */
  predicate Unbroken(c: Candidate) {
    Free(c.transport, {' '} + LINE_BREAKS) && Free(c.address, {' '} + LINE_BREAKS)
  }

  lemma ParsedIsUnbroken(line: string)
    requires Free(line, LINE_BREAKS) && ParseLine(line).Ok?
    ensures Unbroken(ParseLine(line).value)
  {
    var tokens := Pieces(line, {' '});
    PiecesFree(line, {' '});
    PiecesInherit(line, {' '}, LINE_BREAKS);
    assert tokens[2] in tokens && tokens[4] in tokens;
  }

  lemma CandidatesAreUnbroken(sdp: string)
    ensures forall c | c in CandidatesOf(sdp) :: Unbroken(c)
  {
    hide ParseLine, Unbroken;
    forall c | c in CandidatesOf(sdp)
      ensures Unbroken(c)
    {
      var l := ParsedFrom(Pieces(sdp, LINE_BREAKS), c);
      PiecesFree(sdp, LINE_BREAKS);
      ParsedIsUnbroken(l);
    }
  }

  // ---- translated candidates ----

  /** The candidate a translated line announces. */
  function Announced(t: Translation): Candidate {
    Candidate(t.host.transport, t.address, t.host.port, Srflx)
  }

  predicate Sound(t: Translation) {
    Unbroken(t.host) && Endpoint.Parse(t.address).Some?
  }

  lemma ShowIsFree(n: nat)
    ensures Free(Show(n), {' '} + LINE_BREAKS)
  {
    assert forall i | 0 <= i < |Show(n)| :: IsDigit(Show(n)[i]);
  }

  lemma FreeAppend(a: string, b: string, seps: set<char>)
    requires Free(a, seps) && Free(b, seps)
    ensures Free(a + b, seps)
  {
  }

  lemma FixedAreFree()
    ensures forall token | token in [PREFIX, "1", TRANSLATED_PRIORITY, "typ", "srflx", "raddr", "rport"] ::
              Free(token, {' '} + LINE_BREAKS)
  {
  }

  lemma AddressIsFree(address: string)
    requires Endpoint.Parse(address).Some?
    ensures Free(address, {' '} + LINE_BREAKS)
  {
    Endpoint.LiteralIsFree(address);
  }

  lemma TokensAreFree(foundation: nat, t: Translation)
    requires Sound(t)
    ensures forall token | token in Tokens(foundation, t) :: Free(token, {' '} + LINE_BREAKS)
  {
    hide Show, Endpoint.Parse, Free;
    ShowIsFree(foundation);
    ShowIsFree(t.host.port);
    FixedAreFree();
    AddressIsFree(t.address);
    var tokens := Tokens(foundation, t);
    assert forall i | 0 <= i < 12 :: Free(tokens[i], {' '} + LINE_BREAKS) by {
      FreeAppend(PREFIX, Show(foundation), {' '} + LINE_BREAKS);
    }
  }

  /** A translated line reads back as the server-reflexive candidate it announces. */
  lemma ReadsBack(foundation: nat, t: Translation)
    requires Sound(t)
    ensures var line := Spaced(Tokens(foundation, t));
            Clean(line) && IsCandidate(line) && ParseLine(line) == Ok(Announced(t))
    ensures Pieces(Spaced(Tokens(foundation, t)), {' '})[0] == PREFIX + Show(foundation)
  {
    hide Pieces, Show, ParseUnsigned, Endpoint.Parse;
    var tokens := Tokens(foundation, t);
    TokensAreFree(foundation, t);
    assert forall token | token in tokens :: Free(token, {' '}) && Free(token, LINE_BREAKS);
    PiecesOfSpaced(tokens);
    SpacedFree(tokens, LINE_BREAKS);
    ParseShow(t.host.port, MAX_U16);
    assert Spaced(tokens) == tokens[0] + [' '] + Spaced(tokens[1..]);
  }

  lemma {:induction false} PairsForMembers(address: string, hosts: seq<Candidate>)
    ensures forall t :: t in PairsFor(address, hosts) <==> t.address == address && t.host in hosts && SameFamily(address, t.host)
  {
    hide SameFamily;
    if hosts != [] {
      PairsForMembers(address, hosts[..|hosts| - 1]);
    }
  }

  lemma {:induction false} PairsMembers(foreign: seq<string>, hosts: seq<Candidate>)
    ensures forall t :: t in Pairs(foreign, hosts) <==> t.address in foreign && t.host in hosts && SameFamily(t.address, t.host)
  {
    hide SameFamily, PairsFor;
    if foreign != [] {
      var (init, last) := (foreign[..|foreign| - 1], foreign[|foreign| - 1]);
      PairsMembers(init, hosts);
      PairsForMembers(last, hosts);
      assert forall a :: a in foreign <==> a in init || a == last;
    }
  }

  lemma {:induction false} FirstsMembers(ts: seq<Translation>)
    ensures forall t | t in Firsts(ts) :: t in ts
    ensures Keys(Firsts(ts)) == Keys(ts)
  {
    hide Keys;
    if ts != [] {
      var (init, last) := (ts[..|ts| - 1], ts[|ts| - 1]);
      FirstsMembers(init);
      assert ts == init + [last];
      KeysSnoc(init, last);
      KeysSnoc(Firsts(init), last);
    }
  }

  lemma {:induction false} FirstsDistinct(ts: seq<Translation>)
    ensures DistinctKeys(Firsts(ts))
  {
    if ts != [] {
      var (init, last) := (ts[..|ts| - 1], ts[|ts| - 1]);
      FirstsDistinct(init);
      assert forall i | 0 <= i < |Firsts(init)| :: Firsts(init)[i] in Firsts(init);
    }
  }

  lemma {:induction false} InsertMembers(xs: seq<string>, x: string)
    ensures multiset(Insert(xs, x)) == multiset(xs) + multiset{x}
  {
    hide Below;
    if xs != [] {
      var (init, last) := (xs[..|xs| - 1], xs[|xs| - 1]);
      assert xs == init + [last];
      InsertMembers(init, x);
    }
  }

  lemma {:induction false} SortIsPermutation(xs: seq<string>)
    ensures multiset(Sort(xs)) == multiset(xs)
  {
    hide Insert;
    if xs != [] {
      var (init, last) := (xs[..|xs| - 1], xs[|xs| - 1]);
      assert xs == init + [last];
      SortIsPermutation(init);
      InsertMembers(Sort(init), last);
    }
  }

  lemma {:induction false} BelowTotal(a: string, b: string)
    ensures Below(a, b) || Below(b, a)
  {
    if a != "" && b != "" && a[0] == b[0] {
      BelowTotal(a[1..], b[1..]);
    }
  }

  lemma {:induction false} BelowTransitive(a: string, b: string, c: string)
    requires Below(a, b) && Below(b, c)
    ensures Below(a, c)
  {
    if a != "" && a[0] == b[0] == c[0] {
      BelowTransitive(a[1..], b[1..], c[1..]);
    }
  }

  ghost predicate Ascending(xs: seq<string>) {
    forall i, j | 0 <= i < j < |xs| :: Below(xs[i], xs[j])
  }

  lemma {:induction false} InsertAscending(xs: seq<string>, x: string)
    requires Ascending(xs)
    ensures Ascending(Insert(xs, x))
  {
    hide Below;
    if xs != [] {
      var (init, last) := (xs[..|xs| - 1], xs[|xs| - 1]);
      if Below(last, x) {
        forall i | 0 <= i < |init|
          ensures Below(xs[i], x)
        {
          BelowTransitive(xs[i], last, x);
        }
      } else {
        BelowTotal(last, x);
        InsertAscending(init, x);
        InsertMembers(init, x);
        var r := Insert(init, x);
        forall i | 0 <= i < |r|
          ensures Below(r[i], last)
        {
          assert r[i] in multiset(r);
        }
      }
    }
  }

  /** The foreign addresses are translated in ascending order. */
  lemma {:induction false} SortAscends(xs: seq<string>)
    ensures Ascending(Sort(xs))
  {
    if xs != [] {
      SortAscends(xs[..|xs| - 1]);
      InsertAscending(Sort(xs[..|xs| - 1]), xs[|xs| - 1]);
    }
  }

  lemma ForeignMembers(cs: seq<Candidate>, allowed: seq<string>)
    ensures forall a :: a in Foreign(cs, allowed) <==> a in AllNormalized(allowed) && a !in Gathered(cs)
  {
    hide Sort, Keep, Gathered, AllNormalized;
    var xs := Keep(AllNormalized(allowed), Missing(Gathered(cs)));
    KeepMembers(AllNormalized(allowed), Missing(Gathered(cs)));
    SortIsPermutation(xs);
    assert forall a :: a in Sort(xs) <==> a in multiset(Sort(xs));
    assert forall a :: a in xs <==> a in multiset(xs);
  }

  /** Some allowed address that was not gathered can be announced through `host`. */
  /** Both are IPv4 addresses, or both IPv6. */
  predicate OneFamily(a: Option<Net.Ip>, b: Option<Net.Ip>) {
    a.Some? && b.Some? && (a.value.V4? <==> b.value.V4?)
  }

  lemma FamiliesAgree(address: string, host: Candidate)
    ensures SameFamily(address, host) <==> OneFamily(Endpoint.Parse(address), Endpoint.Parse(host.address))
    ensures host.UdpHost() <==> host.kind == Host && EqIgnoreCase(host.transport, "udp")
  {
    hide Endpoint.Parse;
  }

  predicate Translatable(cs: seq<Candidate>, allowed: seq<string>, address: string, host: Candidate) {
    && address in AllNormalized(allowed) && address !in Gathered(cs)
    && host in cs && host.kind == Host && EqIgnoreCase(host.transport, "udp")
    && OneFamily(Endpoint.Parse(address), Endpoint.Parse(host.address))
  }

  /** Exactly the translatable addresses and ports are announced, each once. */
  lemma TranslatedExactly(cs: seq<Candidate>, allowed: seq<string>)
    ensures forall t | t in Translated(cs, allowed) :: Translatable(cs, allowed, t.address, t.host)
    ensures forall address, host | Translatable(cs, allowed, address, host) ::
              (address, host.port) in Keys(Translated(cs, allowed))
    ensures DistinctKeys(Translated(cs, allowed))
  {
    hide Foreign, Bases, Pairs, Firsts, SameFamily, OneFamily, EqIgnoreCase, Candidate.UdpHost, AllNormalized, Gathered;
    var (foreign, hosts) := (Foreign(cs, allowed), Bases(cs, Held(cs, allowed)));
    ForeignMembers(cs, allowed);
    PairsMembers(foreign, hosts);
    FirstsMembers(Pairs(foreign, hosts));
    FirstsDistinct(Pairs(foreign, hosts));
    forall t | t in Translated(cs, allowed)
      ensures Translatable(cs, allowed, t.address, t.host)
    {
      FamiliesAgree(t.address, t.host);
    }
    forall address, host | Translatable(cs, allowed, address, host)
      ensures (address, host.port) in Keys(Translated(cs, allowed))
    {
      FamiliesAgree(address, host);
      var t := Translation(host, address);
      assert t in Pairs(foreign, hosts);
      assert t.Key() in Keys(Pairs(foreign, hosts));
    }
  }

  lemma TranslatedIsSound(sdp: string, allowed: seq<string>)
    ensures forall t | t in Translated(CandidatesOf(sdp), allowed) :: Sound(t)
  {
    hide Translated, CandidatesOf, Unbroken, Endpoint.Parse, Gathered, AllNormalized;
    TranslatedExactly(CandidatesOf(sdp), allowed);
    CandidatesAreUnbroken(sdp);
  }

  lemma WrittenMembers(ts: seq<Translation>)
    requires forall t | t in ts :: Sound(t)
    ensures forall l | l in Written(ts) :: Clean(l) && Parsable(l) && exists t :: t in ts && ParseLine(l).value == Announced(t)
    ensures forall t | t in ts :: exists l :: l in Written(ts) && ParseLine(l) == Ok(Announced(t))
  {
    hide Tokens, Spaced, ParseLine, Sound, IsCandidate, Clean;
    forall i | 0 <= i < |ts|
      ensures var l := Written(ts)[i]; Clean(l) && Parsable(l) && ParseLine(l) == Ok(Announced(ts[i]))
    {
      assert ts[i] in ts;
      ReadsBack(TRANSLATED_FOUNDATION + i, ts[i]);
    }
    forall t | t in ts
      ensures exists l :: l in Written(ts) && ParseLine(l) == Ok(Announced(t))
    {
      var i :| 0 <= i < |ts| && ts[i] == t;
      assert Written(ts)[i] in Written(ts);
    }
  }
}
