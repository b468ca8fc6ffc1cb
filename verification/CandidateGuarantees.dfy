/** What `with_advertised_candidates` promises for every description and every list of allowed addresses. */
module CandidateGuarantees {
  import opened Std
  import opened Text
  import opened Candidates
  import opened CandidateRewriting
  import Endpoint

  // ---- held hosts come first as the base of translations ----

  ghost predicate HeldLead(hosts: seq<Candidate>, held: set<string>) {
    forall i, j | 0 <= i < j < |hosts| && OnHeld(held, hosts[j]) :: OnHeld(held, hosts[i])
  }

  /** The stable sort by one bit: held hosts lead, and neither group is reordered. */
  lemma HeldFirstSorts(hosts: seq<Candidate>, held: set<string>)
    ensures HeldLead(HeldFirst(hosts, held), held)
    ensures forall f: Candidate -> bool |
              (forall c | c in hosts && f(c) :: OnHeld(held, c)) || (forall c | c in hosts && f(c) :: !OnHeld(held, c)) ::
              Keep(HeldFirst(hosts, held), f) == Keep(hosts, f)
  {
    hide OnHeld;
    var (on, off) := ((c: Candidate) => OnHeld(held, c), (c: Candidate) => !OnHeld(held, c));
    KeepMembers(hosts, on);
    KeepMembers(hosts, off);
    var (a, b) := (Keep(hosts, on), Keep(hosts, off));
    assert HeldFirst(hosts, held) == a + b;
    assert HeldLead(a + b, held) by {
      assert forall i | 0 <= i < |a| :: a[i] in a;
      assert forall i | 0 <= i < |b| :: b[i] in b;
    }
    forall f: Candidate -> bool |
        (forall c | c in hosts && f(c) :: OnHeld(held, c)) || (forall c | c in hosts && f(c) :: !OnHeld(held, c))
      ensures Keep(a + b, f) == Keep(hosts, f)
    {
      KeepAppend(a, b, f);
      if forall c | c in hosts && f(c) :: OnHeld(held, c) {
        KeepTwice(hosts, on, f);
        KeepNone(b, f);
      } else {
        KeepTwice(hosts, off, f);
        KeepNone(a, f);
      }
    }
  }

  /** No held host would have served for the same address and port. */
  ghost predicate Unavoidable(hosts: seq<Candidate>, held: set<string>, t: Translation) {
    forall h | h in hosts && h.port == t.host.port && SameFamily(t.address, h) :: !OnHeld(held, h)
  }

  ghost predicate Preferring(hosts: seq<Candidate>, held: set<string>, ts: seq<Translation>) {
    forall t | t in ts && !OnHeld(held, t.host) :: Unavoidable(hosts, held, t)
  }

  lemma EarlierPairTaken(before: seq<Translation>, address: string, hosts: seq<Candidate>, j: nat, h: Candidate,
                         held: set<string>)
    requires j < |hosts| && HeldLead(hosts, held) && !OnHeld(held, hosts[j])
    requires h in hosts && OnHeld(held, h) && SameFamily(address, h)
    ensures (address, h.port) in Keys(Firsts(before + PairsFor(address, hosts[..j])))
  {
    hide SameFamily, OnHeld, PairsFor, Firsts;
    var i :| 0 <= i < |hosts| && hosts[i] == h;
    assert hosts[..j][i] == h;
    PairsForMembers(address, hosts[..j]);
    var pairs := before + PairsFor(address, hosts[..j]);
    assert Translation(h, address) in pairs;
    FirstsMembers(pairs);
    assert Translation(h, address).Key() in Keys(pairs);
  }

  lemma {:induction false} PreferringFor(before: seq<Translation>, address: string, hosts: seq<Candidate>, j: nat,
                                         held: set<string>)
    requires j <= |hosts| && HeldLead(hosts, held) && Preferring(hosts, held, Firsts(before))
    ensures Preferring(hosts, held, Firsts(before + PairsFor(address, hosts[..j])))
  {
    hide SameFamily, OnHeld, PairsFor, Firsts, Keys, Tokens, Spaced, Written;
    if j == 0 {
      NoHostsYet(address, hosts);
      assert before + [] == before;
    } else {
      var (pairs, host) := (before + PairsFor(address, hosts[..j - 1]), hosts[j - 1]);
      var t := Translation(host, address);
      PreferringFor(before, address, hosts, j - 1, held);
      PairsForSnoc(address, hosts, j - 1);
      assert pairs + [] == pairs && pairs + [t] == before + (PairsFor(address, hosts[..j - 1]) + [t]);
      FirstsSnoc(pairs, t);
      var after := before + PairsFor(address, hosts[..j]);
      assert after == if SameFamily(address, host) then pairs + [t] else pairs;
      if SameFamily(address, host) && t.Key() !in Keys(Firsts(pairs)) {
        if !OnHeld(held, host) {
          forall h | h in hosts && h.port == host.port && SameFamily(address, h)
            ensures !OnHeld(held, h)
          {
            if OnHeld(held, h) {
              EarlierPairTaken(before, address, hosts, j - 1, h, held);
            }
          }
        }
        assert Firsts(after) == Firsts(pairs) + [t];
      } else {
        assert Firsts(after) == Firsts(pairs);
      }
    }
  }

  lemma {:induction false} PreferringAll(foreign: seq<string>, hosts: seq<Candidate>, held: set<string>)
    requires HeldLead(hosts, held)
    ensures Preferring(hosts, held, Translations(foreign, hosts))
  {
    hide SameFamily, OnHeld, PairsFor;
    if foreign != [] {
      var (init, last) := (foreign[..|foreign| - 1], foreign[|foreign| - 1]);
      PreferringAll(init, hosts, held);
      PreferringFor(Pairs(init, hosts), last, hosts, |hosts|, held);
      assert hosts[..|hosts|] == hosts;
    }
  }

  /** A translation is based on a host off the allowed addresses only when no host on them has its port and family. */
  lemma HeldHostsArePreferred(cs: seq<Candidate>, allowed: seq<string>)
    ensures var held := Held(cs, allowed); Preferring(Bases(cs, held), held, Translated(cs, allowed))
  {
    hide Translations, Preferring, Foreign, HeldFirst, HeldLead, Keep;
    var held := Held(cs, allowed);
    HeldFirstSorts(Keep(cs, IsUdpHost), held);
    PreferringAll(Foreign(cs, allowed), Bases(cs, held), held);
  }

  // ---- the order of translations ----

  ghost predicate AddressesAscend(ts: seq<Translation>) {
    forall i, j | 0 <= i < j < |ts| :: Below(ts[i].address, ts[j].address)
  }

  lemma AscendSnoc(ts: seq<Translation>, t: Translation)
    requires AddressesAscend(ts) && forall x | x in ts :: Below(x.address, t.address)
    ensures AddressesAscend(ts + [t])
  {
    hide Below;
    var all := ts + [t];
    forall i, j | 0 <= i < j < |all|
      ensures Below(all[i].address, all[j].address)
    {
      assert all[i] == ts[i] && ts[i] in ts;
    }
  }

  lemma {:induction false} FirstsAscend(ts: seq<Translation>)
    requires AddressesAscend(ts)
    ensures AddressesAscend(Firsts(ts))
  {
    hide Below, Keys;
    if ts != [] {
      var (init, last) := (ts[..|ts| - 1], ts[|ts| - 1]);
      assert forall i | 0 <= i < |init| :: init[i] == ts[i];
      FirstsAscend(init);
      FirstsMembers(init);
      AscendSnoc(Firsts(init), last);
    }
  }

  lemma {:induction false} BelowItself(a: string)
    ensures Below(a, a)
  {
    BelowTotal(a, a);
  }

  lemma {:induction false} PairsAscend(foreign: seq<string>, hosts: seq<Candidate>)
    requires Ascending(foreign)
    ensures AddressesAscend(Pairs(foreign, hosts))
  {
    hide Below, PairsFor, SameFamily;
    if foreign != [] {
      var init, last := foreign[..|foreign| - 1], foreign[|foreign| - 1];
      assert forall i | 0 <= i < |init| :: init[i] == foreign[i];
      PairsAscend(init, hosts);
      var a, b := Pairs(init, hosts), PairsFor(last, hosts);
      PairsMembers(init, hosts);
      PairsForMembers(last, hosts);
      BelowItself(last);
      var all: seq<Translation> := a + b;
      forall i, j | 0 <= i < j < |all|
        ensures Below(all[i].address, all[j].address)
      {
        var (x, y) := (all[i], all[j]);
        if j >= |a| {
          assert y in b;
          if i < |a| {
            assert x in a;
            var k :| 0 <= k < |init| && init[k] == x.address;
          } else {
            assert x in b;
          }
        }
      }
    }
  }

  /** The added lines come in ascending order of their addresses. */
  lemma TranslatedAscend(cs: seq<Candidate>, allowed: seq<string>)
    ensures AddressesAscend(Translated(cs, allowed))
  {
    hide Sort, Pairs, Firsts, Keep, Bases, Ascending, AddressesAscend;
    SortAscends(Keep(AllNormalized(allowed), Missing(Gathered(cs))));
    PairsAscend(Foreign(cs, allowed), Bases(cs, Held(cs, allowed)));
    FirstsAscend(Pairs(Foreign(cs, allowed), Bases(cs, Held(cs, allowed))));
  }

  // ---- the lines of the result ----

  lemma KeptWithIs(held: set<string>)
    ensures forall l :: KeptWith(held)(l) == Kept(held, l)
  {
    hide Kept;
  }

  lemma WovenMembers(lines: seq<string>, held: set<string>, translated: seq<string>)
    ensures forall l :: l in Woven(lines, held, translated) <==> (l in lines && Kept(held, l)) || l in translated
  {
    hide *;
    WovenAt(lines, held, translated);
    var (k, f) := (BlockEnd(lines), KeptWith(held));
    KeepMembers(lines[..k], f);
    KeepMembers(lines[k..], f);
    assert lines == lines[..k] + lines[k..];
    KeptWithIs(held);
  }

  /** The rewritten description has exactly the planned lines: the survivors in their order, and the translated
      candidates as one block before the line that ends the candidates. */
  lemma LinesOfResult(sdp: string, allowed: seq<string>)
    requires !LeftAlone(sdp, allowed)
    ensures var cs := CandidatesOf(sdp);
            Lines(WithAdvertised(sdp, allowed)) == Woven(Lines(sdp), Held(cs, allowed), Written(Translated(cs, allowed)))
  {
    hide Woven, Held, Written, Translated, Lines, CandidatesOf, Join, Clean, Sound, Kept, LeftAlone;
    var cs := CandidatesOf(sdp);
    LinesAreClean(sdp);
    TranslatedIsSound(sdp, allowed);
    WrittenMembers(Translated(cs, allowed));
    WovenMembers(Lines(sdp), Held(cs, allowed), Written(Translated(cs, allowed)));
    LinesOfJoin(Woven(Lines(sdp), Held(cs, allowed), Written(Translated(cs, allowed))));
  }

  /** The lines change from candidates to others there for the first time, or never before the end. */
  predicate EndsCandidates(lines: seq<string>, k: nat) {
    && k <= |lines|
    && (k < |lines| ==> k > 0 && IsCandidate(lines[k - 1]) && !IsCandidate(lines[k]))
    && forall i | 0 < i < k && IsCandidate(lines[i - 1]) :: IsCandidate(lines[i])
  }

  lemma {:induction false} BlockEndExactly(lines: seq<string>)
    ensures EndsCandidates(lines, BlockEnd(lines))
  {
    hide IsCandidate;
    if lines != [] {
      var (init, last) := (lines[..|lines| - 1], lines[|lines| - 1]);
      BlockEndExactly(init);
      assert forall i | 0 <= i < |init| :: lines[i] == init[i];
      if BlockEnd(init) == |init| {
        LastIsCandidate(init);
      }
    }
  }

  /** In a list whose candidates run to the end, if there are any. */
  lemma {:induction false} LastIsCandidate(lines: seq<string>)
    requires EndsCandidates(lines, |lines|)
    ensures AnyCandidate(lines) <==> lines != [] && IsCandidate(lines[|lines| - 1])
  {
    hide IsCandidate;
    if lines != [] {
      var init := lines[..|lines| - 1];
      assert forall i | 0 <= i < |init| :: lines[i] == init[i];
      LastIsCandidate(init);
      assert AnyCandidate(lines) ==> AnyCandidate(init) || IsCandidate(lines[|lines| - 1]);
    }
  }

  /** The translated candidates stand together where the candidates of the description end for the first time. */
  lemma TranslatedEndTheCandidates(sdp: string, allowed: seq<string>)
    requires !LeftAlone(sdp, allowed)
    ensures var (lines, cs) := (Lines(sdp), CandidatesOf(sdp));
            var kept := KeptWith(Held(cs, allowed));
            exists k: nat ::
              && EndsCandidates(lines, k)
              && Lines(WithAdvertised(sdp, allowed)) ==
                   Keep(lines[..k], kept) + Written(Translated(cs, allowed)) + Keep(lines[k..], kept)
  {
    hide BlockEnd, EndsCandidates, Held, Written, Translated, Lines, CandidatesOf, Keep, KeptWith, LeftAlone, WithAdvertised;
    LinesOfResult(sdp, allowed);
    BlockEndExactly(Lines(sdp));
  }

  predicate Other(line: string) {
    !IsCandidate(line)
  }

  lemma OthersAreKept(held: set<string>)
    ensures forall l :: Other(l) == !IsCandidate(l)
    ensures forall l | Other(l) :: KeptWith(held)(l)
  {
  }

  lemma WovenOthers(lines: seq<string>, held: set<string>, translated: seq<string>)
    requires forall l | l in translated :: IsCandidate(l)
    ensures Keep(Woven(lines, held, translated), Other) == Keep(lines, Other)
  {
    hide *;
    WovenAt(lines, held, translated);
    var (k, f) := (BlockEnd(lines), KeptWith(held));
    OthersAreKept(held);
    KeepAppend(Keep(lines[..k], f) + translated, Keep(lines[k..], f), Other);
    KeepAppend(Keep(lines[..k], f), translated, Other);
    KeepTwice(lines[..k], f, Other);
    KeepTwice(lines[k..], f, Other);
    KeepNone(translated, Other);
    assert lines == lines[..k] + lines[k..];
    KeepAppend(lines[..k], lines[k..], Other);
  }

  /** Every line that is not a candidate stays, in its order. */
  lemma OtherLinesStay(sdp: string, allowed: seq<string>)
    ensures Keep(Lines(WithAdvertised(sdp, allowed)), Other) == Keep(Lines(sdp), Other)
  {
    hide Woven, Held, Written, Translated, Lines, CandidatesOf, Join, Clean, Sound, Kept, Keep, IsCandidate;
    if !LeftAlone(sdp, allowed) {
      var cs := CandidatesOf(sdp);
      LinesOfResult(sdp, allowed);
      TranslatedIsSound(sdp, allowed);
      WrittenMembers(Translated(cs, allowed));
      WovenOthers(Lines(sdp), Held(cs, allowed), Written(Translated(cs, allowed)));
    }
  }

  // ---- candidates as they are written ----

  /** The word for the kind of a candidate. */
  function Word(kind: Kind): string {
    match kind case Host => "host" case Srflx => "srflx" case Prflx => "prflx" case Relay => "relay"
  }

  lemma WordsDiffer(token: string, kind: Kind)
    ensures KindOf(token) == Some(kind) <==> token == Word(kind)
  {
    assert "srflx"[0] == 's' && "prflx"[0] == 'p' && "relay"[0] == 'r' && "host"[0] == 'h';
  }

  /** A line reads as a candidate exactly when its tokens say so: transport, address, port, `typ` and the kind. */
  lemma ReadsExactly(line: string, c: Candidate)
    ensures ParseLine(line) == Ok(c) <==>
              var tokens := Pieces(line, {' '});
              && |tokens| >= 8 && tokens[2] == c.transport && tokens[4] == c.address
              && ParseUnsigned(tokens[5], 65535) == Some(c.port) && tokens[6] == "typ" && tokens[7] == Word(c.kind)
  {
    hide Pieces, ParseUnsigned, KindOf, Word;
    var tokens := Pieces(line, {' '});
    if |tokens| >= 8 {
      WordsDiffer(tokens[7], c.kind);
      if KindOf(tokens[7]).Some? {
        WordsDiffer(tokens[7], KindOf(tokens[7]).value);
      }
    }
  }

  /** The last of the tokens a candidate is read from. */
  function TypeOf(line: string): string
    requires ParseLine(line).Ok?
  {
    ReadsExactly(line, ParseLine(line).value);
    Pieces(line, {' '})[7]
  }

  function AddressOf(line: string): string
    requires ParseLine(line).Ok?
  {
    ReadsExactly(line, ParseLine(line).value);
    Pieces(line, {' '})[4]
  }

  lemma HostsSaySo(line: string)
    requires ParseLine(line).Ok?
    ensures ParseLine(line).value.kind == Host <==> TypeOf(line) == "host"
    ensures ParseLine(line).value.address == AddressOf(line)
  {
    hide Pieces, ParseLine, Word;
    var c := ParseLine(line).value;
    ReadsExactly(line, c);
    WordsDiffer(TypeOf(line), c.kind);
    WordsDiffer(TypeOf(line), Host);
  }

  /** Every readable candidate that does not say `host` stays. */
  lemma ReflexiveAndRelayedStay(sdp: string, allowed: seq<string>, line: string)
    requires line in Lines(sdp) && Parsable(line) && TypeOf(line) != "host"
    ensures line in Lines(WithAdvertised(sdp, allowed))
  {
    hide Woven, Held, Written, Translated, Lines, CandidatesOf, Join, ParseLine;
    HostsSaySo(line);
    if !LeftAlone(sdp, allowed) {
      LinesOfResult(sdp, allowed);
      var cs := CandidatesOf(sdp);
      WovenMembers(Lines(sdp), Held(cs, allowed), Written(Translated(cs, allowed)));
    }
  }

  lemma NothingAllowed(cs: seq<Candidate>)
    ensures Held(cs, []) == {}
  {
  }

  /** Once an allowed address was gathered, every candidate left is readable and hosts are on allowed addresses only. */
  lemma OnlyAllowedHostsStay(sdp: string, allowed: seq<string>, line: string)
    requires Held(CandidatesOf(sdp), allowed) != {}
    requires line in Lines(WithAdvertised(sdp, allowed)) && IsCandidate(line)
    ensures ParseLine(line).Ok?
    ensures TypeOf(line) == "host" ==>
              line in Lines(sdp) && Endpoint.Normalized(AddressOf(line)) in AllNormalized(allowed)
  {
    hide Woven, Written, Translated, Lines, CandidatesOf, Join, ParseLine, AllNormalized, Endpoint.Normalized, Sound,
      TypeOf, AddressOf;
    var cs := CandidatesOf(sdp);
    assert allowed != [] by { NothingAllowed(cs); }
    LinesOfResult(sdp, allowed);
    WovenMembers(Lines(sdp), Held(cs, allowed), Written(Translated(cs, allowed)));
    TranslatedIsSound(sdp, allowed);
    WrittenMembers(Translated(cs, allowed));
    HostsSaySo(line);
  }

  lemma HeldMeansRewritten(sdp: string, allowed: seq<string>)
    requires Held(CandidatesOf(sdp), allowed) != {}
    ensures !LeftAlone(sdp, allowed)
  {
    hide Translated, CandidatesOf;
    NothingAllowed(CandidatesOf(sdp));
  }

  lemma GatheredAddress(sdp: string, line: string)
    requires line in Lines(sdp) && Parsable(line)
    ensures Endpoint.Normalized(AddressOf(line)) in Gathered(CandidatesOf(sdp))
  {
    hide ParseLine, Endpoint.Normalized, Lines, AddressOf;
    CandidatesOfLines(sdp);
    ParsedHas(Lines(sdp), line);
    HostsSaySo(line);
  }

  /** Every readable candidate on an allowed address stays, host or not. */
  lemma AllowedHostsStay(sdp: string, allowed: seq<string>, line: string)
    requires line in Lines(sdp) && Parsable(line) && Endpoint.Normalized(AddressOf(line)) in AllNormalized(allowed)
    ensures line in Lines(WithAdvertised(sdp, allowed))
  {
    hide Woven, Written, Translated, Lines, CandidatesOf, Join, ParseLine, AllNormalized, Endpoint.Normalized, AddressOf,
      WithAdvertised, LeftAlone, Gathered;
    var cs := CandidatesOf(sdp);
    GatheredAddress(sdp, line);
    HostsSaySo(line);
    assert Endpoint.Normalized(AddressOf(line)) in Held(cs, allowed);
    HeldMeansRewritten(sdp, allowed);
    LinesOfResult(sdp, allowed);
    WovenMembers(Lines(sdp), Held(cs, allowed), Written(Translated(cs, allowed)));
  }

  /** While no allowed address was gathered, no line is dropped at all. */
  lemma NothingDropped(sdp: string, allowed: seq<string>, line: string)
    requires Held(CandidatesOf(sdp), allowed) == {} && line in Lines(sdp)
    ensures line in Lines(WithAdvertised(sdp, allowed))
  {
    hide Woven, Written, Translated, Lines, CandidatesOf, Join, ParseLine, Held;
    var cs := CandidatesOf(sdp);
    if !LeftAlone(sdp, allowed) {
      LinesOfResult(sdp, allowed);
      WovenMembers(Lines(sdp), Held(cs, allowed), Written(Translated(cs, allowed)));
    }
  }

  function Foundation(line: string): string {
    Pieces(line, {' '})[0]
  }

  /** The added lines read back as candidates with pairwise distinct (address, port) and foundation. */
  lemma TranslatedLinesAreDistinct(sdp: string, allowed: seq<string>, i: nat, j: nat)
    requires i < j < |Translated(CandidatesOf(sdp), allowed)|
    ensures var ts := Translated(CandidatesOf(sdp), allowed);
            var (x, y) := (Written(ts)[i], Written(ts)[j]);
            && ParseLine(x) == Ok(Announced(ts[i])) && ParseLine(y) == Ok(Announced(ts[j]))
            && (ts[i].address, ts[i].host.port) != (ts[j].address, ts[j].host.port)
            && Foundation(x) != Foundation(y)
  {
    hide Translated, CandidatesOf, Tokens, Spaced, ParseLine, Sound, Clean, Show, Pieces;
    var ts := Translated(CandidatesOf(sdp), allowed);
    TranslatedIsSound(sdp, allowed);
    assert ts[i] in ts && ts[j] in ts;
    ReadsBack(TRANSLATED_FOUNDATION + i, ts[i]);
    ReadsBack(TRANSLATED_FOUNDATION + j, ts[j]);
    TranslatedExactly(CandidatesOf(sdp), allowed);
    var (m, n) := (TRANSLATED_FOUNDATION + i, TRANSLATED_FOUNDATION + j);
    if PREFIX + Show(m) == PREFIX + Show(n) {
      assert Show(m) == (PREFIX + Show(m))[|PREFIX|..] == Show(n);
      ShowInjective(m, n);
    }
  }

  /** An added line names the host it translates as its base, and carries the fixed component and priority. */
  lemma TranslatedNamesItsHost(ts: seq<Translation>, i: nat)
    requires i < |ts| && Sound(ts[i])
    ensures var tokens := Pieces(Written(ts)[i], {' '});
            && |tokens| == 12 && tokens[0] == PREFIX + Show(80_000_000 + i) && tokens[1] == "1" && tokens[3] == "1694498815"
            && tokens[8] == "raddr" && tokens[9] == ts[i].host.address
            && tokens[10] == "rport" && tokens[11] == Show(ts[i].host.port)
  {
    hide Spaced, Pieces, Show, Sound;
    TokensAreFree(TRANSLATED_FOUNDATION + i, ts[i]);
    FreeOfSpaces(Tokens(TRANSLATED_FOUNDATION + i, ts[i]));
    PiecesOfSpaced(Tokens(TRANSLATED_FOUNDATION + i, ts[i]));
  }

  lemma FreeOfSpaces(tokens: seq<string>)
    requires forall token | token in tokens :: Free(token, {' '} + LINE_BREAKS)
    ensures forall token | token in tokens :: Free(token, {' '})
  {
  }

  ghost predicate Reachable(sdp: string) {
    exists line :: line in Lines(sdp) && Parsable(line)
  }

  lemma GatheredLine(sdp: string, a: string) returns (line: string)
    requires a in Gathered(CandidatesOf(sdp))
    ensures line in Lines(sdp) && Parsable(line) && Endpoint.Normalized(ParseLine(line).value.address) == a
  {
    hide ParseLine, Endpoint.Normalized, Lines;
    CandidatesOfLines(sdp);
    var c :| c in CandidatesOf(sdp) && Endpoint.Normalized(c.address) == a;
    line := ParsedFrom(Lines(sdp), c);
  }

  /** A description with a readable candidate keeps one. */
  lemma NeverSilenced(sdp: string, allowed: seq<string>)
    requires Reachable(sdp)
    ensures Reachable(WithAdvertised(sdp, allowed))
  {
    hide Woven, Written, Translated, Lines, CandidatesOf, Join, ParseLine, AllNormalized, WithAdvertised, LeftAlone;
    var cs := CandidatesOf(sdp);
    var held := Held(cs, allowed);
    if held == {} {
      var line :| line in Lines(sdp) && Parsable(line);
      NothingDropped(sdp, allowed, line);
    } else {
      var a :| a in held;
      var line := GatheredLine(sdp, a);
      HeldMeansRewritten(sdp, allowed);
      LinesOfResult(sdp, allowed);
      WovenMembers(Lines(sdp), held, Written(Translated(cs, allowed)));
      assert line in Lines(WithAdvertised(sdp, allowed));
    }
  }
}
