/** `a=candidate` lines of a session description and their rewriting (`util/candidate.rs`). */
module Candidates {
  import opened Std
  import opened Codec
  import opened Text
  import Endpoint

  const PREFIX := "a=candidate:"
  const CRLF := "\r\n"
  const TRANSLATED_PRIORITY := "1694498815"
  const TRANSLATED_FOUNDATION: nat := 80_000_000

  datatype Kind = Host | Srflx | Prflx | Relay

  datatype Candidate = Candidate(transport: string, address: string, port: u16, kind: Kind) {
    predicate Udp() {
      EqIgnoreCase(transport, "udp")
    }

    predicate UdpHost() {
      kind == Host && Udp()
    }
  }

  predicate IsUdpHost(c: Candidate) {
    c.UdpHost()
  }

  datatype LineError = TooFewTokens | MissingTypeKeyword | UnknownKind | InvalidPort

  // ---- reading ----

  predicate IsCandidate(line: string) {
    PREFIX <= line
  }

  function KindOf(token: string): Option<Kind> {
    if token == "host" then Some(Host)
    else if token == "srflx" then Some(Srflx)
    else if token == "prflx" then Some(Prflx)
    else if token == "relay" then Some(Relay)
    else None
  }

  function ParseLine(line: string): Result<Candidate, LineError> {
    var tokens := Pieces(line, {' '});
    if |tokens| < 8 then Err(TooFewTokens)
    else if tokens[6] != "typ" then Err(MissingTypeKeyword)
    else if KindOf(tokens[7]).None? then Err(UnknownKind)
    else match ParseUnsigned(tokens[5], MAX_U16)
      case None => Err(InvalidPort)
      case Some(port) => Ok(Candidate(tokens[2], tokens[4], port, KindOf(tokens[7]).value))
  }

  /** The line is a candidate this module understands. */
  predicate Parsable(line: string) {
    IsCandidate(line) && ParseLine(line).Ok?
  }

  /** The candidates on a list of lines, in order. */
  function Parsed(lines: seq<string>): seq<Candidate> {
    if lines == [] then []
    else
      var last := lines[|lines| - 1];
      var init := Parsed(lines[..|lines| - 1]);
      if Parsable(last) then init + [ParseLine(last).value] else init
  }

  predicate NonEmpty(line: string) {
    line != ""
  }

  function Lines(sdp: string): seq<string> {
    Keep(Pieces(sdp, LINE_BREAKS), NonEmpty)
  }

  function CandidatesOf(sdp: string): seq<Candidate> {
    Parsed(Pieces(sdp, LINE_BREAKS))
  }

  // ---- the plan ----

  function Gathered(cs: seq<Candidate>): set<string> {
    set c | c in cs :: Endpoint.Normalized(c.address)
  }

  function AllNormalized(allowed: seq<string>): seq<string> {
    seq(|allowed|, i requires 0 <= i < |allowed| => Endpoint.Normalized(allowed[i]))
  }

  /** The allowed addresses that were gathered. */
  function Held(cs: seq<Candidate>, allowed: seq<string>): set<string> {
    set a | a in AllNormalized(allowed) && a in Gathered(cs)
  }

  /** Comparison of strings by code points, which is the order of their UTF-8 bytes. */
  predicate Below(a: string, b: string) {
    a == "" || (b != "" && (a[0] < b[0] || (a[0] == b[0] && Below(a[1..], b[1..]))))
  }

  function Insert(xs: seq<string>, x: string): seq<string> {
    if xs == [] || Below(xs[|xs| - 1], x) then xs + [x]
    else Insert(xs[..|xs| - 1], x) + [xs[|xs| - 1]]
  }

  function Sort(xs: seq<string>): seq<string> {
    if xs == [] then [] else Insert(Sort(xs[..|xs| - 1]), xs[|xs| - 1])
  }

  function Missing(gathered: set<string>): string -> bool {
    (a: string) => a !in gathered
  }

  /** The allowed addresses that were not. */
  function Foreign(cs: seq<Candidate>, allowed: seq<string>): seq<string> {
    Sort(Keep(AllNormalized(allowed), Missing(Gathered(cs))))
  }

  predicate OnHeld(held: set<string>, c: Candidate) {
    Endpoint.Normalized(c.address) in held
  }

  /** The UDP host candidates, those on held addresses first: a stable sort by one bit. */
  function Bases(cs: seq<Candidate>, held: set<string>): (r: seq<Candidate>)
    ensures forall c :: c in r <==> c in cs && c.UdpHost()
  {
    KeepMembers(cs, IsUdpHost);
    HeldFirst(Keep(cs, IsUdpHost), held)
  }

  function HeldFirst(hosts: seq<Candidate>, held: set<string>): (r: seq<Candidate>)
    ensures forall c :: c in r <==> c in hosts
  {
    var (on, off) := ((c: Candidate) => OnHeld(held, c), (c: Candidate) => !OnHeld(held, c));
    KeepMembers(hosts, on);
    KeepMembers(hosts, off);
    Keep(hosts, on) + Keep(hosts, off)
  }

  // ---- translated candidates ----

  datatype Translation = Translation(host: Candidate, address: string) {
    function Key(): (string, u16) {
      (address, host.port)
    }
  }

  predicate SameFamily(address: string, host: Candidate) {
    match (Endpoint.Parse(address), Endpoint.Parse(host.address))
    case (Some(V4(_)), Some(V4(_))) => true
    case (Some(V6(_)), Some(V6(_))) => true
    case _ => false
  }

  function PairsFor(address: string, hosts: seq<Candidate>): seq<Translation> {
    if hosts == [] then []
    else
      var last := hosts[|hosts| - 1];
      var init := PairsFor(address, hosts[..|hosts| - 1]);
      if SameFamily(address, last) then init + [Translation(last, address)] else init
  }

  function Pairs(foreign: seq<string>, hosts: seq<Candidate>): seq<Translation> {
    if foreign == [] then []
    else Pairs(foreign[..|foreign| - 1], hosts) + PairsFor(foreign[|foreign| - 1], hosts)
  }

  function Keys(ts: seq<Translation>): set<(string, u16)> {
    set t | t in ts :: t.Key()
  }

  predicate DistinctKeys(ts: seq<Translation>) {
    forall i, j | 0 <= i < j < |ts| :: ts[i].Key() != ts[j].Key()
  }

  /** The first translation of each address and port. */
  function Firsts(ts: seq<Translation>): seq<Translation> {
    if ts == [] then []
    else
      var init := Firsts(ts[..|ts| - 1]);
      var last := ts[|ts| - 1];
      if last.Key() in Keys(init) then init else init + [last]
  }

  function Translations(foreign: seq<string>, hosts: seq<Candidate>): seq<Translation> {
    Firsts(Pairs(foreign, hosts))
  }

  function Tokens(foundation: nat, t: Translation): (r: seq<string>)
    ensures |r| == 12
  {
    [PREFIX + Show(foundation), "1", t.host.transport, TRANSLATED_PRIORITY, t.address, Show(t.host.port),
     "typ", "srflx", "raddr", t.host.address, "rport", Show(t.host.port)]
  }

  function Written(ts: seq<Translation>): (r: seq<string>)
    ensures |r| == |ts|
  {
    seq(|ts|, i requires 0 <= i < |ts| => Spaced(Tokens(TRANSLATED_FOUNDATION + i, ts[i])))
  }

  // ---- writing ----

  /** Lines that survive: once an allowed address is held, host candidates elsewhere and unreadable ones go. */
  predicate Kept(held: set<string>, line: string) {
    IsCandidate(line) && held != {} ==>
      ParseLine(line).Ok? && (ParseLine(line).value.kind != Host || OnHeld(held, ParseLine(line).value))
  }

  function KeptWith(held: set<string>): string -> bool {
    (l: string) => Kept(held, l)
  }

  predicate AnyCandidate(lines: seq<string>) {
    exists i | 0 <= i < |lines| :: IsCandidate(lines[i])
  }

  /** The index of the first line after the first candidate that is not one, or the end. */
  function BlockEnd(lines: seq<string>): (k: nat)
    ensures k <= |lines|
  {
    if lines == [] then 0
    else
      var init := lines[..|lines| - 1];
      var k := BlockEnd(init);
      if k < |init| || (!IsCandidate(lines[|lines| - 1]) && AnyCandidate(init)) then k else |lines|
  }

  function Woven(lines: seq<string>, held: set<string>, translated: seq<string>): seq<string> {
    var k := BlockEnd(lines);
    Keep(lines[..k], KeptWith(held)) + translated + Keep(lines[k..], KeptWith(held))
  }

  function Join(lines: seq<string>): string {
    if lines == [] then "" else Join(lines[..|lines| - 1]) + lines[|lines| - 1] + CRLF
  }

  function Translated(cs: seq<Candidate>, allowed: seq<string>): seq<Translation> {
    Translations(Foreign(cs, allowed), Bases(cs, Held(cs, allowed)))
  }

  /** Nothing to do: no addresses to advertise, or none of them gathered or translatable. */
  predicate LeftAlone(sdp: string, allowed: seq<string>) {
    var cs := CandidatesOf(sdp);
    allowed == [] || (Held(cs, allowed) == {} && Translated(cs, allowed) == [])
  }

  function WithAdvertised(sdp: string, allowed: seq<string>): string {
    var cs := CandidatesOf(sdp);
    if LeftAlone(sdp, allowed) then sdp
    else Join(Woven(Lines(sdp), Held(cs, allowed), Written(Translated(cs, allowed))))
  }

  // ---- the loops ----

  lemma ParsedSnoc(lines: seq<string>, i: nat)
    requires i < |lines|
    ensures Parsed(lines[..i + 1]) == Parsed(lines[..i]) + if Parsable(lines[i]) then [ParseLine(lines[i]).value] else []
  {
    hide Parsable, ParseLine;
    assert lines[..i + 1][..i] == lines[..i];
  }

  lemma GatheredSnoc(cs: seq<Candidate>, c: Candidate)
    ensures Gathered(cs + [c]) == Gathered(cs) + {Endpoint.Normalized(c.address)}
  {
    hide Endpoint.Normalized;
    assert forall x :: x in cs + [c] <==> x in cs || x == c;
  }

  lemma NoneParsed(lines: seq<string>)
    ensures Parsed(lines[..0]) == []
  {
  }

  method Gather(sdp: string) returns (gathered: set<string>, hosts: seq<Candidate>)
    ensures gathered == Gathered(CandidatesOf(sdp))
    ensures hosts == Keep(CandidatesOf(sdp), IsUdpHost)
  {
    hide Pieces, ParseLine, Parsed, Keep, Endpoint.Normalized;
    gathered, hosts := {}, [];
    var lines := Pieces(sdp, LINE_BREAKS);
    NoneParsed(lines);
    KeepNothing(IsUdpHost);
    for i := 0 to |lines|
      invariant gathered == Gathered(Parsed(lines[..i]))
      invariant hosts == Keep(Parsed(lines[..i]), IsUdpHost)
    {
      ParsedSnoc(lines, i);
      ghost var before := Parsed(lines[..i]);
      assert before + [] == before;
      if Parsable(lines[i]) {
        var candidate := ParseLine(lines[i]).value;
        GatheredSnoc(before, candidate);
        gathered := gathered + {Endpoint.Normalized(candidate.address)};
        KeepSnoc(before, candidate, IsUdpHost);
        if candidate.UdpHost() {
          hosts := hosts + [candidate];
        }
      }
    }
    assert lines[..|lines|] == lines;
  }

  method Partition(gathered: set<string>, allowed: seq<string>) returns (held: set<string>, foreign: seq<string>)
    ensures held == set a | a in AllNormalized(allowed) && a in gathered
    ensures foreign == Keep(AllNormalized(allowed), Missing(gathered))
  {
    hide Endpoint.Normalized;
    held, foreign := {}, [];
    for i := 0 to |allowed|
      invariant held == set a | a in AllNormalized(allowed)[..i] && a in gathered
      invariant foreign == Keep(AllNormalized(allowed)[..i], Missing(gathered))
    {
      var address := Endpoint.Normalized(allowed[i]);
      assert AllNormalized(allowed)[..i + 1] == AllNormalized(allowed)[..i] + [address];
      KeepSnoc(AllNormalized(allowed)[..i], address, Missing(gathered));
      if address in gathered {
        held := held + {address};
      } else {
        foreign := foreign + [address];
      }
    }
    assert AllNormalized(allowed)[..|allowed|] == AllNormalized(allowed);
  }

  lemma PairsForSnoc(address: string, hosts: seq<Candidate>, j: nat)
    requires j < |hosts|
    ensures PairsFor(address, hosts[..j + 1])
         == PairsFor(address, hosts[..j]) + if SameFamily(address, hosts[j]) then [Translation(hosts[j], address)] else []
  {
    assert hosts[..j + 1][..j] == hosts[..j];
  }

  lemma PairsSnoc(foreign: seq<string>, i: nat, hosts: seq<Candidate>)
    requires i < |foreign|
    ensures Pairs(foreign[..i + 1], hosts) == Pairs(foreign[..i], hosts) + PairsFor(foreign[i], hosts)
  {
    assert foreign[..i + 1][..i] == foreign[..i];
  }

  lemma {:induction false} NoPairs(address: string, hosts: seq<Candidate>)
    requires Endpoint.Parse(address).None?
    ensures PairsFor(address, hosts) == []
  {
    if hosts != [] {
      NoPairs(address, hosts[..|hosts| - 1]);
    }
  }

  lemma KeysSnoc(ts: seq<Translation>, t: Translation)
    ensures Keys(ts + [t]) == Keys(ts) + {t.Key()}
  {
    assert forall x :: x in ts + [t] <==> x in ts || x == t;
  }

  lemma WrittenSnoc(ts: seq<Translation>, t: Translation)
    ensures Written(ts + [t]) == Written(ts) + [Spaced(Tokens(TRANSLATED_FOUNDATION + |ts|, t))]
  {
    hide Tokens, Spaced;
  }

  /** One more pair: it is written with the next foundation unless its address and port are taken. */
  lemma FirstsSnoc(pairs: seq<Translation>, t: Translation)
    ensures var ts := Firsts(pairs);
            if t.Key() in Keys(ts) then Firsts(pairs + [t]) == ts
            else
              && Firsts(pairs + [t]) == ts + [t]
              && Keys(ts + [t]) == Keys(ts) + {t.Key()}
              && Written(ts + [t]) == Written(ts) + [Spaced(Tokens(TRANSLATED_FOUNDATION + |ts|, t))]
  {
    hide Tokens, Spaced, Written, Keys;
    assert (pairs + [t])[..|pairs|] == pairs;
    KeysSnoc(Firsts(pairs), t);
    WrittenSnoc(Firsts(pairs), t);
  }

  lemma NothingYet()
    ensures Firsts([]) == [] && Keys([]) == {} && Written([]) == []
  {
  }

  lemma NoHostsYet(address: string, hosts: seq<Candidate>)
    ensures PairsFor(address, hosts[..0]) == []
  {
  }

  method TranslatedCandidates(hosts: seq<Candidate>, foreign: seq<string>) returns (candidates: seq<string>)
    ensures candidates == Written(Translations(foreign, hosts))
  {
    hide Tokens, Spaced, Firsts, PairsFor, Endpoint.Parse, SameFamily, Written, Keys;
    candidates := [];
    var emitted: set<(string, u16)> := {};
    var foundation := TRANSLATED_FOUNDATION;
    ghost var ts: seq<Translation> := [];
    NothingYet();
    assert Pairs(foreign[..0], hosts) == [];
    for i := 0 to |foreign|
      invariant ts == Firsts(Pairs(foreign[..i], hosts))
      invariant candidates == Written(ts) && emitted == Keys(ts) && foundation == TRANSLATED_FOUNDATION + |ts|
    {
      var address := foreign[i];
      ghost var before := Pairs(foreign[..i], hosts);
      PairsSnoc(foreign, i, hosts);
      if Endpoint.Parse(address).None? {
        NoPairs(address, hosts);
        assert before + [] == before;
        continue;
      }
      NoHostsYet(address, hosts);
      assert before + [] == before;
      for j := 0 to |hosts|
        invariant ts == Firsts(before + PairsFor(address, hosts[..j]))
        invariant candidates == Written(ts) && emitted == Keys(ts) && foundation == TRANSLATED_FOUNDATION + |ts|
      {
        var t := Translation(hosts[j], address);
        ghost var pairs := before + PairsFor(address, hosts[..j]);
        PairsForSnoc(address, hosts, j);
        if !SameFamily(address, hosts[j]) {
          assert before + PairsFor(address, hosts[..j + 1]) == pairs;
          continue;
        }
        assert before + PairsFor(address, hosts[..j + 1]) == pairs + [t];
        FirstsSnoc(pairs, t);
        if t.Key() in emitted {
          continue;
        }
        candidates := candidates + [Spaced(Tokens(foundation, t))];
        ts, emitted, foundation := ts + [t], emitted + {t.Key()}, foundation + 1;
      }
      assert hosts[..|hosts|] == hosts;
    }
    assert foreign[..|foreign|] == foreign;
  }

  lemma BlockEndSnoc(lines: seq<string>, i: nat)
    requires i < |lines|
    ensures var k := BlockEnd(lines[..i]);
            BlockEnd(lines[..i + 1]) == if k < i || (!IsCandidate(lines[i]) && AnyCandidate(lines[..i])) then k else i + 1
  {
    hide IsCandidate, AnyCandidate;
    assert lines[..i + 1][..i] == lines[..i];
  }

  /** What one more line adds to the rewritten description. */
  lemma WovenSnoc(lines: seq<string>, i: nat, held: set<string>, translated: seq<string>)
    requires i < |lines|
    ensures var (before, after, line) := (lines[..i], lines[..i + 1], lines[i]);
            var added := if Kept(held, line) then [line] else [];
            if BlockEnd(before) < i then
              BlockEnd(after) == BlockEnd(before) && Woven(after, held, translated) == Woven(before, held, translated) + added
            else if AnyCandidate(before) && !IsCandidate(line) then
              BlockEnd(after) == i
              && Woven(after, held, translated) == Keep(before, KeptWith(held)) + translated + added
            else
              BlockEnd(after) == i + 1 && Keep(after, KeptWith(held)) == Keep(before, KeptWith(held)) + added
  {
    hide Kept, IsCandidate, AnyCandidate, Keep, BlockEnd;
    var (before, after, line) := (lines[..i], lines[..i + 1], lines[i]);
    var k := BlockEnd(before);
    BlockEndSnoc(lines, i);
    KeepNothing(KeptWith(held));
    assert before[..i] == before && before[i..] == [];
    assert after == before + [line] && after[..i] == before;
    KeepSnoc(before, line, KeptWith(held));
    KeepSnoc(before[k..], line, KeptWith(held));
    assert after[k..] == before[k..] + [line] && after[..k] == before[..k];
  }

  lemma AnySnoc(lines: seq<string>, i: nat)
    requires i < |lines|
    ensures AnyCandidate(lines[..i + 1]) == (AnyCandidate(lines[..i]) || IsCandidate(lines[i]))
  {
    hide IsCandidate;
    assert lines[..i + 1][i] == lines[i];
    assert forall j | 0 <= j < i :: lines[..i + 1][j] == lines[..i][j];
  }

  method JoinMore(out: string, ghost written: seq<string>, more: seq<string>) returns (r: string)
    requires out == Join(written)
    ensures r == Join(written + more)
  {
    r := out;
    assert written + more[..0] == written;
    for i := 0 to |more|
      invariant r == Join(written + more[..i])
    {
      r := r + more[i] + CRLF;
      assert (written + more[..i + 1])[..|written| + i] == written + more[..i];
    }
    assert more[..|more|] == more;
  }

  lemma NoLinesYet(lines: seq<string>, held: set<string>)
    ensures !AnyCandidate(lines[..0]) && BlockEnd(lines[..0]) == 0 && Keep(lines[..0], KeptWith(held)) == []
  {
  }

  lemma OthersAreKept(held: set<string>, line: string)
    requires !IsCandidate(line)
    ensures Kept(held, line)
  {
  }

  lemma WovenAt(lines: seq<string>, held: set<string>, translated: seq<string>)
    ensures var k := BlockEnd(lines);
            Woven(lines, held, translated) == Keep(lines[..k], KeptWith(held)) + translated + Keep(lines[k..], KeptWith(held))
  {
    hide BlockEnd, Keep, KeptWith;
  }

  lemma Unended(lines: seq<string>, held: set<string>, translated: seq<string>)
    ensures BlockEnd(lines) == |lines| ==> Woven(lines, held, translated) == Keep(lines, KeptWith(held)) + translated
  {
    hide *;
    WovenAt(lines, held, translated);
    KeepNothing(KeptWith(held));
    if BlockEnd(lines) == |lines| {
      assert lines[..|lines|] == lines;
      assert lines[|lines|..] == [];
    }
  }

  /** One pass over the lines; the translated candidates go out before the line that ends the candidate block. */
  method Weave(lines: seq<string>, held: set<string>, translated: seq<string>) returns (out: string)
    ensures out == Join(Woven(lines, held, translated))
  {
    hide ParseLine, Endpoint.Normalized, Woven, BlockEnd, AnyCandidate, IsCandidate, Keep, Kept;
    out := "";
    var seen, remaining := false, translated;
    ghost var written: seq<string> := [];
    NoLinesYet(lines, held);
    for i := 0 to |lines|
      invariant seen == AnyCandidate(lines[..i])
      invariant out == Join(written)
      invariant BlockEnd(lines[..i]) == i ==> remaining == translated && written == Keep(lines[..i], KeptWith(held))
      invariant BlockEnd(lines[..i]) < i ==> remaining == [] && written == Woven(lines[..i], held, translated)
    {
      var line := lines[i];
      WovenSnoc(lines, i, held, translated);
      AnySnoc(lines, i);
      if IsCandidate(line) {
        seen := true;
        if !Kept(held, line) {
          continue;
        }
      } else {
        OthersAreKept(held, line);
        if seen && remaining != [] {
          out := JoinMore(out, written, remaining);
          written, remaining := written + remaining, [];
        }
      }
      out := JoinMore(out, written, [line]);
      written := written + [line];
    }
    out := JoinMore(out, written, remaining);
    assert written + [] == written;
    assert lines[..|lines|] == lines;
    Unended(lines, held, translated);
  }

  method WithAdvertisedCandidates(sdp: string, allowed: seq<string>) returns (out: string)
    ensures out == WithAdvertised(sdp, allowed)
  {
    hide Endpoint.Normalized, Woven, Sort, Keep, Parsed, Pieces, Written, Translations, Join;
    if allowed == [] {
      return sdp;
    }
    var gathered, hosts := Gather(sdp);
    var held, foreign := Partition(gathered, allowed);
    var translated := TranslatedCandidates(HeldFirst(hosts, held), Sort(foreign));
    if held == {} && translated == [] {
      return sdp;
    }
    out := Weave(Lines(sdp), held, translated);
  }
}
