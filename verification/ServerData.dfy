/** The server record advertised over discovery (`discovery/server_data.rs`). */
module ServerRecord {
  import opened Std
  import opened Codec
  import Utf8

  datatype ServerData = ServerData(
    serverName: string,
    levelName: string,
    gameType: u8,
    playerCount: i32,
    maxPlayerCount: i32,
    editorWorld: bool,
    hardcore: bool,
    flagA: bool,
    flagB: bool,
    sessionId: string,
    transportLayer: u8,
    connectionType: u8,
    protocolVersion: u32,
    gameVersion: string)

  /** `as i32` and `as u32`. */
  function Signed(v: u32): i32 {
    if v < 0x8000_0000 then v else v - 0x1_0000_0000
  }

  function Unsigned(v: i32): u32 {
    if v >= 0 then v else v + 0x1_0000_0000
  }

  function Flag(b: bool): seq<u8> {
    [if b then 1 else 0]
  }

  function Text(s: string): seq<u8> {
    BytesVaruint(Utf8.Encode(s))
  }

  /** Everything after the name fields; split from `Serialize` to keep the proofs local. */
  function SerializeTail(d: ServerData): seq<u8> {
    Flag(d.editorWorld) + (Flag(d.hardcore) + (Flag(d.flagA) + (Flag(d.flagB) +
    (Text(d.sessionId) + Varint(d.connectionType)))))
  }

  function SerializeCounts(d: ServerData): seq<u8> {
    Varint(d.playerCount) + (Varint(d.maxPlayerCount) + (Varint(d.gameType) + SerializeTail(d)))
  }

  /** Always writes a version 7 record; `transportLayer` is not on the wire. */
  function Serialize(d: ServerData): seq<u8> {
    [7] + (Text(d.serverName) + (Varint(Signed(d.protocolVersion)) +
    (Text(d.gameVersion) + (Text(d.levelName) + SerializeCounts(d)))))
  }

  function SizeHint(d: ServerData): nat {
    1 + 5 + |Utf8.Encode(d.serverName)| + 5 + 5 + |Utf8.Encode(d.gameVersion)| + 5 + |Utf8.Encode(d.levelName)|
    + 5 + 5 + 5 + 4 + 5 + |Utf8.Encode(d.sessionId)| + 5
  }

  // ---- reading ----

  function ReadByte(s: seq<u8>): Option<(u8, seq<u8>)> {
    if s == [] then None else Some((s[0], s[1..]))
  }

  function ReadFlag(s: seq<u8>): Option<(bool, seq<u8>)> {
    var (b, rest) :- ReadByte(s);
    Some((b != 0, rest))
  }

  /** A fixed-width i32. */
  function ReadI32(s: seq<u8>): Option<(i32, seq<u8>)> {
    var (n, rest) :- ReadLe(s, 4);
    FromLeBound(s[..4]);
    Widths();
    Some((Signed(n), rest))
  }

  /** A string behind a one-byte length (versions 4 and 6) or a varint length (versions 5 and 7). */
  function ReadText(s: seq<u8>, short: bool): Option<(string, seq<u8>)> {
    var (bytes, rest) :- if short then ReadBytesU8(s) else ReadBytesVaruint(s);
    var text :- Utf8.Decode(bytes);
    Some((text, rest))
  }

  /** A small enumeration: a varint that must fit a byte, or half a byte value. */
  function ReadSmall(s: seq<u8>, halved: bool): Option<(u8, seq<u8>)> {
    if halved then
      var (b, rest) :- ReadByte(s);
      Some((b / 2, rest))
    else
      var (v, rest) :- ReadVarint(s);
      if 0 <= v < 256 then Some((v, rest)) else None
  }

  datatype Counts = Counts(players: i32, maxPlayers: i32, gameType: u8)

  function ReadCounts(s: seq<u8>, version: u8): Option<(Counts, seq<u8>)> {
    if version == 7 then
      var (players, s1) :- ReadVarint(s);
      var (maxPlayers, s2) :- ReadVarint(s1);
      var (gameType, s3) :- ReadSmall(s2, false);
      Some((Counts(players, maxPlayers, gameType), s3))
    else
      var (gameType, s1) :- ReadSmall(s, version != 5);
      var (players, s2) :- ReadI32(s1);
      var (maxPlayers, s3) :- ReadI32(s2);
      Some((Counts(players, maxPlayers, gameType), s3))
  }

  datatype Ending = Ending(
    editorWorld: bool, hardcore: bool, flagA: bool, flagB: bool,
    sessionId: string, transportLayer: u8, connectionType: u8)

  function ReadFlags(s: seq<u8>, version: u8): Option<((bool, bool), seq<u8>)> {
    if version == 4 then Some(((true, true), s))
    else
      var (a, s1) :- ReadFlag(s);
      var (b, s2) :- ReadFlag(s1);
      Some(((a, b), s2))
  }

  function ReadSession(s: seq<u8>, version: u8): Option<(string, seq<u8>)> {
    if version == 4 || version == 5 then Some(("", s)) else ReadText(s, version == 6)
  }

  function ReadTransport(s: seq<u8>, version: u8): Option<(u8, seq<u8>)> {
    if version == 7 then Some((2, s)) else ReadSmall(s, version != 5)
  }

  function ReadEnding(s: seq<u8>, version: u8): Option<(Ending, seq<u8>)> {
    var (editorWorld, s1) :- ReadFlag(s);
    var (hardcore, s2) :- ReadFlag(s1);
    var (flags, s3) :- ReadFlags(s2, version);
    var (sessionId, s4) :- ReadSession(s3, version);
    var (transportLayer, s5) :- ReadTransport(s4, version);
    var (connectionType, s6) :- ReadSmall(s5, version == 4 || version == 6);
    Some((Ending(editorWorld, hardcore, flags.0, flags.1, sessionId, transportLayer, connectionType), s6))
  }

  function ReadProtocol(s: seq<u8>, version: u8): Option<((u32, string), seq<u8>)> {
    if version == 7 then
      var (protocol, s1) :- ReadVarint(s);
      var (gameVersion, s2) :- ReadText(s1, false);
      Some(((Unsigned(protocol), gameVersion), s2))
    else Some(((0, ""), s))
  }

  function Deserialize(s: seq<u8>): Option<(ServerData, seq<u8>)> {
    var (version, s0) :- ReadByte(s);
    if !(4 <= version <= 7) then None
    else
      var short := version == 4 || version == 6;
      var (serverName, s1) :- ReadText(s0, short);
      var (protocol, s2) :- ReadProtocol(s1, version);
      var (levelName, s3) :- ReadText(s2, short);
      var (counts, s4) :- ReadCounts(s3, version);
      var (ending, s5) :- ReadEnding(s4, version);
      Some((ServerData(serverName, levelName, counts.gameType, counts.players, counts.maxPlayers,
                       ending.editorWorld, ending.hardcore, ending.flagA, ending.flagB, ending.sessionId,
                       ending.transportLayer, ending.connectionType, protocol.0, protocol.1), s5))
  }

  /** Trailing bytes are refused. */
  function Decode(s: seq<u8>): Option<ServerData> {
    var (d, rest) :- Deserialize(s);
    if rest == [] then Some(d) else None
  }

  // ---- round trip ----

  predicate Fits(d: ServerData) {
    && |Utf8.Encode(d.serverName)| <= MAX_BYTES
    && |Utf8.Encode(d.gameVersion)| <= MAX_BYTES
    && |Utf8.Encode(d.levelName)| <= MAX_BYTES
    && |Utf8.Encode(d.sessionId)| <= MAX_BYTES
  }

  lemma ReadWrittenText(s: string, tail: seq<u8>)
    requires |Utf8.Encode(s)| <= MAX_BYTES
    ensures ReadText(Text(s) + tail, false) == Some((s, tail))
  {
    ReadWrittenBytesVaruint(Utf8.Encode(s), tail);
    Utf8.RoundTrip(s);
  }

  lemma ReadWrittenFlag(b: bool, tail: seq<u8>)
    ensures ReadFlag(Flag(b) + tail) == Some((b, tail))
  {
    assert (Flag(b) + tail)[1..] == tail;
  }

  lemma Nested(a: seq<u8>, b: seq<u8>, c: seq<u8>, d: seq<u8>, e: seq<u8>, tail: seq<u8>)
    ensures a + (b + (c + (d + e))) + tail == a + (b + (c + (d + (e + tail))))
  {
    assert d + e + tail == d + (e + tail);
    assert c + (d + e) + tail == c + (d + e + tail);
    assert b + (c + (d + e)) + tail == b + (c + (d + e) + tail);
  }

  lemma TailGroups(d: ServerData, tail: seq<u8>)
    ensures SerializeTail(d) + tail ==
              Flag(d.editorWorld) + (Flag(d.hardcore) + (Flag(d.flagA) + (Flag(d.flagB) +
              (Text(d.sessionId) + (Varint(d.connectionType) + tail)))))
  {
    hide Flag, Text, Varint;
    Nested(Flag(d.editorWorld), Flag(d.hardcore), Flag(d.flagA), Flag(d.flagB),
           Text(d.sessionId) + Varint(d.connectionType), tail);
    assert Text(d.sessionId) + Varint(d.connectionType) + tail == Text(d.sessionId) + (Varint(d.connectionType) + tail);
  }

  lemma ReadWrittenEnding(d: ServerData, tail: seq<u8>)
    requires Fits(d)
    ensures ReadEnding(SerializeTail(d) + tail, 7) ==
            Some((Ending(d.editorWorld, d.hardcore, d.flagA, d.flagB, d.sessionId, 2, d.connectionType), tail))
  {
    hide Flag, Text, Varint, SerializeTail, ReadFlag, ReadText, ReadVarint, Fits;
    var t5 := Varint(d.connectionType) + tail;
    var t4 := Text(d.sessionId) + t5;
    var t3 := Flag(d.flagB) + t4;
    var t2 := Flag(d.flagA) + t3;
    TailGroups(d, tail);
    ReadWrittenFlag(d.editorWorld, Flag(d.hardcore) + t2);
    ReadWrittenFlag(d.hardcore, t2);
    ReadWrittenFlag(d.flagA, t3);
    ReadWrittenFlag(d.flagB, t4);
    FitsSession(d);
    ReadWrittenText(d.sessionId, t5);
    ReadWrittenVarint(d.connectionType, tail);
  }

  lemma FitsSession(d: ServerData)
    requires Fits(d)
    ensures |Utf8.Encode(d.sessionId)| <= MAX_BYTES
  {
  }

  lemma CountsGroup(d: ServerData, tail: seq<u8>)
    ensures SerializeCounts(d) + tail ==
              Varint(d.playerCount) + (Varint(d.maxPlayerCount) + (Varint(d.gameType) + (SerializeTail(d) + tail)))
  {
    hide Varint, SerializeTail;
    var (x, y, z) := (Varint(d.playerCount), Varint(d.maxPlayerCount), Varint(d.gameType));
    Nested([], x, y, z, SerializeTail(d), tail);
    assert [] + SerializeCounts(d) == SerializeCounts(d);
    assert [] + (x + (y + (z + (SerializeTail(d) + tail)))) == x + (y + (z + (SerializeTail(d) + tail)));
  }

  lemma ReadWrittenCounts(d: ServerData, tail: seq<u8>)
    ensures ReadCounts(SerializeCounts(d) + tail, 7) ==
            Some((Counts(d.playerCount, d.maxPlayerCount, d.gameType), SerializeTail(d) + tail))
  {
    hide Varint, SerializeTail, SerializeCounts, ReadVarint;
    var t3 := SerializeTail(d) + tail;
    var t2 := Varint(d.gameType) + t3;
    var t1 := Varint(d.maxPlayerCount) + t2;
    CountsGroup(d, tail);
    ReadWrittenVarint(d.playerCount, t1);
    ReadWrittenVarint(d.maxPlayerCount, t2);
    ReadWrittenVarint(d.gameType, t3);
  }

  lemma ReadWrittenProtocol(d: ServerData, tail: seq<u8>)
    requires Fits(d)
    ensures ReadProtocol(Varint(Signed(d.protocolVersion)) + (Text(d.gameVersion) + tail), 7) ==
            Some(((d.protocolVersion, d.gameVersion), tail))
  {
    ReadWrittenVarint(Signed(d.protocolVersion), Text(d.gameVersion) + tail);
    ReadWrittenText(d.gameVersion, tail);
  }

  lemma ReadsBefore(d: ServerData, tail: seq<u8>)
    requires Fits(d)
    ensures Deserialize(Serialize(d) + tail) == Some((d.(transportLayer := 2), tail))
  {
    hide Text, Varint, SerializeCounts, ReadCounts, ReadEnding, ReadProtocol;
    var t4 := SerializeCounts(d) + tail;
    var t3 := Text(d.levelName) + t4;
    var t2 := Varint(Signed(d.protocolVersion)) + (Text(d.gameVersion) + t3);
    var t1 := Text(d.serverName) + t2;
    Nested(Text(d.serverName), Varint(Signed(d.protocolVersion)), Text(d.gameVersion), Text(d.levelName),
           SerializeCounts(d), tail);
    assert Serialize(d) + tail == [7] + t1;
    assert ([7] + t1)[1..] == t1;
    ReadWrittenText(d.serverName, t2);
    ReadWrittenProtocol(d, t3);
    ReadWrittenText(d.levelName, t4);
    ReadWrittenCounts(d, tail);
    ReadWrittenEnding(d, tail);
  }

  /** Only `transportLayer` is lost: it always reads back as 2. */
  lemma RoundTrip(d: ServerData)
    requires Fits(d)
    ensures Decode(Serialize(d)) == Some(d.(transportLayer := 2))
  {
    hide Serialize, Deserialize;
    ReadsBefore(d, []);
    assert Serialize(d) + [] == Serialize(d);
  }

  /** A record with anything after it is no record, and neither is one of a version outside 4 to 7. */
  lemma NothingFollows(d: ServerData, tail: seq<u8>)
    requires Fits(d) && tail != []
    ensures Decode(Serialize(d) + tail) == None
  {
    hide Serialize, Deserialize;
    ReadsBefore(d, tail);
  }

  lemma VersionsRead(s: seq<u8>)
    ensures Decode(s).Some? ==> s != [] && 4 <= s[0] <= 7
  {
    hide ReadText, ReadProtocol, ReadCounts, ReadEnding;
  }

  lemma SerializedCountsSize(d: ServerData)
    ensures |Utf8.Encode(d.sessionId)| <= |SerializeCounts(d)| <= 29 + |Utf8.Encode(d.sessionId)|
  {
    BytesVaruintLength(Utf8.Encode(d.sessionId));
    ReadWrittenVarint(d.playerCount, []);
    ReadWrittenVarint(d.maxPlayerCount, []);
    ReadWrittenVarint(d.gameType, []);
    ReadWrittenVarint(d.connectionType, []);
  }

  /** `size_hint` bounds the record, and the record is longer than each of its strings. */
  lemma SerializedSize(d: ServerData)
    ensures |Serialize(d)| <= SizeHint(d)
    ensures |Serialize(d)| <= MAX_BYTES ==> Fits(d)
  {
    BytesVaruintLength(Utf8.Encode(d.serverName));
    BytesVaruintLength(Utf8.Encode(d.gameVersion));
    BytesVaruintLength(Utf8.Encode(d.levelName));
    ReadWrittenVarint(Signed(d.protocolVersion), []);
    SerializedCountsSize(d);
  }
}
