/** The HTTP signaler as a transition system over values (`signaling/http/mod.rs`).

    Beside the fields of the source the state keeps what a run has done so far: every output ever queued
    (`emitted`), the connection of every request (`asked`) and of every join lost with its connection (`lost`), and
    the ids of joins by what became of them. None of these is read by a step. */
module Http {
  import opened Std
  import opened Codec
  import opened Net
  import opened Text
  import Candidates
  import Endpoint
  import I = Identity
  import Utf8

  datatype Config = Config(
    maxConnectionsPerAddress: nat,
    maxPendingJoins: nat,
    answerTimeout: nat,
    trustedProxies: set<Ip>,
    advertisedAddresses: seq<string>,
    serveMotd: bool)

  datatype Verb = Get | Post | OtherVerb

  /** Header values are absent or readable text. */
  datatype Request = Request(
    verb: Verb,
    path: string,
    http10: bool,
    connection: Option<string>,
    forwardedFor: Option<string>,
    host: Option<string>,
    body: string)

  datatype Response = Response(status: nat, contentType: Option<string>, contentLength: nat, body: string)

  /** How offers are authenticated. */
  datatype Trust = Any | Minecraft

  /** What a request meets outside: the system time, and what Minecraft trust would make of its body. */
  datatype Outside = Outside(time: int, minecraft: Option<I.Claims>)

  datatype Player = Player(claims: I.Claims, networkId: string, clientAddress: Option<SocketAddr>)

  datatype Offer = Offer(
    connectionId: u64,
    networkId: string,
    sdp: string,
    clientAddress: Option<SocketAddr>,
    host: Option<string>,
    player: Option<Player>)

  datatype Reason = Rejected | Timeout | Unavailable

  /** A request comes with the random id its join would get, an update with the order in which the table of joins
      iterates. */
  datatype Input =
    | Connected(connection: u64, addr: SocketAddr)
    | Ask(connection: u64, request: Request, now: int, joinId: u64, outside: Outside)
    | Answer(id: u64, sdp: string)
    | Reject(id: u64, reason: Reason)
    | SetServerData(json: string)
    | SetTokenTrust(trust: Option<Trust>)
    | Closed(connection: u64)
    | Update(now: int, order: seq<u64>)

  datatype Output =
    | Respond(connection: u64, response: Response, keepAlive: bool)
    | Close(connection: u64)
    | Offered(offer: Offer)
    | Wait(duration: nat)

  datatype Error = UnknownConnection(id: u64)

  datatype Connection = Connection(addr: SocketAddr, counted: bool) {
    function Peer(): Ip {
      Normalize(addr.ip)
    }
  }

  datatype Pending = Pending(connection: u64, keepAlive: bool, deadline: int)

  datatype State = State(
    config: Config,
    connections: map<u64, Connection>,
    perAddress: map<Ip, nat>,
    pending: map<u64, Pending>,
    serverData: Option<string>,
    trust: Option<Trust>,
    emitted: seq<Output>,
    asked: multiset<u64>,
    lost: multiset<u64>,
    begun: multiset<u64>,
    answered: multiset<u64>,
    rejected: multiset<u64>,
    timedOut: multiset<u64>,
    dropped: multiset<u64>)

  function New(config: Config, trust: Option<Trust>): State {
    State(config, map[], map[], map[], None, trust, [], multiset{}, multiset{}, multiset{}, multiset{},
          multiset{}, multiset{}, multiset{})
  }

  function Emit(s: State, o: Output): State {
    s.(emitted := s.emitted + [o])
  }

  // ---- connections ----

  function HeldBy(s: State, peer: Ip): nat {
    if peer in s.perAddress then s.perAddress[peer] else 0
  }

  predicate Trusted(s: State, addr: SocketAddr) {
    Normalize(addr.ip) in s.config.trustedProxies
  }

  /** The address is at its limit. A refused newcomer still leaves an entry for its address. */
  predicate Full(s: State, peer: Ip) {
    HeldBy(s, peer) + 1 > s.config.maxConnectionsPerAddress
  }

  function Connect(s: State, connection: u64, addr: SocketAddr): State {
    var peer := Normalize(addr.ip);
    if Trusted(s, addr) then
      s.(connections := s.connections[connection := Connection(addr, false)])
    else if Full(s, peer) then
      Emit(s.(perAddress := s.perAddress[peer := HeldBy(s, peer)]), Close(connection))
    else
      s.(perAddress := s.perAddress[peer := HeldBy(s, peer) + 1],
         connections := s.connections[connection := Connection(addr, true)])
  }

  function Without<K, V>(m: map<K, V>, k: K): map<K, V> {
    map x | x in m && x != k :: m[x]
  }

  function Release(perAddress: map<Ip, nat>, peer: Ip): map<Ip, nat> {
    if peer !in perAddress then perAddress
    else if perAddress[peer] <= 1 then Without(perAddress, peer)
    else perAddress[peer := perAddress[peer] - 1]
  }

  /** The joins waiting on a connection. */
  function WaitingOn(pending: map<u64, Pending>, connection: u64): set<u64> {
    set id | id in pending && pending[id].connection == connection
  }

  function WaitingElsewhere(pending: map<u64, Pending>, connection: u64): map<u64, Pending> {
    map id | id in pending && pending[id].connection != connection :: pending[id]
  }

  function Disconnect(s: State, connection: u64): State {
    if connection !in s.connections then s
    else
      var entry := s.connections[connection];
      var gone := WaitingOn(s.pending, connection);
      s.(connections := Without(s.connections, connection),
         perAddress := if entry.counted then Release(s.perAddress, entry.Peer()) else s.perAddress,
         pending := WaitingElsewhere(s.pending, connection),
         lost := s.lost[connection := s.lost[connection] + |gone|],
         dropped := s.dropped + multiset(gone))
  }

  // ---- requests ----

  function KeepAlive(request: Request): bool {
    var header := if request.connection.Some? then request.connection.value else "";
    if request.http10 then EqIgnoreCase(header, "keep-alive") else !EqIgnoreCase(header, "close")
  }

  const JOIN_PATH := "/v1/join"
  const JOIN_PREFIX := "/v1/join/"

  /** The network a join path names: one non-empty segment after the prefix. */
  function NetworkOf(path: string): Option<string> {
    if !(JOIN_PREFIX <= path) then None
    else
      var id := path[|JOIN_PREFIX|..];
      if id == "" || '/' in id then None else Some(id)
  }

  /** The first entry of the header, without blanks and square brackets. */
  function FirstForwarded(header: string): string {
    var first := Trim(Pieces(header, {','})[0]);
    var inner := if first != "" && first[0] == '[' then first[1..] else first;
    if inner != "" && inner[|inner| - 1] == ']' then inner[..|inner| - 1] else inner
  }

  /** The peer itself, unless it is a trusted proxy, which speaks for its client. */
  function ClientAddress(s: State, connection: u64, request: Request): Option<SocketAddr> {
    if connection !in s.connections then None
    else
      var remote := s.connections[connection].addr;
      if !Trusted(s, remote) then Some(remote)
      else
        var header :- request.forwardedFor;
        var ip :- Endpoint.Parse(FirstForwarded(header));
        Some(NewAddr(ip, remote.port))
  }

  function Bare(status: nat): Response {
    Response(status, None, 0, "")
  }

  function Body(body: string, contentType: string): Response {
    Response(200, Some(contentType), |Utf8.Encode(body)|, body)
  }

  /** The claims of the player, if a trust is set; an error refuses the offer. */
  function Authenticate(trust: Option<Trust>, sdp: string, outside: Outside): Result<Option<I.Claims>, ()> {
    match trust
    case None => Ok(None)
    case Some(Any) => if I.ValidateSdp(sdp, outside.time).Ok? then Ok(Some(I.ValidateSdp(sdp, outside.time).value)) else Err(())
    case Some(Minecraft) => if outside.minecraft.Some? then Ok(outside.minecraft) else Err(())
  }

  datatype Verdict = Now(response: Response) | Later(networkId: string, player: Option<Player>)

  /** What becomes of a request: an immediate response, or a join to be answered later. */
  function Judge(s: State, connection: u64, request: Request, outside: Outside): Verdict {
    if request.path == JOIN_PATH then
      if request.verb != Get then Now(Bare(405))
      else if s.serverData.None? || !s.config.serveMotd then Now(Bare(404))
      else Now(Body(s.serverData.value, "application/json"))
    else match NetworkOf(request.path)
      case None => Now(Bare(404))
      case Some(networkId) =>
        if request.verb != Post then Now(Bare(405))
        else if |s.pending| >= s.config.maxPendingJoins then Now(Bare(503))
        else match Authenticate(s.trust, request.body, outside)
          case Err(_) => Now(Bare(401))
          case Ok(None) => Later(networkId, None)
          case Ok(Some(claims)) =>
            Later(networkId, Some(Player(claims, networkId, ClientAddress(s, connection, request))))
  }

  function Open(s: State, connection: u64, request: Request, now: int, joinId: u64, networkId: string,
                player: Option<Player>): State
  {
    var offer := Offer(joinId, networkId, request.body, ClientAddress(s, connection, request), request.host, player);
    Emit(s.(pending := s.pending[joinId := Pending(connection, KeepAlive(request), now + s.config.answerTimeout)],
            begun := s.begun + multiset{joinId}),
         Offered(offer))
  }

  function HandleAsk(s: State, connection: u64, request: Request, now: int, joinId: u64, outside: Outside): State {
    var s1 := s.(asked := s.asked + multiset{connection});
    match Judge(s, connection, request, outside)
    case Now(response) => Emit(s1, Respond(connection, response, KeepAlive(request)))
    case Later(networkId, player) => Open(s1, connection, request, now, joinId, networkId, player)
  }

  // ---- resolving joins ----

  function StatusOf(reason: Reason): nat {
    match reason case Rejected => 403 case Timeout => 504 case Unavailable => 503
  }

  /** Takes the join out and responds on the connection it came from. */
  function Resolve(s: State, id: u64, response: Response): State
    requires id in s.pending
  {
    var p := s.pending[id];
    Emit(s.(pending := Without(s.pending, id)), Respond(p.connection, response, p.keepAlive))
  }

  function HandleAnswer(s: State, id: u64, sdp: string): (State, Option<Error>) {
    if id !in s.pending then (s, Some(UnknownConnection(id)))
    else
      var body := Candidates.WithAdvertised(sdp, s.config.advertisedAddresses);
      (Resolve(s, id, Body(body, "application/sdp")).(answered := s.answered + multiset{id}), None)
  }

  function HandleReject(s: State, id: u64, reason: Reason): (State, Option<Error>) {
    if id !in s.pending then (s, Some(UnknownConnection(id)))
    else (Resolve(s, id, Bare(StatusOf(reason))).(rejected := s.rejected + multiset{id}), None)
  }

  function TimeOutOne(s: State, id: u64): State {
    if id !in s.pending then s
    else Resolve(s, id, Bare(StatusOf(Timeout))).(timedOut := s.timedOut + multiset{id})
  }

  function TimeOutAll(s: State, ids: seq<u64>): State {
    if ids == [] then s else TimeOutOne(TimeOutAll(s, ids[..|ids| - 1]), ids[|ids| - 1])
  }

  function Overdue(pending: map<u64, Pending>, order: seq<u64>, now: int): seq<u64> {
    Keep(order, (id: u64) => id in pending && pending[id].deadline <= now)
  }

  function Soonest(pending: map<u64, Pending>, ids: seq<u64>, now: int): Option<nat> {
    if ids == [] then None
    else
      var init := Soonest(pending, ids[..|ids| - 1], now);
      var last := ids[|ids| - 1];
      if last !in pending then init
      else
        var wait := Since(pending[last].deadline, now);
        Some(if init.None? then wait else Min(init.value, wait))
  }

  function NextWait(s: State, order: seq<u64>, now: int): nat {
    match Soonest(s.pending, order, now) case None => s.config.answerTimeout case Some(wait) => wait
  }

  function HandleUpdate(s: State, now: int, order: seq<u64>): State {
    var s1 := TimeOutAll(s, Overdue(s.pending, order, now));
    Emit(s1, Wait(NextWait(s1, order, now)))
  }

  // ---- runs ----

  function Handle(s: State, input: Input): (State, Option<Error>) {
    match input
    case Connected(connection, addr) => (Connect(s, connection, addr), None)
    case Ask(connection, request, now, joinId, outside) =>
      (HandleAsk(s, connection, request, now, joinId, outside), None)
    case Answer(id, sdp) => HandleAnswer(s, id, sdp)
    case Reject(id, reason) => HandleReject(s, id, reason)
    case SetServerData(json) => (s.(serverData := Some(json)), None)
    case SetTokenTrust(trust) => (s.(trust := trust), None)
    case Closed(connection) => (Disconnect(s, connection), None)
    case Update(now, order) => (HandleUpdate(s, now, order), None)
  }

  ghost predicate Enumerates(order: seq<u64>, pending: map<u64, Pending>) {
    && (forall id :: id in order <==> id in pending)
    && (forall i, j | 0 <= i < j < |order| :: order[i] != order[j])
  }

  /** What the surroundings owe: join ids are never repeated, and the table iterates over each of its entries once. */
  ghost predicate Legal(s: State, input: Input) {
    match input
    case Ask(_, _, _, joinId, _) => joinId !in s.begun
    case Update(_, order) => Enumerates(order, s.pending)
    case _ => true
  }

  /** A caller that ignores errors and carries on. */
  function Run(s: State, inputs: seq<Input>): State {
    if inputs == [] then s
    else Handle(Run(s, inputs[..|inputs| - 1]), inputs[|inputs| - 1]).0
  }

  ghost predicate LegalRun(s: State, inputs: seq<Input>) {
    inputs == [] || (LegalRun(s, inputs[..|inputs| - 1]) && Legal(Run(s, inputs[..|inputs| - 1]), inputs[|inputs| - 1]))
  }
}
