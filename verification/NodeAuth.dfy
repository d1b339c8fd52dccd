/** Authentication of a request from a peer node.

    Signatures are ideal: the only signature a key verifies on a text is the one made
    with that key on that text. */
module NodeAuth {
  import opened Schema
  import opened Codec
  import opened Urls
  import Nonces

  type KeyId = int
  datatype PublicKey = PublicKey(id: KeyId) | BadKey
  datatype Signature = Signed(signer: KeyId, text: string) | Undecodable

  datatype Peer = Peer(apiUrl: string, key: PublicKey, blocked: bool)
  /** The registry's reply; a record may lack either of its fields. */
  datatype Registry = Unreachable | NotListed | Garbled | Record(apiUrl: Option<string>, key: Option<PublicKey>)

  datatype Headers = Headers(
    nodeId: Option<NodeId>, timestamp: Option<string>, nonce: Option<string>, signature: Option<Signature>)
  datatype HttpRequest = HttpRequest(verb: string, path: string, headers: Headers)

  datatype Verdict =
    | MissingHeader
    | BadTimestamp
    | OutsideWindow
    | RegistryUnreachable
    | PeerNotListed
    | RegistryGarbled
    | Blocked
    | BadSignature
    | BadPeerKey
    | InvalidSignature
    | ReplayedNonce
    | Authenticated(node: NodeId, peer: Peer)

  datatype State = State(peers: map<NodeId, Peer>, nonces: Nonces.Table)

  predicate HasHeaders(h: Headers) {
    h.nodeId.Some? && h.timestamp.Some? && h.nonce.Some? && h.signature.Some?
  }

  /** The cached record, or the registry's, which is then cached. */
  function Resolve(peers: map<NodeId, Peer>, node: NodeId, registry: Registry): Option<Peer> {
    if node in peers then Some(peers[node])
    else
      match registry
      case Record(Some(url), Some(key)) => Some(Peer(url, key, false))
      case _ => None
  }

  function RegistryError(registry: Registry): Verdict {
    match registry
    case Unreachable => RegistryUnreachable
    case NotListed => PeerNotListed
    case _ => RegistryGarbled
  }

  predicate Verifies(key: KeyId, text: string, sig: Signature) {
    sig == Signed(key, text)
  }

  function SignatureVerdict(peer: Peer, text: string, sig: Signature): Option<Verdict> {
    if sig.Undecodable? then Some(BadSignature)
    else if peer.key.BadKey? then Some(BadPeerKey)
    else if !Verifies(peer.key.id, text, sig) then Some(InvalidSignature)
    else None
  }

  /** `clock` is the application's clock at the window check, `at` the database's at
      the nonce claim. */
  function Authenticate(s: State, req: HttpRequest, registry: Registry, clock: Time, at: Time): (r: (Verdict, State)) {
    var h := req.headers;
    if !HasHeaders(h) then (MissingHeader, s)
    else
      var node, ts, nonce := h.nodeId.value, h.timestamp.value, h.nonce.value;
      match ParseI64(ts)
      case None => (BadTimestamp, s)
      case Some(t) =>
        if !Nonces.InWindow(clock, t) then (OutsideWindow, s)
        else
          match Resolve(s.peers, node, registry)
          case None => (RegistryError(registry), s)
          case Some(peer) =>
            var s' := s.(peers := s.peers[node := peer]);
            if peer.blocked then (Blocked, s')
            else
              match SignatureVerdict(peer, Canonical(req.verb, req.path, ts, nonce), h.signature.value)
              case Some(v) => (v, s')
              case None =>
                if (node, nonce) in s.nonces then (ReplayedNonce, s')
                else (Authenticated(node, peer), s'.(nonces := Nonces.Claimed(s.nonces, (node, nonce), at)))
  }

  /** HTTP carries no newline in a method, path or header value. */
  predicate OneLine(verb: string, path: string, ts: string, nonce: string) {
    Free(verb, '\n') && Free(path, '\n') && Free(ts, '\n') && Free(nonce, '\n')
  }

  /** What `sign` and `signed_get` / `signed_post` put on the wire, as it arrives. */
  function SignedRequest(
    node: NodeId, key: KeyId, verb: string, signedPath: string, path: string, seconds: nat, nonce: string): HttpRequest
  {
    HttpRequest(verb, path,
                Headers(Some(node), Some(Decimal(seconds)), Some(nonce),
                        Some(Signed(key, Canonical(verb, signedPath, Decimal(seconds), nonce)))))
  }

  /** The peer's cached record, or with none the registry's complete one, has this key and
      is not blocked. */
  predicate KeyKnown(peers: map<NodeId, Peer>, node: NodeId, registry: Registry, key: KeyId) {
    if node in peers then peers[node].key == PublicKey(key) && !peers[node].blocked
    else registry.Record? && registry.apiUrl.Some? && registry.key == Some(PublicKey(key))
  }

  /** An honest request is authenticated exactly when the signed path is the received
      one, the clock is in the window, the peer is known with that key and not
      blocked, and the nonce is fresh. */
  lemma HonestRequestAcceptedIff(
    s: State, registry: Registry, node: NodeId, key: KeyId, verb: string, signedPath: string, path: string,
    seconds: nat, nonce: string, clock: Time, at: Time)
    requires seconds < I64_LIMIT && Free(verb, '\n') && Free(signedPath, '\n') && Free(path, '\n')
    ensures var req := SignedRequest(node, key, verb, signedPath, path, seconds, nonce);
      Authenticate(s, req, registry, clock, at).0.Authenticated? <==>
        && signedPath == path
        && -60 <= clock / SECOND - seconds <= 60
        && KeyKnown(s.peers, node, registry, key)
        && (node, nonce) !in s.nonces
  {
    TimestampRoundTrip(seconds);
    var ts := Decimal(seconds);
    CanonicalInjective(verb, path, ts, nonce, verb, signedPath, ts, nonce);
  }

  /** A request without its four headers, with an unreadable timestamp, or out of the window
      is refused for just that reason, and nothing is cached or claimed. */
  lemma RefusedEarly(s: State, req: HttpRequest, registry: Registry, clock: Time, at: Time)
    ensures var (v, s') := Authenticate(s, req, registry, clock, at);
      var h := req.headers;
      && (v == MissingHeader <==> h.nodeId == None || h.timestamp == None || h.nonce == None || h.signature == None)
      && (v == BadTimestamp <==> HasHeaders(h) && ParseI64(h.timestamp.value) == None)
      && (v == OutsideWindow <==>
        && HasHeaders(h) && ParseI64(h.timestamp.value).Some?
        && !(-60 <= clock / SECOND - ParseI64(h.timestamp.value).value <= 60))
      && (v in {MissingHeader, BadTimestamp, OutsideWindow} ==> s' == s)
  {
  }

  /** A request in the window from a node that is not cached: without a complete record at
      the registry it is refused for what the registry said; with one, the node is cached,
      unblocked, whatever the verdict. */
  lemma FirstContact(s: State, req: HttpRequest, registry: Registry, clock: Time, at: Time)
    requires HasHeaders(req.headers) && ParseI64(req.headers.timestamp.value).Some?
    requires -60 <= clock / SECOND - ParseI64(req.headers.timestamp.value).value <= 60
    requires req.headers.nodeId.value !in s.peers
    ensures var (v, s') := Authenticate(s, req, registry, clock, at);
      && (v == RegistryUnreachable <==> registry == Unreachable)
      && (v == PeerNotListed <==> registry == NotListed)
      && (v == RegistryGarbled <==>
        registry == Garbled || (registry.Record? && (registry.apiUrl == None || registry.key == None)))
      && (v in {RegistryUnreachable, PeerNotListed, RegistryGarbled} ==> s' == s)
      && (v !in {RegistryUnreachable, PeerNotListed, RegistryGarbled} ==>
        && v != Blocked
        && s'.peers == s.peers[req.headers.nodeId.value := Peer(registry.apiUrl.value, registry.key.value, false)])
  {
  }

  /** A request in the window from a cached node: the record stays as it is, and the verdict
      is the first of the remaining checks that fails. */
  lemma KnownPeer(s: State, req: HttpRequest, registry: Registry, clock: Time, at: Time)
    requires HasHeaders(req.headers) && ParseI64(req.headers.timestamp.value).Some?
    requires -60 <= clock / SECOND - ParseI64(req.headers.timestamp.value).value <= 60
    requires req.headers.nodeId.value in s.peers
    ensures var (v, s') := Authenticate(s, req, registry, clock, at);
      var h, peer := req.headers, s.peers[req.headers.nodeId.value];
      var signed := h.signature.value.Signed? && peer.key.PublicKey? && h.signature.value ==
        Signed(peer.key.id, req.verb + "\n" + req.path + "\n" + h.timestamp.value + "\n" + h.nonce.value);
      && s'.peers == s.peers
      && (v == Blocked <==> peer.blocked)
      && (v == BadSignature <==> !peer.blocked && h.signature.value == Undecodable)
      && (v == BadPeerKey <==> !peer.blocked && h.signature.value.Signed? && peer.key == BadKey)
      && (v == InvalidSignature <==>
        !peer.blocked && h.signature.value.Signed? && peer.key.PublicKey? && !signed)
      && (v == ReplayedNonce <==> !peer.blocked && signed && (h.nodeId.value, h.nonce.value) in s.nonces)
      && (v == Authenticated(h.nodeId.value, peer) <==>
        !peer.blocked && signed && (h.nodeId.value, h.nonce.value) !in s.nonces)
  {
  }

  /** What an authenticated request proves: the peer's own key signed exactly this
      method, path, timestamp and nonce, and no other. */
  lemma AuthenticatedMeansSigned(
    s: State, req: HttpRequest, registry: Registry, clock: Time, at: Time,
    key: KeyId, verb: string, path: string, ts: string, nonce: string)
    requires Authenticate(s, req, registry, clock, at).0.Authenticated?
    requires req.headers.signature == Some(Signed(key, Canonical(verb, path, ts, nonce)))
    requires OneLine(verb, path, ts, nonce)
    requires OneLine(req.verb, req.path, req.headers.timestamp.value, req.headers.nonce.value)
    ensures var (v, s') := Authenticate(s, req, registry, clock, at);
      && v.peer.key == PublicKey(key) && !v.peer.blocked
      && verb == req.verb && path == req.path
      && Some(ts) == req.headers.timestamp && Some(nonce) == req.headers.nonce
      && (v.node, nonce) in s'.nonces && (v.node, nonce) !in s.nonces
  {
    var h := req.headers;
    CanonicalInjective(req.verb, req.path, h.timestamp.value, h.nonce.value, verb, path, ts, nonce);
  }

  /** A refused request leaves the nonce table as it was. */
  lemma RefusedClaimsNothing(s: State, req: HttpRequest, registry: Registry, clock: Time, at: Time)
    ensures var (v, s') := Authenticate(s, req, registry, clock, at);
      s'.nonces != s.nonces <==> v.Authenticated?
  {
  }

  /** Everything is in order but, perhaps, the path. */
  predicate InOrder(s: State, node: NodeId, key: KeyId, seconds: nat, nonce: string, clock: Time) {
    && seconds < I64_LIMIT && Nonces.InWindow(clock, seconds) && (node, nonce) !in s.nonces
    && node in s.peers && s.peers[node].key == PublicKey(key) && !s.peers[node].blocked
  }

  lemma VerifiesIffSamePath(
    s: State, registry: Registry, node: NodeId, key: KeyId, verb: string, signedPath: string, path: string,
    seconds: nat, nonce: string, clock: Time, at: Time)
    requires InOrder(s, node, key, seconds, nonce, clock)
    requires Free(verb, '\n') && Free(signedPath, '\n') && Free(path, '\n')
    ensures var req := SignedRequest(node, key, verb, signedPath, path, seconds, nonce);
      Authenticate(s, req, registry, clock, at).0 ==
      if signedPath == path then Authenticated(node, s.peers[node]) else InvalidSignature
  {
    TimestampRoundTrip(seconds);
    var ts := Decimal(seconds);
    CanonicalInjective(verb, path, ts, nonce, verb, signedPath, ts, nonce);
  }

  lemma ReceivedOneLine(base: string, route: string, stripped: string)
    ensures Free(ReceivedPath(base, route, stripped), '\n')
  {
    WireVisible(Before(WithoutBreaks(Trimmed(base + route)), '#'));
  }

  /** With everything else in order, a GET verifies exactly when its path is sent as it is
      and no prefix is removed from it on the way. */
  lemma GetVerifiesIff(
    s: State, registry: Registry, node: NodeId, key: KeyId, scheme: string, authority: string, base: string,
    route: string, stripped: string, seconds: nat, nonce: string, clock: Time, at: Time)
    requires InOrder(s, node, key, seconds, nonce, clock) && Free(scheme, ':') && Free(authority, '/')
    requires route != "" && route[0] == '/' && (base == "" || base[0] == '/')
    requires Free(base + route, '\n')
    ensures var signed := SignedGetPath(ApiUrl(scheme, authority, base), route);
      var req := SignedRequest(node, key, "GET", signed, ReceivedPath(base, route, stripped), seconds, nonce);
      Authenticate(s, req, registry, clock, at).0 ==
      if Plain(base + route) && (stripped == "" || !(stripped <= base + route))
      then Authenticated(node, s.peers[node]) else InvalidSignature
  {
    var signed, received := SignedGetPath(ApiUrl(scheme, authority, base), route), ReceivedPath(base, route, stripped);
    GetPathAgreesIff(scheme, authority, base, route, stripped);
    assert Free(signed, '\n') by { GetPathIs(scheme, authority, base, route); }
    ReceivedOneLine(base, route, stripped);
    VerifiesIffSamePath(s, registry, node, key, "GET", signed, received, seconds, nonce, clock, at);
  }

  /** With everything else in order, a POST verifies exactly when what is removed is what
      was sent before the route; for a plain path, that is the prefix of the API URL. */
  lemma PostVerifiesIff(
    s: State, registry: Registry, node: NodeId, key: KeyId, base: string, route: string, stripped: string,
    seconds: nat, nonce: string, clock: Time, at: Time)
    requires InOrder(s, node, key, seconds, nonce, clock) && Free(route, '\n')
    requires route != "" && route[0] == '/' && (base == "" || base[0] == '/')
    ensures var req := SignedRequest(
        node, key, "POST", SignedPostPath(route), ReceivedPath(base, route, stripped), seconds, nonce);
      var ok := Authenticate(s, req, registry, clock, at).0 == Authenticated(node, s.peers[node]);
      && (ok <==> if stripped <= Wire(base + route) then Wire(base + route) == stripped + route
                  else Wire(base + route) == route)
      && (Plain(base + route) ==> (ok <==> stripped == base || (base == "" && !(stripped <= route))))
  {
    PostPathAgreesIff(base, route, stripped);
    ReceivedOneLine(base, route, stripped);
    VerifiesIffSamePath(
      s, registry, node, key, "POST", route, ReceivedPath(base, route, stripped), seconds, nonce, clock, at);
  }

  /** With an API URL scheme://authority and nothing removed, requests for a route verify
      for both methods exactly when the route is sent as it is. */
  lemma HonestPathsVerify(
    s: State, registry: Registry, node: NodeId, key: KeyId, scheme: string, authority: string, route: string,
    seconds: nat, nonce: string, clock: Time, at: Time)
    requires InOrder(s, node, key, seconds, nonce, clock) && Free(scheme, ':') && Free(authority, '/')
    requires route != "" && route[0] == '/' && Free(route, '\n')
    ensures var received := ReceivedPath("", route, "");
      var getPath := SignedGetPath(ApiUrl(scheme, authority, ""), route);
      var get := SignedRequest(node, key, "GET", getPath, received, seconds, nonce);
      var post := SignedRequest(node, key, "POST", SignedPostPath(route), received, seconds, nonce);
      && (Authenticate(s, get, registry, clock, at).0 == Authenticated(node, s.peers[node]) <==> Plain(route))
      && (Authenticate(s, post, registry, clock, at).0 == Authenticated(node, s.peers[node]) <==> Plain(route))
  {
    assert "" + route == route;
    SentAsIsIff(route);
    GetVerifiesIff(s, registry, node, key, scheme, authority, "", route, "", seconds, nonce, clock, at);
    PostVerifiesIff(s, registry, node, key, "", route, "", seconds, nonce, clock, at);
  }

  /** A peer that asks for the keys of "bob smith" signs a path with a space, and the path
      that is received has none: the request is refused. */
  lemma SpaceInNameRefused(
    s: State, registry: Registry, node: NodeId, key: KeyId, scheme: string, authority: string,
    seconds: nat, nonce: string, clock: Time, at: Time)
    requires InOrder(s, node, key, seconds, nonce, clock) && Free(scheme, ':') && Free(authority, '/')
    ensures var route := KeysRoute("bob smith");
      var signed := SignedGetPath(ApiUrl(scheme, authority, ""), route);
      var req := SignedRequest(node, key, "GET", signed, ReceivedPath("", route, ""), seconds, nonce);
      Authenticate(s, req, registry, clock, at).0 == InvalidSignature
  {
    SpacedRoute("bob smith", 3);
    var route := KeysRoute("bob smith");
    assert "" + route == route;
    GetVerifiesIff(s, registry, node, key, scheme, authority, "", route, "", seconds, nonce, clock, at);
  }

  lemma SpacedRoute(name: string, i: nat)
    requires Free(name, '/') && Free(name, '?') && Free(name, '\n')
    requires i < |name| && name[i] == ' '
    ensures var route := KeysRoute(name); route != "" && route[0] == '/' && Free(route, '\n') && !Plain(route)
  {
    assert !Kept(name[i], false);
    KeysRoutePlainIff(name);
  }
}
