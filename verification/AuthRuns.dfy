/** Runs of the node authentication: authentication calls, purges of the nonce table,
    and changes of the cached peers by anybody, in any order. */
module AuthRuns {
  import opened Schema
  import opened NodeAuth
  import Codec
  import Nonces

  /** A call is checked against the window at `clock` and claims its nonce, if it gets
      that far, at `at`, which is when the event takes place.  What it read of the peers
      before that is a `Change` just before it. */
  datatype Event =
    | Call(req: HttpRequest, registry: Registry, clock: Time, at: Time)
    | Sweep(at: Time)
    | Change(peers: map<NodeId, Peer>, at: Time)

  function Next(s: State, e: Event): State {
    match e
    case Call(req, registry, clock, at) => Authenticate(s, req, registry, clock, at).1
    case Sweep(at) => s.(nonces := Nonces.Purged(s.nonces, at))
    case Change(peers, _) => s.(peers := peers)
  }

  function Play(s: State, es: seq<Event>): State
    decreases |es|
  {
    if es == [] then s else Play(Next(s, es[0]), es[1..])
  }

  /** Events come in the order of the database's clock, and a call's claim comes between
      `lo` and `lo + spread` after its window check. */
  predicate Legal(es: seq<Event>, lo: int, spread: nat) {
    && (forall i, j :: 0 <= i < j < |es| ==> es[i].at <= es[j].at)
    && (forall i :: 0 <= i < |es| && es[i].Call? ==> lo <= es[i].at - es[i].clock <= lo + spread)
  }

  /** Event `i` is a call that authenticates its request. */
  predicate Accepted(s: State, es: seq<Event>, i: nat) {
    i < |es| && es[i].Call?
    && Authenticate(Play(s, es[..i]), es[i].req, es[i].registry, es[i].clock, es[i].at).0.Authenticated?
  }

  /** The requests name the same node, the same second and the same nonce. */
  predicate SameRequest(a: HttpRequest, b: HttpRequest) {
    && HasHeaders(a.headers) && HasHeaders(b.headers)
    && a.headers.nodeId == b.headers.nodeId && a.headers.nonce == b.headers.nonce
    && Codec.ParseI64(a.headers.timestamp.value) == Codec.ParseI64(b.headers.timestamp.value)
  }

  ghost predicate NoneTwice(s: State, es: seq<Event>) {
    forall i: nat, j: nat :: i < j && Accepted(s, es, i) && Accepted(s, es, j) ==> !SameRequest(es[i].req, es[j].req)
  }

  /** An authenticated request was in the window, and adds exactly its own row to the
      nonce table, dated with the time of the claim; any other request adds none. */
  lemma ClaimIs(s: State, req: HttpRequest, registry: Registry, clock: Time, at: Time)
    ensures var (v, s') := Authenticate(s, req, registry, clock, at);
      if v.Authenticated? then
        && HasHeaders(req.headers) && v.node == req.headers.nodeId.value
        && var key := (v.node, req.headers.nonce.value);
        && key !in s.nonces && s'.nonces == s.nonces[key := at]
        && var ts := Codec.ParseI64(req.headers.timestamp.value);
        && ts.Some? && -60 <= clock / SECOND - ts.value <= 60
      else s'.nonces == s.nonces
  {
  }

  /** A row stays, with its date, until an event later than its lifetime. */
  lemma {:induction false} RowStays(s: State, es: seq<Event>, key: Nonces.NonceKey)
    requires key in s.nonces
    requires forall k :: 0 <= k < |es| ==> es[k].at <= s.nonces[key] + 300 * SECOND
    ensures key in Play(s, es).nonces && Play(s, es).nonces[key] == s.nonces[key]
    decreases |es|
  {
    if es != [] {
      if es[0].Call? {
        ClaimIs(s, es[0].req, es[0].registry, es[0].clock, es[0].at);
      }
      RowStays(Next(s, es[0]), es[1..], key);
    }
  }

  lemma {:induction false} PlayAppend(s: State, es: seq<Event>, fs: seq<Event>)
    ensures Play(s, es + fs) == Play(Play(s, es), fs)
    decreases |es|
  {
    if es == [] {
      assert es + fs == fs;
    } else {
      assert (es + fs)[0] == es[0] && (es + fs)[1..] == es[1..] + fs;
      PlayAppend(Next(s, es[0]), es[1..], fs);
    }
  }

  /** What an accepted call claims is still there as long as its lifetime has not passed. */
  lemma ClaimStays(s: State, es: seq<Event>, i: nat, j: nat)
    requires i < j < |es| && Accepted(s, es, i) && HasHeaders(es[i].req.headers)
    requires forall k :: i < k < j ==> es[k].at <= es[i].at + 300 * SECOND
    ensures (es[i].req.headers.nodeId.value, es[i].req.headers.nonce.value) in Play(s, es[..j]).nonces
  {
    var e := es[i];
    ClaimIs(Play(s, es[..i]), e.req, e.registry, e.clock, e.at);
    assert es[..j] == es[..i] + es[i..j] && es[i..j][0] == e && es[i..j][1..] == es[i + 1..j];
    PlayAppend(s, es[..i], es[i..j]);
    RowStays(Next(Play(s, es[..i]), e), es[i + 1..j], (e.req.headers.nodeId.value, e.req.headers.nonce.value));
  }

  lemma SpreadSuffices(s: State, es: seq<Event>, lo: int, spread: nat)
    requires Legal(es, lo, spread) && spread <= 179 * SECOND + 1
    ensures NoneTwice(s, es)
  {
    forall i: nat, j: nat | i < j && Accepted(s, es, i) && Accepted(s, es, j)
      ensures !SameRequest(es[i].req, es[j].req)
    {
      var e, f := es[i], es[j];
      ClaimIs(Play(s, es[..i]), e.req, e.registry, e.clock, e.at);
      ClaimIs(Play(s, es[..j]), f.req, f.registry, f.clock, f.at);
      if f.at <= e.at + 300 * SECOND {
        ClaimStays(s, es, i, j);
      }
    }
  }

  /** A signed request, checked at the very start of its window, purged, and checked again
      at the very end of it. */
  function Replayed(lo: int): seq<Event> {
    var first, second := -60 * SECOND, 61 * SECOND - 1;
    var late := second + lo + 179 * SECOND + 2;
    var req := SignedRequest("node-a", 0, "GET", "/", "/", 0, "n");
    [Call(req, Record(Some(""), Some(PublicKey(0))), first, first + lo), Sweep(late),
     Call(req, Record(Some(""), Some(PublicKey(0))), second, late)]
  }

  lemma SpreadNeeded(lo: int, spread: nat)
    requires spread > 179 * SECOND + 1
    ensures Legal(Replayed(lo), lo, spread) && !NoneTwice(State(map[], map[]), Replayed(lo))
  {
    var s, es, key := State(map[], map[]), Replayed(lo), ("node-a", "n");
    var registry, peer := Record(Some(""), Some(PublicKey(0))), Peer("", PublicKey(0), false);
    var s1 := State(map["node-a" := peer], map[key := es[0].at]);
    var s2 := State(map["node-a" := peer], map[]);
    assert es[..0] == [] && es[..1] == [] + [es[0]] && es[..2] == es[..1] + [es[1]];
    Codec.TimestampRoundTrip(0);
    assert Authenticate(s, es[0].req, registry, es[0].clock, es[0].at) == (Authenticated("node-a", peer), s1);
    assert Next(s1, es[1]) == s2;
    PlayAppend(s, [], [es[0]]);
    PlayAppend(s, es[..1], [es[1]]);
    assert [es[0]][1..] == [] && [es[1]][1..] == [];
    assert Authenticate(s2, es[2].req, registry, es[2].clock, es[2].at).0 == Authenticated("node-a", peer);
    assert Accepted(s, es, 0) && Accepted(s, es, 2) && SameRequest(es[0].req, es[2].req);
  }

  /** Over all runs, from any peers and nonces, no two requests with the same node, second
      and nonce are authenticated, exactly when the check-to-claim delays spread over at
      most 179 s and one microsecond. */
  lemma NoneTwiceIff(lo: int, spread: nat)
    ensures (forall s, es :: Legal(es, lo, spread) ==> NoneTwice(s, es)) <==> spread <= 179 * SECOND + 1
  {
    if spread <= 179 * SECOND + 1 {
      forall s, es | Legal(es, lo, spread) ensures NoneTwice(s, es) {
        SpreadSuffices(s, es, lo, spread);
      }
    } else {
      SpreadNeeded(lo, spread);
    }
  }
}
