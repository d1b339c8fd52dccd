/** Replay protection when nonces are forgotten after five minutes.

    A request is checked against the timestamp window on the application's clock and
    claims its nonce later on the database's clock; purges run at any time between. */
module Nonces {
  import opened Schema

  const WINDOW: int := 60
  const LIFETIME: int := 300 * SECOND

  /** The largest spread of (claim time - check time) that rules out replays. */
  const MAX_SPREAD: int := 179 * SECOND + 1

  type NonceKey = (NodeId, string)
  type Table = map<NonceKey, Time>

  /** `checked` is the application's clock at the window check, `at` the database's
      clock at the statement. */
  datatype Event =
    | Claim(node: NodeId, nonce: string, ts: int, checked: Time, at: Time)
    | Purge(at: Time)

  /** The clock is truncated to whole seconds before it is compared. */
  predicate InWindow(clock: Time, ts: int) {
    -WINDOW <= clock / SECOND - ts <= WINDOW
  }

  /** `INSERT ... ON CONFLICT DO NOTHING`. */
  function Claimed(t: Table, key: NonceKey, at: Time): Table {
    if key in t then t else t[key := at]
  }

  function Purged(t: Table, at: Time): Table {
    map k | k in t && !(t[k] < at - LIFETIME) :: t[k]
  }

  function Step(t: Table, e: Event): Table {
    match e
    case Claim(node, nonce, _, _, at) => Claimed(t, (node, nonce), at)
    case Purge(at) => Purged(t, at)
  }

  function Play(t: Table, es: seq<Event>): Table
    decreases |es|
  {
    if es == [] then t else Play(Step(t, es[0]), es[1..])
  }

  /** The request passed the window check, and its claim came between `lo` and
      `lo + spread` after it. */
  predicate Legal(es: seq<Event>, lo: int, spread: nat) {
    && (forall i, j :: 0 <= i < j < |es| ==> es[i].at <= es[j].at)
    && (forall i :: 0 <= i < |es| && es[i].Claim? ==>
      InWindow(es[i].checked, es[i].ts) && lo <= es[i].at - es[i].checked <= lo + spread)
  }

  /** Event `i` is a claim that finds no row. */
  predicate Accepted(es: seq<Event>, i: nat) {
    i < |es| && es[i].Claim? && (es[i].node, es[i].nonce) !in Play(map[], es[..i])
  }

  predicate SameRequest(e: Event, f: Event) {
    e.Claim? && f.Claim? && e.node == f.node && e.nonce == f.nonce && e.ts == f.ts
  }

  ghost predicate NoReplay(es: seq<Event>) {
    forall i: nat, j: nat :: i < j && Accepted(es, i) && Accepted(es, j) ==> !SameRequest(es[i], es[j])
  }

  /** Two passes of the window lie less than 121 s apart. */
  lemma WindowWidth(a: Time, b: Time, ts: int)
    requires InWindow(a, ts) && InWindow(b, ts)
    ensures b - a <= 121 * SECOND - 1
  {
  }

  lemma {:induction false} PlaySnoc(t: Table, es: seq<Event>, e: Event)
    ensures Play(t, es + [e]) == Step(Play(t, es), e)
    decreases |es|
  {
    if es == [] {
      assert es + [e] == [e] && [e][1..] == [];
    } else {
      assert (es + [e])[0] == es[0] && (es + [e])[1..] == es[1..] + [e];
      PlaySnoc(Step(t, es[0]), es[1..], e);
    }
  }

  /** A row claimed at event `i` is still there as long as its lifetime has not passed. */
  lemma {:induction false} RowLives(es: seq<Event>, i: nat, j: nat)
    requires i < j <= |es| && Accepted(es, i)
    requires forall k :: i <= k < j ==> es[k].at <= es[i].at + LIFETIME
    ensures var key := (es[i].node, es[i].nonce);
      key in Play(map[], es[..j]) && Play(map[], es[..j])[key] == es[i].at
    decreases j
  {
    assert es[..j] == es[..j - 1] + [es[j - 1]];
    PlaySnoc(map[], es[..j - 1], es[j - 1]);
    if j > i + 1 {
      RowLives(es, i, j - 1);
    }
  }

  lemma SpreadSuffices(es: seq<Event>, lo: int, spread: nat)
    requires Legal(es, lo, spread) && spread <= MAX_SPREAD
    ensures NoReplay(es)
  {
    forall i: nat, j: nat | i < j && Accepted(es, i) && Accepted(es, j) ensures !SameRequest(es[i], es[j]) {
      if es[j].at <= es[i].at + LIFETIME {
        RowLives(es, i, j);
      } else if es[i].ts == es[j].ts {
        WindowWidth(es[i].checked, es[j].checked, es[i].ts);
      }
    }
  }

  /** A request checked at the very start of its window, purged, and checked again at
      the very end of it. */
  function Replay(lo: int): seq<Event> {
    var first, second := -WINDOW * SECOND, (WINDOW + 1) * SECOND - 1;
    [Claim("node-a", "n", 0, first, first + lo),
     Purge(second + lo + MAX_SPREAD + 1),
     Claim("node-a", "n", 0, second, second + lo + MAX_SPREAD + 1)]
  }

  lemma SpreadNeeded(lo: int, spread: nat)
    requires spread > MAX_SPREAD
    ensures Legal(Replay(lo), lo, spread) && !NoReplay(Replay(lo))
  {
    var es := Replay(lo);
    var key := ("node-a", "n");
    assert es[..0] == [] && es[..1] == [] + [es[0]] && es[..2] == es[..1] + [es[1]];
    PlaySnoc(map[], [], es[0]);
    PlaySnoc(map[], es[..1], es[1]);
    assert Play(map[], es[..1]) == map[key := es[0].at];
    assert Accepted(es, 0) && Accepted(es, 2) && SameRequest(es[0], es[2]);
  }

  /** No request is ever accepted twice, whatever the purges, exactly when the spread
      of check-to-claim delays is at most 179 s and one microsecond. */
  lemma NoReplayIff(lo: int, spread: nat)
    ensures (forall es :: Legal(es, lo, spread) ==> NoReplay(es)) <==> spread <= MAX_SPREAD
  {
    if spread <= MAX_SPREAD {
      forall es | Legal(es, lo, spread) ensures NoReplay(es) {
        SpreadSuffices(es, lo, spread);
      }
    } else {
      SpreadNeeded(lo, spread);
    }
  }
}
