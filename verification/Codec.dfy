/** Federated addresses, the canonical string of a signed request, and decimal
    timestamps. */
module Codec {
  import opened Schema

  /** The string has no occurrence of `c`. */
  predicate Free(s: string, c: char) {
    forall i :: 0 <= i < |s| ==> s[i] != c
  }

  /** Index of the first `c`, as `str::find`. */
  function Find(s: string, c: char): (r: Option<nat>)
    ensures r == None <==> Free(s, c)
    ensures r.Some? ==> r.value < |s| && s[r.value] == c && forall k :: 0 <= k < r.value ==> s[k] != c
  {
    if s == "" then None
    else if s[0] == c then Some(0)
    else
      match Find(s[1..], c)
      case None => None
      case Some(i) => Some(i + 1)
  }

  /** Index of the last `c`, as `str::rfind`. */
  function RFind(s: string, c: char): (r: Option<nat>)
    ensures r == None <==> Free(s, c)
    ensures r.Some? ==> r.value < |s| && s[r.value] == c && forall k :: r.value < k < |s| ==> s[k] != c
  {
    if s == "" then None
    else if s[|s| - 1] == c then Some(|s| - 1)
    else
      match RFind(s[..|s| - 1], c)
      case None => None
      case Some(i) => Some(i)
  }

  // ----- Federated addresses -----

  function Address(username: string, node: NodeId): string {
    username + "@" + node
  }

  function ParseFederatedAddress(addr: string): Option<(string, NodeId)> {
    match RFind(addr, '@')
    case None => None
    case Some(at) => Some((addr[..at], addr[at + 1..]))
  }

  /** The receiver's `split('@').next()`. */
  function SenderName(addr: string): string {
    match Find(addr, '@')
    case None => addr
    case Some(at) => addr[..at]
  }

  lemma RFindUnique(s: string, c: char, i: nat)
    requires i < |s| && s[i] == c && Free(s[i + 1..], c)
    ensures RFind(s, c) == Some(i)
  {
  }

  lemma FindUnique(s: string, c: char, i: nat)
    requires i < |s| && s[i] == c && Free(s[..i], c)
    ensures Find(s, c) == Some(i)
  {
  }

  /** Parsing undoes formatting exactly when the node name has no '@'. */
  lemma ParseAddress(u: string, n: NodeId)
    ensures ParseFederatedAddress(Address(u, n)) == Some((u, n)) <==> Free(n, '@')
  {
    var addr := Address(u, n);
    assert addr[|u|] == '@' && addr[|u| + 1..] == n && addr[..|u|] == u;
    if Free(n, '@') {
      RFindUnique(addr, '@', |u|);
    } else {
      var i :| 0 <= i < |n| && n[i] == '@';
      assert addr[|u| + 1 + i] == '@';
    }
  }

  /** Formatting undoes every successful parse. */
  lemma ParseThenFormat(addr: string)
    ensures match ParseFederatedAddress(addr)
      case None => Free(addr, '@')
      case Some((u, n)) => Address(u, n) == addr && Free(n, '@')
  {
  }

  lemma AddressInjective(u: string, n: NodeId, v: string, m: NodeId)
    requires Free(n, '@') && Free(m, '@')
    ensures Address(u, n) == Address(v, m) <==> u == v && n == m
  {
    ParseAddress(u, n);
    ParseAddress(v, m);
  }

  /** The receiver names the shadow as the sender's own node does exactly when the
      username has no '@'. */
  lemma SenderNameIff(u: string, n: NodeId)
    ensures SenderName(Address(u, n)) == u <==> Free(u, '@')
  {
    var addr := Address(u, n);
    assert addr[|u|] == '@' && addr[..|u|] == u;
    if Free(u, '@') {
      FindUnique(addr, '@', |u|);
    }
  }

  /** A user "a@b" of a node is shadowed under the name "a". */
  lemma SenderNameCut(node: NodeId)
    ensures SenderName(Address("a@b", node)) == "a"
  {
    var addr := Address("a@b", node);
    assert addr[..1] == "a";
    FindUnique(addr, '@', 1);
  }

  // ----- Canonical string -----

  function Canonical(verb: string, path: string, ts: string, nonce: string): string {
    verb + "\n" + path + "\n" + ts + "\n" + nonce
  }

  /** Splitting at the first newline undoes joining with one. */
  lemma JoinInjective(a: string, x: string, b: string, y: string)
    requires Free(a, '\n') && Free(b, '\n')
    requires a + "\n" + x == b + "\n" + y
    ensures a == b && x == y
  {
    var s := a + "\n" + x;
    assert s[|a|] == '\n' && s[..|a|] == a && s[|a| + 1..] == x;
    assert s[|b|] == '\n' && s[..|b|] == b && s[|b| + 1..] == y;
    FindUnique(s, '\n', |a|);
    FindUnique(s, '\n', |b|);
  }

  /** A canonical string determines its newline-free fields. */
  lemma CanonicalInjective(v: string, p: string, t: string, n: string, v': string, p': string, t': string, n': string)
    requires Free(v, '\n') && Free(p, '\n') && Free(t, '\n')
    requires Free(v', '\n') && Free(p', '\n') && Free(t', '\n')
    ensures Canonical(v, p, t, n) == Canonical(v', p', t', n') <==> v == v' && p == p' && t == t' && n == n'
  {
    if Canonical(v, p, t, n) == Canonical(v', p', t', n') {
      var x, x' := p + "\n" + t + "\n" + n, p' + "\n" + t' + "\n" + n';
      assert Canonical(v, p, t, n) == v + "\n" + x && Canonical(v', p', t', n') == v' + "\n" + x';
      JoinInjective(v, x, v', x');
      var y, y' := t + "\n" + n, t' + "\n" + n';
      assert x == p + "\n" + y && x' == p' + "\n" + y';
      JoinInjective(p, y, p', y');
      JoinInjective(t, n, t', n');
    }
  }

  // ----- Decimal timestamps -----

  const I64_LIMIT: int := 0x8000_0000_0000_0000

  function Digit(n: nat): char
    requires n < 10
  {
    '0' + n as char
  }

  /** `u64::to_string`. */
  function Decimal(n: nat): (s: string)
    ensures s != ""
  {
    if n < 10 then [Digit(n)] else Decimal(n / 10) + [Digit(n % 10)]
  }

  predicate IsDigit(c: char) {
    '0' <= c <= '9'
  }

  predicate AllDigits(s: string) {
    forall i :: 0 <= i < |s| ==> IsDigit(s[i])
  }

  function DigitsValue(s: string): nat
    requires AllDigits(s)
  {
    if s == "" then 0
    else DigitsValue(s[..|s| - 1]) * 10 + (s[|s| - 1] as int - '0' as int)
  }

  /** `str::parse::<i64>`: an optional sign, at least one digit, in range. */
  function ParseI64(s: string): Option<int> {
    var sign := if s != "" && s[0] == '-' then -1 else 1;
    var digits := if s != "" && (s[0] == '-' || s[0] == '+') then s[1..] else s;
    if digits == "" || !AllDigits(digits) then None
    else
      var v := sign * DigitsValue(digits);
      if -I64_LIMIT <= v < I64_LIMIT then Some(v) else None
  }

  lemma {:induction false} DecimalDigits(n: nat)
    ensures AllDigits(Decimal(n)) && DigitsValue(Decimal(n)) == n
  {
    if n < 10 {
      assert Decimal(n)[..0] == "";
    } else {
      DecimalDigits(n / 10);
      assert Decimal(n)[..|Decimal(n)| - 1] == Decimal(n / 10);
    }
  }

  /** The receiver reads the timestamp the sender wrote. */
  lemma TimestampRoundTrip(n: nat)
    requires n < I64_LIMIT
    ensures ParseI64(Decimal(n)) == Some(n) && Free(Decimal(n), '\n')
  {
    DecimalDigits(n);
    assert IsDigit(Decimal(n)[0]);
  }
}
