/**
 Release trust policies: what makes one valid, what makes one a forward-only successor of
 another, which key a signature may be checked against, and what holds along a chain of
 accepted successors. The hash of a public key is a parameter.
 */
module TrustPolicies {
  import opened OptionWrapper
  import Hex

  const U64_MAX: nat := 0xFFFF_FFFF_FFFF_FFFF
  type U64 = n: nat | n <= U64_MAX

  const POLICY_VERSION: nat := 1
  const MAX_CLOCK_SKEW: nat := 300
  const MAX_LIFETIME: nat := 90 * 24 * 60 * 60

  datatype Status = Active | Retired | Revoked

  datatype Key = Key(id: string, algorithm: string, publicKey: string, status: Status,
                     validFrom: U64, validUntil: Option<U64>)

  datatype Policy = Policy(version: nat, issuedAt: U64, expiresAt: U64, keys: seq<Key>)

  type Hash = seq<Hex.Byte> -> string

  // ---------------------------------------------------------------- order of key ids

  /** The lexicographic order of strings. */
  predicate Less(a: string, b: string)
  {
    b != "" && (a == "" || a[0] < b[0] || (a[0] == b[0] && Less(a[1..], b[1..])))
  }

  lemma {:induction false} LessIrreflexive(a: string)
    ensures !Less(a, a)
  {
    if a != "" { LessIrreflexive(a[1..]); }
  }

  lemma {:induction false} LessTransitive(a: string, b: string, c: string)
    requires Less(a, b) && Less(b, c)
    ensures Less(a, c)
  {
    if a != "" && a[0] == b[0] == c[0] { LessTransitive(a[1..], b[1..], c[1..]); }
  }

  ghost predicate Sorted(keys: seq<Key>) { forall i, j :: 0 <= i < j < |keys| ==> Less(keys[i].id, keys[j].id) }

  // ---------------------------------------------------------------- a valid policy

  /** The id is the hash of the 32 bytes the public key is the hex of. */
  ghost predicate Identified(hash: Hash, k: Key)
  {
    exists bytes: seq<Hex.Byte> :: |bytes| == 32 && k.publicKey == Hex.Encode(bytes) && k.id == hash(bytes)
  }

  ghost predicate ValidKey(hash: Hash, k: Key)
  {
    && k.algorithm == "ed25519"
    && (k.validUntil.Some? ==> k.validFrom <= k.validUntil.value)
    && (k.status.Retired? ==> k.validUntil.Some?)
    && Identified(hash, k)
  }

  ghost predicate ValidPolicy(hash: Hash, p: Policy)
  {
    && p.version == POLICY_VERSION
    && p.issuedAt < p.expiresAt <= p.issuedAt + MAX_LIFETIME
    && p.keys != []
    && (forall i :: 0 <= i < |p.keys| ==> ValidKey(hash, p.keys[i]))
    && Sorted(p.keys)
  }

  method CheckKey(hash: Hash, k: Key) returns (ok: bool)
    ensures ok <==> ValidKey(hash, k)
  {
    if k.algorithm != "ed25519" { return false; }
    if k.validUntil.Some? && k.validUntil.value < k.validFrom { return false; }
    if k.status.Retired? && k.validUntil.None? { return false; }
    var decoded := Hex.DecodeHex(32, k.publicKey);
    if decoded.None? { return false; }
    ok := hash(decoded.value) == k.id;
    forall bytes: seq<Hex.Byte> | |bytes| == 32 && k.publicKey == Hex.Encode(bytes) ensures bytes == decoded.value {
      Hex.EncodeInjective(bytes, decoded.value);
    }
  }

  lemma SortedPush(keys: seq<Key>, n: nat)
    requires n < |keys| && Sorted(keys[..n]) && (n > 0 ==> Less(keys[n - 1].id, keys[n].id))
    ensures Sorted(keys[..n + 1])
  {
    hide Less;
    forall i, j | 0 <= i < j < n + 1 ensures Less(keys[i].id, keys[j].id) {
      if j < n {
        assert keys[..n][i] == keys[i] && keys[..n][j] == keys[j];
      } else if i < n - 1 {
        assert keys[..n][i] == keys[i] && keys[..n][n - 1] == keys[n - 1];
        LessTransitive(keys[i].id, keys[n - 1].id, keys[n].id);
      }
    }
  }

  /** One pass, each id compared with the one before: yet the ids are all in order. */
  method ValidateTrustPolicy(hash: Hash, p: Policy) returns (ok: bool)
    ensures ok <==> ValidPolicy(hash, p)
  {
    if p.version != POLICY_VERSION || p.expiresAt <= p.issuedAt || p.expiresAt - p.issuedAt > MAX_LIFETIME
       || p.keys == [] {
      return false;
    }
    var previous: Option<string> := None;
    for n := 0 to |p.keys|
      invariant previous == if n == 0 then None else Some(p.keys[n - 1].id)
      invariant forall i :: 0 <= i < n ==> ValidKey(hash, p.keys[i])
      invariant Sorted(p.keys[..n])
    {
      var valid := CheckKey(hash, p.keys[n]);
      if !valid { return false; }
      if previous.Some? && !Less(previous.value, p.keys[n].id) {
        assert !Less(p.keys[n - 1].id, p.keys[n].id);
        return false;
      }
      SortedPush(p.keys, n);
      previous := Some(p.keys[n].id);
    }
    assert p.keys[..|p.keys|] == p.keys;
    ok := true;
  }

  // ---------------------------------------------------------------- looking a key up

  /** The first key with the id. */
  function Lookup(keys: seq<Key>, id: string): (r: Option<Key>)
    ensures r.Some? ==> r.value in keys && r.value.id == id
    ensures r.None? ==> forall k :: k in keys ==> k.id != id
  {
    if keys == [] then None else if keys[0].id == id then Some(keys[0]) else Lookup(keys[1..], id)
  }

  /** In order means at most one. */
  lemma LookupOnly(keys: seq<Key>, i: nat)
    requires Sorted(keys) && i < |keys|
    ensures Lookup(keys, keys[i].id) == Some(keys[i])
  {
    var r := Lookup(keys, keys[i].id);
    var j :| 0 <= j < |keys| && keys[j] == r.value;
    LessIrreflexive(keys[i].id);
  }

  method FindKey(keys: seq<Key>, id: string) returns (r: Option<Key>)
    ensures r == Lookup(keys, id)
  {
    assert keys[0..] == keys;
    for n := 0 to |keys|
      invariant Lookup(keys, id) == Lookup(keys[n..], id)
    {
      assert keys[n..][0] == keys[n] && keys[n..][1..] == keys[n + 1..];
      if keys[n].id == id { return Some(keys[n]); }
    }
    r := None;
  }

  // ---------------------------------------------------------------- transitions

  function Rank(s: Status): (n: nat)
  {
    match s
    case Active => 0
    case Retired => 1
    case Revoked => 2
  }

  /** A key that stays: same identity and inception, no step back, a deadline once set kept. */
  predicate Evolves(a: Key, b: Key)
  {
    && b.algorithm == a.algorithm && b.publicKey == a.publicKey && b.validFrom == a.validFrom
    && Rank(a.status) <= Rank(b.status)
    && (!a.status.Active? || a.validUntil.Some? ==> b.validUntil == a.validUntil)
  }

  /** A key that goes: retired, and past its deadline. */
  predicate MayLeave(a: Key, issuedAt: nat)
  {
    a.status.Retired? && a.validUntil.Some? && a.validUntil.value < issuedAt
  }

  /** What may become of the key with one id. */
  predicate Moves(a: Option<Key>, b: Option<Key>, issuedAt: nat)
  {
    match (a, b)
    case (None, None) => true
    case (None, Some(new_)) => new_.status.Active?
    case (Some(old_), None) => MayLeave(old_, issuedAt)
    case (Some(old_), Some(new_)) => Evolves(old_, new_)
  }

  predicate MovesAt(p: Policy, q: Policy, id: string) { Moves(Lookup(p.keys, id), Lookup(q.keys, id), q.issuedAt) }

  /** Forward only: later, and every key moves forward. */
  ghost predicate Forward(hash: Hash, p: Policy, q: Policy)
  {
    ValidPolicy(hash, p) && ValidPolicy(hash, q) && p.issuedAt < q.issuedAt && forall id :: MovesAt(p, q, id)
  }

  method CheckStaying(a: Key, b: Key) returns (ok: bool)
    ensures ok <==> Evolves(a, b)
  {
    if !(b.algorithm == a.algorithm && b.publicKey == a.publicKey) { return false; }
    if b.validFrom != a.validFrom { return false; }
    if Rank(b.status) < Rank(a.status) { return false; }
    if !a.status.Active? {
      if b.validUntil != a.validUntil { return false; }
    } else if a.validUntil.Some? {
      if b.validUntil != Some(a.validUntil.value) { return false; }
    }
    ok := true;
  }

  lemma MovesFrom(p: Policy, q: Policy, id: string, key: Key, found: Option<Key>)
    requires Lookup(p.keys, id) == Some(key) && Lookup(q.keys, id) == found
    ensures MovesAt(p, q, id) <==> if found.None? then MayLeave(key, q.issuedAt) else Evolves(key, found.value)
  {
  }

  lemma MovesTo(p: Policy, q: Policy, key: Key)
    requires Lookup(p.keys, key.id) == None && Lookup(q.keys, key.id) == Some(key)
    ensures MovesAt(p, q, key.id) <==> key.status.Active?
  {
  }

  lemma KnownKey(p: Policy, id: string)
    requires Lookup(p.keys, id).Some?
    ensures exists i :: 0 <= i < |p.keys| && p.keys[i].id == id
  {
  }

  /** An id is of a key of one policy, of the other, or of neither. */
  lemma Everywhere(p: Policy, q: Policy, id: string)
    requires forall i :: 0 <= i < |p.keys| ==> MovesAt(p, q, p.keys[i].id)
    requires forall i :: 0 <= i < |q.keys| ==> MovesAt(p, q, q.keys[i].id)
    ensures MovesAt(p, q, id)
  {
    if Lookup(p.keys, id).Some? {
      KnownKey(p, id);
    } else if Lookup(q.keys, id).Some? {
      KnownKey(q, id);
    }
  }

  /** The two loops accept exactly the forward-only successors. */
  method ValidateTransition(hash: Hash, current: Policy, successor: Policy) returns (ok: bool)
    ensures ok <==> Forward(hash, current, successor)
  {
    var valid := ValidateTrustPolicy(hash, current);
    if !valid { return false; }
    valid := ValidateTrustPolicy(hash, successor);
    if !valid || successor.issuedAt <= current.issuedAt { return false; }
    hide Lookup, Moves, ValidKey;
    for n := 0 to |current.keys|
      invariant forall i :: 0 <= i < n ==> MovesAt(current, successor, current.keys[i].id)
    {
      var key := current.keys[n];
      LookupOnly(current.keys, n);
      var found := FindKey(successor.keys, key.id);
      MovesFrom(current, successor, key.id, key, found);
      if found.None? {
        match key.status {
          case Active => return false;
          case Revoked => return false;
          case Retired =>
            if key.validUntil.None? || successor.issuedAt <= key.validUntil.value { return false; }
        }
      } else {
        var stays := CheckStaying(key, found.value);
        if !stays { return false; }
      }
    }
    for n := 0 to |successor.keys|
      invariant forall i :: 0 <= i < n ==> MovesAt(current, successor, successor.keys[i].id)
    {
      var key := successor.keys[n];
      LookupOnly(successor.keys, n);
      var found := FindKey(current.keys, key.id);
      if found.None? {
        MovesTo(current, successor, key);
        if !key.status.Active? { return false; }
      } else {
        KnownKey(current, key.id);
      }
    }
    forall id ensures MovesAt(current, successor, id) { Everywhere(current, successor, id); }
    ok := true;
  }

  // ---------------------------------------------------------------- which key is trusted

  function SaturatingAdd(a: U64, b: U64): (r: U64) { if a + b > U64_MAX then U64_MAX else a + b }

  /** The policy stands for the key `k` for a signature made at `issuedAt` and checked at `now`. */
  ghost predicate Trusts(hash: Hash, p: Policy, id: string, issuedAt: U64, now: U64, k: Key)
  {
    && ValidPolicy(hash, p)
    && p.issuedAt <= now + MAX_CLOCK_SKEW && now <= p.expiresAt && issuedAt <= p.expiresAt
    && k in p.keys && k.id == id && !k.status.Revoked?
    && k.validFrom <= now && k.validFrom <= issuedAt
    && (k.validUntil.Some? ==> now <= k.validUntil.value && issuedAt <= k.validUntil.value)
  }

  /** A key comes back just when the policy stands for it; that the skew saturates changes
      nothing. */
  method TrustedReleaseKey(hash: Hash, p: Policy, id: string, issuedAt: U64, now: U64) returns (r: Option<Key>)
    ensures r.Some? ==> Trusts(hash, p, id, issuedAt, now, r.value)
    ensures r.None? ==> forall k :: !Trusts(hash, p, id, issuedAt, now, k)
  {
    var valid := ValidateTrustPolicy(hash, p);
    if !valid { return None; }
    if p.issuedAt > SaturatingAdd(now, MAX_CLOCK_SKEW) || now > p.expiresAt || issuedAt > p.expiresAt { return None; }
    r := FindKey(p.keys, id);
    hide ValidKey;
    if r.None? { return; }
    forall k | k in p.keys && k.id == id ensures k == r.value {
      var i :| 0 <= i < |p.keys| && p.keys[i] == k;
      LookupOnly(p.keys, i);
    }
    var k := r.value;
    if k.status.Revoked? || now < k.validFrom { return None; }
    if k.validUntil.Some? && (now > k.validUntil.value || issuedAt > k.validUntil.value) { return None; }
    if issuedAt < k.validFrom { return None; }
  }

  // ---------------------------------------------------------------- chains of policies

  /** Each policy was accepted as the successor of the one before. */
  ghost predicate Chain(hash: Hash, ps: seq<Policy>)
  {
    forall i :: 0 <= i < |ps| - 1 ==> Forward(hash, ps[i], ps[i + 1])
  }

  function KeyIn(p: Policy, id: string): (r: Option<Key>) { Lookup(p.keys, id) }

  ghost predicate Present(ps: seq<Policy>, i: nat, j: nat, id: string)
    requires j < |ps|
  {
    forall m :: i <= m <= j ==> KeyIn(ps[m], id).Some?
  }

  lemma ChainMove(hash: Hash, ps: seq<Policy>, i: nat, id: string)
    requires Chain(hash, ps) && i + 1 < |ps|
    ensures Moves(KeyIn(ps[i], id), KeyIn(ps[i + 1], id), ps[i + 1].issuedAt) && ps[i].issuedAt < ps[i + 1].issuedAt
  {
    hide Moves, Lookup, ValidPolicy;
    assert Forward(hash, ps[i], ps[i + 1]);
    assert MovesAt(ps[i], ps[i + 1], id);
  }

  lemma {:induction false} IssueTimesIncrease(hash: Hash, ps: seq<Policy>, i: nat, j: nat)
    requires Chain(hash, ps) && i < j < |ps|
    ensures ps[i].issuedAt < ps[j].issuedAt
    decreases j
  {
    ChainMove(hash, ps, j - 1, "");
    if i < j - 1 { IssueTimesIncrease(hash, ps, i, j - 1); }
  }

  /** While it stays, a key keeps its identity, its inception and any deadline, and its status
      does not step back. */
  lemma {:induction false} StayingKeyEvolves(hash: Hash, ps: seq<Policy>, i: nat, j: nat, id: string)
    requires Chain(hash, ps) && i <= j < |ps| && Present(ps, i, j, id)
    ensures Evolves(KeyIn(ps[i], id).value, KeyIn(ps[j], id).value)
    decreases j
  {
    hide Lookup;
    if i < j {
      StayingKeyEvolves(hash, ps, i, j - 1, id);
      ChainMove(hash, ps, j - 1, id);
      assert KeyIn(ps[j - 1], id).Some?;
    }
  }

  /** A revoked key stays, revoked, for good. */
  lemma {:induction false} RevokedForever(hash: Hash, ps: seq<Policy>, i: nat, j: nat, id: string)
    requires Chain(hash, ps) && i <= j < |ps|
    requires KeyIn(ps[i], id).Some? && KeyIn(ps[i], id).value.status.Revoked?
    ensures KeyIn(ps[j], id).Some? && KeyIn(ps[j], id).value.status.Revoked?
    ensures Evolves(KeyIn(ps[i], id).value, KeyIn(ps[j], id).value)
    decreases j
  {
    hide Lookup;
    if i < j {
      RevokedForever(hash, ps, i, j - 1, id);
      ChainMove(hash, ps, j - 1, id);
    }
  }

  /** So no later policy stands for it, whenever the signature was made or is checked. */
  lemma RevokedIsNeverTrusted(hash: Hash, ps: seq<Policy>, i: nat, j: nat, id: string, issuedAt: U64, now: U64, k: Key)
    requires Chain(hash, ps) && i <= j < |ps|
    requires KeyIn(ps[i], id).Some? && KeyIn(ps[i], id).value.status.Revoked?
    ensures !Trusts(hash, ps[j], id, issuedAt, now, k)
  {
    RevokedForever(hash, ps, i, j, id);
    if ValidPolicy(hash, ps[j]) && k in ps[j].keys && k.id == id {
      hide Lookup, ValidKey;
      var n :| 0 <= n < |ps[j].keys| && ps[j].keys[n] == k;
      LookupOnly(ps[j].keys, n);
    }
  }

  /** A key that is gone had been retired, and its deadline had passed when the policy that
      dropped it was issued. */
  lemma {:induction false} GoneOnlyAfterDeadline(hash: Hash, ps: seq<Policy>, i: nat, j: nat, id: string)
    returns (m: nat)
    requires Chain(hash, ps) && i < j < |ps| && KeyIn(ps[i], id).Some? && KeyIn(ps[j], id).None?
    ensures i <= m < j && Present(ps, i, m, id) && KeyIn(ps[m + 1], id).None?
    ensures MayLeave(KeyIn(ps[m], id).value, ps[m + 1].issuedAt)
    ensures var first := KeyIn(ps[i], id).value;
            first.validUntil.Some? ==> first.validUntil.value < ps[j].issuedAt
    decreases j
  {
    hide Lookup;
    m := i;
    while KeyIn(ps[m + 1], id).Some?
      invariant i <= m < j && Present(ps, i, m, id)
      decreases j - m
    {
      m := m + 1;
    }
    ChainMove(hash, ps, m, id);
    StayingKeyEvolves(hash, ps, i, m, id);
    if m + 1 < j { IssueTimesIncrease(hash, ps, m + 1, j); }
  }

  // ---------------------------------------------------------------- keys that come back

  /** Between the policies `i` and `j` the status of the key steps back. */
  ghost predicate StepsBack(ps: seq<Policy>, i: nat, j: nat, id: string)
    requires j < |ps|
  {
    exists a, b :: i <= a < b <= j && KeyIn(ps[a], id).Some? && KeyIn(ps[b], id).Some?
                   && Rank(KeyIn(ps[b], id).value.status) < Rank(KeyIn(ps[a], id).value.status)
  }

  /** A key that is listed again after a gap is active when the gap ends. */
  lemma ReturnsActive(hash: Hash, ps: seq<Policy>, gone: nat, j: nat, id: string) returns (b: nat)
    requires Chain(hash, ps) && gone < j < |ps| && KeyIn(ps[gone], id).None? && KeyIn(ps[j], id).Some?
    ensures gone < b <= j && KeyIn(ps[b - 1], id).None?
    ensures KeyIn(ps[b], id).Some? && KeyIn(ps[b], id).value.status.Active?
  {
    hide Lookup, Chain;
    b := j;
    while KeyIn(ps[b - 1], id).Some?
      invariant gone < b <= j && KeyIn(ps[b], id).Some?
      decreases b
    {
      b := b - 1;
    }
    ChainMove(hash, ps, b - 1, id);
  }

  /** Between two policies that list a key its status steps back just when a policy in between
      does not list it. */
  lemma StepsBackIffForgotten(hash: Hash, ps: seq<Policy>, i: nat, j: nat, id: string)
    requires Chain(hash, ps) && i <= j < |ps| && KeyIn(ps[i], id).Some? && KeyIn(ps[j], id).Some?
    ensures StepsBack(ps, i, j, id) <==> !Present(ps, i, j, id)
  {
    hide Lookup, Chain;
    if Present(ps, i, j, id) {
      forall a, b | i <= a < b <= j
        ensures Rank(KeyIn(ps[b], id).value.status) >= Rank(KeyIn(ps[a], id).value.status)
      {
        StayingKeyEvolves(hash, ps, a, b, id);
      }
    } else {
      var gone :| i <= gone <= j && KeyIn(ps[gone], id).None?;
      var a := GoneOnlyAfterDeadline(hash, ps, i, gone, id);
      var b := ReturnsActive(hash, ps, gone, j, id);
      assert Rank(KeyIn(ps[b], id).value.status) < Rank(KeyIn(ps[a], id).value.status);
    }
  }

  lemma RetiredHasDeadline(hash: Hash, ps: seq<Policy>, i: nat, id: string)
    requires Chain(hash, ps) && i + 1 < |ps| && KeyIn(ps[i], id).Some? && KeyIn(ps[i], id).value.status.Retired?
    ensures KeyIn(ps[i], id).value.validUntil.Some?
  {
    assert Forward(hash, ps[i], ps[i + 1]);
    var n :| 0 <= n < |ps[i].keys| && ps[i].keys[n] == KeyIn(ps[i], id).value;
    assert ValidKey(hash, ps[i].keys[n]);
  }

  /** Only a retired key can step back, to active, and only through a policy issued after its
      deadline. */
  lemma StepBackIsARetiredReturn(hash: Hash, ps: seq<Policy>, i: nat, j: nat, id: string) returns (gone: nat)
    requires Chain(hash, ps) && i < j < |ps| && KeyIn(ps[i], id).Some? && KeyIn(ps[j], id).Some?
    requires Rank(KeyIn(ps[j], id).value.status) < Rank(KeyIn(ps[i], id).value.status)
    ensures i < gone < j && KeyIn(ps[gone], id).None?
    ensures var first, last := KeyIn(ps[i], id).value, KeyIn(ps[j], id).value;
            && first.status.Retired? && last.status.Active?
            && first.validUntil.Some? && first.validUntil.value < ps[gone].issuedAt
  {
    hide Lookup;
    StepsBackIffForgotten(hash, ps, i, j, id);
    if KeyIn(ps[i], id).value.status.Revoked? { RevokedForever(hash, ps, i, j, id); }
    gone :| i <= gone <= j && KeyIn(ps[gone], id).None?;
    var m := GoneOnlyAfterDeadline(hash, ps, i, gone, id);
    RetiredHasDeadline(hash, ps, i, id);
  }

  // ---------------------------------------------------------------- one that does

  lemma {:induction false} LessTotal(a: string, b: string)
    ensures a == b || Less(a, b) || Less(b, a)
  {
    if a != "" && b != "" && a[0] == b[0] {
      LessTotal(a[1..], b[1..]);
      assert a == [a[0]] + a[1..] && b == [b[0]] + b[1..];
    }
  }

  function KeyOf(hash: Hash, bytes: seq<Hex.Byte>, status: Status, validUntil: Option<U64>): (k: Key)
  {
    Key(hash(bytes), "ed25519", Hex.Encode(bytes), status, 0, validUntil)
  }

  function InOrder(x: Key, y: Key): (keys: seq<Key>) { if Less(x.id, y.id) then [x, y] else [y, x] }

  /** Keys `a` and `b`; then, past the deadline of `a`, only `b`; then both again. */
  function Returning(hash: Hash, a: seq<Hex.Byte>, b: seq<Hex.Byte>): (ps: seq<Policy>)
    ensures |ps| == 3
  {
    var other := KeyOf(hash, b, Active, None);
    [Policy(POLICY_VERSION, 5, 100, InOrder(KeyOf(hash, a, Retired, Some(10)), other)),
     Policy(POLICY_VERSION, 20, 100, [other]),
     Policy(POLICY_VERSION, 30, 100, InOrder(KeyOf(hash, a, Active, None), other))]
  }

  lemma KeyIsValid(hash: Hash, bytes: seq<Hex.Byte>, status: Status, validUntil: Option<U64>)
    requires |bytes| == 32 && (status.Retired? ==> validUntil.Some?)
    ensures ValidKey(hash, KeyOf(hash, bytes, status, validUntil))
  {
  }

  lemma PairIsValid(hash: Hash, a: seq<Hex.Byte>, b: seq<Hex.Byte>, k: Key)
    requires |a| == |b| == 32 && hash(a) != hash(b)
    requires k == KeyOf(hash, a, k.status, k.validUntil) && (k.status.Retired? ==> k.validUntil.Some?)
    ensures var keys := InOrder(k, KeyOf(hash, b, Active, None));
            Sorted(keys) && forall i :: 0 <= i < |keys| ==> ValidKey(hash, keys[i])
  {
    LessTotal(hash(a), hash(b));
    KeyIsValid(hash, a, k.status, k.validUntil);
    KeyIsValid(hash, b, Active, None);
  }

  lemma LookupPair(x: Key, y: Key, id: string)
    requires x.id != y.id
    ensures Lookup(InOrder(x, y), id) == if id == x.id then Some(x) else if id == y.id then Some(y) else None
    ensures Lookup([y], id) == if id == y.id then Some(y) else None
  {
    hide Less;
    assert [x, y][1..] == [y] && [y, x][1..] == [x];
  }

  /** A retired key past its deadline can be listed again as active, and is trusted again,
      whichever key it is and whatever the hash. */
  lemma RetiredKeyReturns(hash: Hash, a: seq<Hex.Byte>, b: seq<Hex.Byte>)
    requires |a| == |b| == 32 && hash(a) != hash(b)
    ensures var ps, id := Returning(hash, a, b), hash(a);
            && Chain(hash, ps)
            && KeyIn(ps[0], id) == Some(KeyOf(hash, a, Retired, Some(10)))
            && KeyIn(ps[1], id) == None
            && KeyIn(ps[2], id) == Some(KeyOf(hash, a, Active, None))
            && Trusts(hash, ps[2], id, 30, 30, KeyOf(hash, a, Active, None))
  {
    var ps, id := Returning(hash, a, b), hash(a);
    var before, after := KeyOf(hash, a, Retired, Some(10)), KeyOf(hash, a, Active, None);
    var other := KeyOf(hash, b, Active, None);
    PairIsValid(hash, a, b, before);
    PairIsValid(hash, a, b, after);
    LookupPair(before, other, id);
    LookupPair(after, other, id);
    assert ValidPolicy(hash, ps[1]) by { KeyIsValid(hash, b, Active, None); }
    assert Lookup([other], id) == None;
    hide ValidPolicy, Less, InOrder;
    forall any ensures MovesAt(ps[0], ps[1], any) && MovesAt(ps[1], ps[2], any) {
      LookupPair(before, other, any);
      LookupPair(after, other, any);
    }
  }
}
