/**
 The alert configuration cache: an index over the latest configuration list, replaced as a whole by each
 successful refresh, and the initial fetch with its growing, capped waits.
 */
module AlertConfigCache {
  import opened Common
  import RR = RequestReply

  /** One entry of the configuration list; without a gateway id it applies to the whole tenant. */
  datatype AlertConfig = AlertConfig(tenantID: string, gatewayID: Option<string>, timeoutMs: int)

  type Configs = seq<AlertConfig>

  datatype Snapshot = Snapshot(byGateway: map<string, AlertConfig>, byTenant: map<string, AlertConfig>)

  const EMPTY: Snapshot := Snapshot(map[], map[])

  // ------------------------------------------------------------------------------------------------
  // The index and the plain scan of the list it must agree with
  // ------------------------------------------------------------------------------------------------

  /** The key of the gateway index. */
  function GatewayKey(tenantID: string, gatewayID: string): string {
    tenantID + "/" + gatewayID
  }

  function Insert(s: Snapshot, c: AlertConfig): Snapshot {
    match c.gatewayID
    case Some(g) => s.(byGateway := s.byGateway[GatewayKey(c.tenantID, g) := c])
    case None => s.(byTenant := s.byTenant[c.tenantID := c])
  }

  function Index(configs: Configs): Snapshot {
    if configs == [] then EMPTY else Insert(Index(configs[..|configs| - 1]), configs[|configs| - 1])
  }

  function Lookup(s: Snapshot, defaultMs: int, tenantID: string, gatewayID: string): int {
    if GatewayKey(tenantID, gatewayID) in s.byGateway then s.byGateway[GatewayKey(tenantID, gatewayID)].timeoutMs
    else if tenantID in s.byTenant then s.byTenant[tenantID].timeoutMs
    else defaultMs
  }

  /** The last entry for exactly this tenant and gateway, if any. */
  function LastForGateway(configs: Configs, tenantID: string, gatewayID: string): Option<AlertConfig> {
    if configs == [] then None
    else
      var c := configs[|configs| - 1];
      if c.tenantID == tenantID && c.gatewayID == Some(gatewayID) then Some(c)
      else LastForGateway(configs[..|configs| - 1], tenantID, gatewayID)
  }

  /** The last tenant-level entry for the tenant, if any. */
  function LastForTenant(configs: Configs, tenantID: string): Option<AlertConfig> {
    if configs == [] then None
    else
      var c := configs[|configs| - 1];
      if c.tenantID == tenantID && c.gatewayID == None then Some(c)
      else LastForTenant(configs[..|configs| - 1], tenantID)
  }

  /** What the configuration list means: gateway entries win over tenant entries, later ones over earlier ones. */
  function Scan(configs: Configs, defaultMs: int, tenantID: string, gatewayID: string): int {
    match LastForGateway(configs, tenantID, gatewayID)
    case Some(c) => c.timeoutMs
    case None =>
      match LastForTenant(configs, tenantID)
      case Some(c) => c.timeoutMs
      case None => defaultMs
  }

  predicate IsFor(c: AlertConfig, tenantID: string, gatewayID: Option<string>) {
    c.tenantID == tenantID && c.gatewayID == gatewayID
  }

  /** Entry `i` is the last one for exactly this tenant and gateway, or without a gateway for the whole tenant. */
  ghost predicate LastAt(configs: Configs, tenantID: string, gatewayID: Option<string>, i: nat) {
    && i < |configs| && IsFor(configs[i], tenantID, gatewayID)
    && forall j :: i < j < |configs| ==> !IsFor(configs[j], tenantID, gatewayID)
  }

  lemma {:induction false} GatewayFound(configs: Configs, tenantID: string, gatewayID: string, i: nat)
    requires LastAt(configs, tenantID, Some(gatewayID), i)
    ensures LastForGateway(configs, tenantID, gatewayID) == Some(configs[i])
  {
    if i < |configs| - 1 {
      assert configs[..|configs| - 1][i] == configs[i];
      GatewayFound(configs[..|configs| - 1], tenantID, gatewayID, i);
    }
  }

  lemma {:induction false} GatewayAbsent(configs: Configs, tenantID: string, gatewayID: string)
    requires forall i: nat :: i < |configs| ==> !IsFor(configs[i], tenantID, Some(gatewayID))
    ensures LastForGateway(configs, tenantID, gatewayID) == None
  {
    if configs != [] {
      GatewayAbsent(configs[..|configs| - 1], tenantID, gatewayID);
    }
  }

  lemma {:induction false} TenantFound(configs: Configs, tenantID: string, i: nat)
    requires LastAt(configs, tenantID, None, i)
    ensures LastForTenant(configs, tenantID) == Some(configs[i])
  {
    if i < |configs| - 1 {
      assert configs[..|configs| - 1][i] == configs[i];
      TenantFound(configs[..|configs| - 1], tenantID, i);
    }
  }

  lemma {:induction false} TenantAbsent(configs: Configs, tenantID: string)
    requires forall i: nat :: i < |configs| ==> !IsFor(configs[i], tenantID, None)
    ensures LastForTenant(configs, tenantID) == None
  {
    if configs != [] {
      TenantAbsent(configs[..|configs| - 1], tenantID);
    }
  }

  /** The scan by positions: the last gateway entry, else the last tenant entry, else the default. */
  lemma ScanMeans(configs: Configs, defaultMs: int, tenantID: string, gatewayID: string)
    ensures forall i: nat :: LastAt(configs, tenantID, Some(gatewayID), i) ==>
              Scan(configs, defaultMs, tenantID, gatewayID) == configs[i].timeoutMs
    ensures (forall i: nat :: i < |configs| ==> !IsFor(configs[i], tenantID, Some(gatewayID))) ==>
              && (forall i: nat :: LastAt(configs, tenantID, None, i) ==>
                    Scan(configs, defaultMs, tenantID, gatewayID) == configs[i].timeoutMs)
              && ((forall i: nat :: i < |configs| ==> !IsFor(configs[i], tenantID, None)) ==>
                    Scan(configs, defaultMs, tenantID, gatewayID) == defaultMs)
  {
    forall i: nat | LastAt(configs, tenantID, Some(gatewayID), i)
      ensures LastForGateway(configs, tenantID, gatewayID) == Some(configs[i])
    {
      GatewayFound(configs, tenantID, gatewayID, i);
    }
    if forall i: nat :: i < |configs| ==> !IsFor(configs[i], tenantID, Some(gatewayID)) {
      GatewayAbsent(configs, tenantID, gatewayID);
      forall i: nat | LastAt(configs, tenantID, None, i) ensures LastForTenant(configs, tenantID) == Some(configs[i]) {
        TenantFound(configs, tenantID, i);
      }
      if forall i: nat :: i < |configs| ==> !IsFor(configs[i], tenantID, None) {
        TenantAbsent(configs, tenantID);
      }
    }
  }

  /** No gateway entry of another tenant and gateway shares the index key of the pair. */
  ghost predicate NoCollision(configs: Configs, tenantID: string, gatewayID: string) {
    forall i :: 0 <= i < |configs| && configs[i].gatewayID.Some?
                && GatewayKey(configs[i].tenantID, configs[i].gatewayID.value) == GatewayKey(tenantID, gatewayID) ==>
                configs[i].tenantID == tenantID && configs[i].gatewayID.value == gatewayID
  }

  lemma {:induction false} IndexMatchesGatewayScan(configs: Configs, tenantID: string, gatewayID: string)
    requires NoCollision(configs, tenantID, gatewayID)
    ensures var key, last := GatewayKey(tenantID, gatewayID), LastForGateway(configs, tenantID, gatewayID);
            && (key in Index(configs).byGateway <==> last.Some?)
            && (last.Some? ==> Index(configs).byGateway[key] == last.value)
  {
    if configs != [] {
      var before := configs[..|configs| - 1];
      assert forall i :: 0 <= i < |before| ==> before[i] == configs[i];
      IndexMatchesGatewayScan(before, tenantID, gatewayID);
    }
  }

  lemma {:induction false} IndexMatchesTenantScan(configs: Configs, tenantID: string)
    ensures var last := LastForTenant(configs, tenantID);
            && (tenantID in Index(configs).byTenant <==> last.Some?)
            && (last.Some? ==> Index(configs).byTenant[tenantID] == last.value)
  {
    if configs != [] {
      IndexMatchesTenantScan(configs[..|configs| - 1], tenantID);
    }
  }

  /** Without a key collision, looking a timeout up in the index is scanning the list. */
  lemma LookupIsScan(configs: Configs, defaultMs: int, tenantID: string, gatewayID: string)
    requires NoCollision(configs, tenantID, gatewayID)
    ensures Lookup(Index(configs), defaultMs, tenantID, gatewayID) == Scan(configs, defaultMs, tenantID, gatewayID)
  {
    IndexMatchesGatewayScan(configs, tenantID, gatewayID);
    IndexMatchesTenantScan(configs, tenantID);
  }

  // ------------------------------------------------------------------------------------------------
  // Exactly when the index agrees with the scan
  // ------------------------------------------------------------------------------------------------

  type Ids = set<(string, string)>

  ghost predicate KeysInjective(ids: Ids) {
    forall p, q :: p in ids && q in ids && GatewayKey(p.0, p.1) == GatewayKey(q.0, q.1) ==> p == q
  }

  /** The list configures only gateways with the given ids. */
  ghost predicate Within(configs: Configs, ids: Ids) {
    forall i :: 0 <= i < |configs| && configs[i].gatewayID.Some? ==>
      (configs[i].tenantID, configs[i].gatewayID.value) in ids
  }

  /** Any list over the ids, asked for any of the ids, is answered as by a scan. */
  ghost predicate IndexIsFaithful(ids: Ids, defaultMs: int) {
    forall configs: Configs, p :: Within(configs, ids) && p in ids ==>
      Lookup(Index(configs), defaultMs, p.0, p.1) == Scan(configs, defaultMs, p.0, p.1)
  }

  /** The timeout of one gateway is handed out for another one with the same key. */
  lemma CollidingKeysMislead(p: (string, string), q: (string, string), defaultMs: int)
    requires p != q && GatewayKey(p.0, p.1) == GatewayKey(q.0, q.1)
    ensures var configs := [AlertConfig(p.0, Some(p.1), defaultMs + 1)];
            && Lookup(Index(configs), defaultMs, q.0, q.1) == defaultMs + 1
            && Scan(configs, defaultMs, q.0, q.1) == defaultMs
  {
    var c := AlertConfig(p.0, Some(p.1), defaultMs + 1);
    assert Index([c]) == Insert(Index([]), c);
    assert LastForGateway([c], q.0, q.1) == LastForGateway([], q.0, q.1);
    assert LastForTenant([c], q.0) == LastForTenant([], q.0);
  }

  lemma FaithfulExactlyWhenInjective(ids: Ids, defaultMs: int)
    ensures IndexIsFaithful(ids, defaultMs) <==> KeysInjective(ids)
  {
    if KeysInjective(ids) {
      forall configs: Configs, p | Within(configs, ids) && p in ids
        ensures Lookup(Index(configs), defaultMs, p.0, p.1) == Scan(configs, defaultMs, p.0, p.1)
      {
        assert NoCollision(configs, p.0, p.1) by {
          forall i | 0 <= i < |configs| && configs[i].gatewayID.Some?
                     && GatewayKey(configs[i].tenantID, configs[i].gatewayID.value) == GatewayKey(p.0, p.1)
            ensures configs[i].tenantID == p.0 && configs[i].gatewayID.value == p.1
          {
            assert (configs[i].tenantID, configs[i].gatewayID.value) in ids;
          }
        }
        LookupIsScan(configs, defaultMs, p.0, p.1);
      }
    } else {
      var p, q :| p in ids && q in ids && GatewayKey(p.0, p.1) == GatewayKey(q.0, q.1) && p != q;
      var configs := [AlertConfig(p.0, Some(p.1), defaultMs + 1)];
      CollidingKeysMislead(p, q, defaultMs);
      assert Within(configs, ids);
    }
  }

  /** Two ways to split a key: the longer tenant id and the longer gateway id hold the other one's separator. */
  lemma KeySplits(a: string, b: string, c: string, d: string)
    requires GatewayKey(a, b) == GatewayKey(c, d)
    ensures |a| == |c| ==> a == c && b == d
    ensures |a| < |c| ==> '/' in c && '/' in b
  {
    var k := GatewayKey(a, b);
    assert a == k[..|a|] && b == k[|a| + 1..] && c == k[..|c|] && d == k[|c| + 1..];
    assert k[|a|] == '/' && k[|c|] == '/';
    if |a| < |c| {
      assert c[|a|] == '/' && b[|c| - |a| - 1] == '/';
    }
  }

  /** Keys cannot collide when no tenant id contains the separator, nor when no gateway id does. */
  lemma SlashFreeIdsAreInjective(ids: Ids)
    requires (forall p :: p in ids ==> '/' !in p.0) || (forall p :: p in ids ==> '/' !in p.1)
    ensures KeysInjective(ids)
  {
    forall p, q | p in ids && q in ids && GatewayKey(p.0, p.1) == GatewayKey(q.0, q.1) ensures p == q {
      KeySplits(p.0, p.1, q.0, q.1);
      KeySplits(q.0, q.1, p.0, p.1);
    }
  }

  lemma SlashesCollide()
    ensures !KeysInjective({("a/b", "c"), ("a", "b/c")})
  {
    var p, q := ("a/b", "c"), ("a", "b/c");
    assert GatewayKey(p.0, p.1) == "a/b/c" == GatewayKey(q.0, q.1);
    assert |p.0| != |q.0|;
  }

  // ------------------------------------------------------------------------------------------------
  // Growing waits
  // ------------------------------------------------------------------------------------------------

  /** One doubling of the wait, in 64-bit arithmetic, capped. */
  function NextDelay(delay: int, maxBackoff: int): int {
    var doubled := Wrap64(delay * 2);
    if doubled > maxBackoff then maxBackoff else doubled
  }

  /** The k-th wait of the initial fetch, whatever the durations are. */
  function WaitNo(initial: int, maxBackoff: int, k: nat): int {
    if k == 0 then initial else NextDelay(WaitNo(initial, maxBackoff, k - 1), maxBackoff)
  }

  /** The closed form the waits are meant to follow. */
  function Delay(initial: int, maxBackoff: int, k: nat): int {
    if k == 0 then initial else Min(initial * Pow2(k), maxBackoff)
  }

  /** Durations whose doubling never leaves 64 bits. */
  predicate SafeDelays(initial: int, maxBackoff: int) {
    0 <= initial && 0 <= maxBackoff && IsInt64(2 * initial) && IsInt64(2 * maxBackoff)
  }

  /** While the doubled wait fits, the next wait follows the closed form. */
  lemma DelayDoubles(initial: int, maxBackoff: int, k: nat)
    requires 0 <= initial && 0 <= maxBackoff && IsInt64(2 * Delay(initial, maxBackoff, k))
    ensures NextDelay(Delay(initial, maxBackoff, k), maxBackoff) == Delay(initial, maxBackoff, k + 1)
  {
    assert initial * Pow2(k + 1) == 2 * (initial * Pow2(k)) >= 0;
    if k == 0 { assert Pow2(1) == 2; }
  }

  lemma {:induction false} ClosedForm(initial: int, maxBackoff: int, k: nat)
    requires SafeDelays(initial, maxBackoff)
    ensures WaitNo(initial, maxBackoff, k) == Delay(initial, maxBackoff, k)
  {
    if k > 0 {
      ClosedForm(initial, maxBackoff, k - 1);
      DelayDoubles(initial, maxBackoff, k - 1);
    }
  }

  /** Doubling a positive number passes any bound. */
  lemma {:induction false} DoublingPasses(initial: int, bound: int) returns (k: nat)
    requires initial > 0
    ensures initial * Pow2(k) >= bound
    decreases bound - initial
  {
    if initial >= bound {
      k := 0;
      assert initial * Pow2(0) == initial;
    } else {
      var n := DoublingPasses(2 * initial, bound);
      k := n + 1;
      assert initial * Pow2(n + 1) == 2 * initial * Pow2(n);
    }
  }

  /** A wait of at least half the range of a duration is followed by a negative one. */
  lemma DoublingOverflows(delay: int, maxBackoff: int)
    requires TWO_63 <= 2 * delay && IsInt64(delay) && 0 <= maxBackoff
    ensures NextDelay(delay, maxBackoff) < 0
  {
  }

  lemma {:induction false} ZeroStaysZero(maxBackoff: int, k: nat)
    requires 0 <= maxBackoff
    ensures WaitNo(0, maxBackoff, k) == Delay(0, maxBackoff, k) == 0
  {
    if k > 0 { ZeroStaysZero(maxBackoff, k - 1); }
  }

  /** Unsafe durations have a wait in their closed form that cannot be doubled. */
  lemma LongWait(initial: int, maxBackoff: int) returns (k: nat)
    requires 0 < initial && 0 <= maxBackoff && IsInt64(initial) && IsInt64(maxBackoff)
    requires !SafeDelays(initial, maxBackoff)
    ensures TWO_63 <= 2 * Delay(initial, maxBackoff, k) && IsInt64(Delay(initial, maxBackoff, k))
  {
    if TWO_63 <= 2 * initial {
      k := 0;
    } else {
      k := DoublingPasses(initial, maxBackoff);
      assert k > 0 by { assert Pow2(0) == 1; }
    }
  }

  /** For non-negative durations, the waits follow the closed form exactly if there is nothing to double or it fits. */
  lemma ClosedFormExactlyWhenSafe(initial: int, maxBackoff: int)
    requires 0 <= initial && 0 <= maxBackoff && IsInt64(initial) && IsInt64(maxBackoff)
    ensures (forall k: nat :: WaitNo(initial, maxBackoff, k) == Delay(initial, maxBackoff, k)) <==>
            initial == 0 || SafeDelays(initial, maxBackoff)
  {
    if initial == 0 {
      forall k: nat ensures WaitNo(0, maxBackoff, k) == Delay(0, maxBackoff, k) { ZeroStaysZero(maxBackoff, k); }
    } else if SafeDelays(initial, maxBackoff) {
      forall k: nat ensures WaitNo(initial, maxBackoff, k) == Delay(initial, maxBackoff, k) {
        ClosedForm(initial, maxBackoff, k);
      }
    } else {
      var k := LongWait(initial, maxBackoff);
      DoublingOverflows(Delay(initial, maxBackoff, k), maxBackoff);
      assert initial * Pow2(k + 1) >= 0;
      assert WaitNo(initial, maxBackoff, k) == Delay(initial, maxBackoff, k) ==>
          WaitNo(initial, maxBackoff, k + 1) < 0 <= Delay(initial, maxBackoff, k + 1);
    }
  }

  ghost predicate AreWaits(waits: seq<int>, initial: int, maxBackoff: int) {
    forall k: nat :: k < |waits| ==> waits[k] == WaitNo(initial, maxBackoff, k)
  }

  lemma WaitStarts(initial: int, maxBackoff: int)
    ensures WaitNo(initial, maxBackoff, 0) == initial
  {
  }

  lemma NextWait(initial: int, maxBackoff: int, k: nat)
    ensures WaitNo(initial, maxBackoff, k + 1) == NextDelay(WaitNo(initial, maxBackoff, k), maxBackoff)
  {
  }

  lemma Distributes(a: int, b: int, c: int)
    ensures a * (b + c) == a * b + a * c
  {
  }

  /** Waits that double add up to less than the next one. */
  lemma {:induction false} TotalDelayDoubling(initial: int, maxBackoff: int, waits: seq<int>)
    requires SafeDelays(initial, maxBackoff) && AreWaits(waits, initial, maxBackoff)
    ensures Sum(waits) <= initial * (Pow2(|waits|) - 1)
  {
    if waits == [] {
      assert initial * (Pow2(0) - 1) == 0;
    } else {
      var n := |waits| - 1;
      TotalDelayDoubling(initial, maxBackoff, waits[..n]);
      Distributes(initial, Pow2(n) - 1, Pow2(n));
      ClosedForm(initial, maxBackoff, n);
      assert n == 0 ==> initial * Pow2(n) == initial;
      assert waits[n] <= initial * Pow2(n);
    }
  }

  lemma WaitCapped(initial: int, maxBackoff: int, k: nat)
    requires k > 0
    ensures WaitNo(initial, maxBackoff, k) <= maxBackoff
  {
  }

  /** Once the cap holds, every wait costs at most the cap. */
  lemma {:induction false} TotalDelayCapped(initial: int, maxBackoff: int, waits: seq<int>)
    requires AreWaits(waits, initial, maxBackoff) && waits != []
    ensures Sum(waits) <= initial + (|waits| - 1) * maxBackoff
  {
    hide WaitNo, Wrap64;
    var n := |waits| - 1;
    if n == 0 {
      assert waits == [] + [initial] by { WaitStarts(initial, maxBackoff); }
      SumSnoc([], initial);
    } else {
      TotalDelayCapped(initial, maxBackoff, waits[..n]);
      Distributes(maxBackoff, n - 1, 1);
      WaitCapped(initial, maxBackoff, n);
    }
  }

  // ------------------------------------------------------------------------------------------------
  // The client, and what a fetch through it waits
  // ------------------------------------------------------------------------------------------------

  function Times(n: nat, x: int): int { n * x }

  lemma TimesZero(x: int)
    ensures Times(0, x) == 0
  {
  }

  lemma TimesNext(n: nat, x: int)
    ensures Times(n + 1, x) == Times(n, x) + x
  {
  }

  lemma TimesGrows(m: nat, n: nat, x: int)
    requires m <= n && x >= 0
    ensures Times(m, x) <= Times(n, x)
  {
  }

  lemma {:induction false} ScheduleIsNatural(backoff: seq<int>, n: nat)
    requires backoff != [] && forall i :: 0 <= i < |backoff| ==> backoff[i] >= 0
    ensures RR.ScheduleTotal(backoff, n) >= 0
  {
    if n > 0 { ScheduleIsNatural(backoff, n - 1); }
  }

  /** The longest time an initial fetch may wait, between its fetches and, `perFetch` at most, inside each. */
  function WaitingBound(maxRetries: int, initial: int, maxBackoff: int, perFetch: int): int {
    if maxRetries <= 0 then 0 else initial + (maxRetries - 1) * maxBackoff + maxRetries * perFetch
  }

  /** What up to `maxRetries` fetches wait altogether. */
  lemma TotalWaiting(initial: int, maxBackoff: int, waits: seq<int>, fetches: nat, maxRetries: int, perFetch: int,
                     rrWaiting: int)
    requires 0 <= initial && 0 <= maxBackoff && 0 <= perFetch && AreWaits(waits, initial, maxBackoff)
    requires |waits| <= fetches <= Max(maxRetries, 0) && rrWaiting <= Times(fetches, perFetch)
    ensures Sum(waits) + rrWaiting <= WaitingBound(maxRetries, initial, maxBackoff, perFetch)
  {
    var n := Max(maxRetries, 0);
    TimesGrows(fetches, n, perFetch);
    if waits != [] {
      TotalDelayCapped(initial, maxBackoff, waits);
      TimesGrows(|waits| - 1, n - 1, maxBackoff);
    } else if n > 0 {
      TimesGrows(0, n - 1, maxBackoff);
    }
  }

  /** The request-reply client the cache fetches through: its retry policy, and the decoding of a reply. */
  datatype Client<!T> = Client(maxRetries: nat, backoff: seq<int>, decode: T -> Option<Configs>) {
    predicate Sane() {
      backoff != [] && forall i :: 0 <= i < |backoff| ==> backoff[i] >= 0
    }

    /** The longest time one fetch waits between its requests. */
    function Patience(): int
      requires backoff != []
    {
      RR.ScheduleTotal(backoff, maxRetries)
    }

    /** The bounds on requests and waiting of an initial fetch with so many fetches. */
    ghost predicate Bounded(initial: int, maxBackoff: int, waits: seq<int>, fetches: nat, limit: int, rrWaiting: int)
      requires backoff != []
    {
      && Times(fetches, maxRetries + 1) <= Times(Max(limit, 0), maxRetries + 1)
      && (0 <= initial && 0 <= maxBackoff ==>
            Sum(waits) + rrWaiting <= WaitingBound(limit, initial, maxBackoff, Patience()))
    }

    lemma Bounds(initial: int, maxBackoff: int, waits: seq<int>, fetches: nat, limit: int, rrWaiting: int)
      requires Sane() && AreWaits(waits, initial, maxBackoff)
      requires |waits| <= fetches <= Max(limit, 0) && rrWaiting <= Times(fetches, Patience())
      ensures Bounded(initial, maxBackoff, waits, fetches, limit, rrWaiting)
    {
      TimesGrows(fetches, Max(limit, 0), maxRetries + 1);
      ScheduleIsNatural(backoff, maxRetries);
      if 0 <= initial && 0 <= maxBackoff {
        TotalWaiting(initial, maxBackoff, waits, fetches, limit, Patience(), rrWaiting);
      }
    }
  }

  /** A fetch yields the list that the first reply decodes to, and fails if there is no reply or it does not decode. */
  ghost predicate Fetched<T(!new)>(client: Client<T>, net: RR.Network<T>, r: Result<Configs>) {
    forall configs :: r == Ok(configs) <==>
      exists k: nat :: k <= client.maxRetries && RR.Attempted(net, k)
                       && net.reply(k).Some? && client.decode(net.reply(k).value) == Some(configs)
  }

  /** Every refresh got what its network yields. */
  ghost predicate Answers<T(!new)>(client: Client<T>, nets: nat -> RR.Network<T>, outcomes: seq<Result<Configs>>) {
    forall k: nat :: k < |outcomes| ==> Fetched(client, nets(k), outcomes[k])
  }

  ghost predicate FailedUntil(outcomes: seq<Result<Configs>>, waited: nat -> bool, n: nat) {
    n <= |outcomes| && forall k: nat :: k < n ==> outcomes[k].Failed? && waited(k)
  }

  /** One fetch of the configuration list. */
  method FetchAlertConfigs<T(!new)>(client: Client<T>, net: RR.Network<T>)
    returns (r: Result<Configs>, requests: nat, waiting: int)
    requires client.Sane()
    ensures Fetched(client, net, r)
    ensures requests <= client.maxRetries + 1
    ensures waiting <= client.Patience()
  {
    var outcome, waits;
    outcome, requests, waits := RR.RequestWithRetry(client.maxRetries, client.backoff, net);
    waiting := Sum(waits);
    RR.WaitingIsBounded(waits, client.backoff, client.maxRetries);
    match outcome
    case Replied(body) =>
      ghost var k: nat :| k <= client.maxRetries && RR.Attempted(net, k) && net.reply(k) == Some(body);
      var configs := client.decode(body);
      r := if configs.Some? then Ok(configs.value) else Failed;
      forall j: nat | RR.Attempted(net, j) && net.reply(j).Some? ensures j == k {
        RR.OneReply(net, j, k);
      }
    case Cancelled =>
      ghost var k: nat :| k < client.maxRetries && RR.Attempted(net, k) && net.reply(k).None? && !net.slept(k);
      r := Failed;
      forall j: nat | RR.Attempted(net, j) ensures net.reply(j).None? {
        assert j > k ==> net.slept(k);
        assert j < k ==> net.reply(j).None?;
      }
    case Exhausted =>
      r := Failed;
      forall j: nat | j <= client.maxRetries ensures net.reply(j).None? {
        assert j < client.maxRetries ==> net.reply(j).None?;
      }
  }

  /** With the production policy a fetch sends at most four requests and waits at most seven seconds inside them. */
  lemma ProductionBound()
    ensures RR.MAX_RETRIES + 1 == 4 && RR.ScheduleTotal(RR.BACKOFF, RR.MAX_RETRIES) == 7_000_000_000
  {
    assert RR.ScheduleTotal(RR.BACKOFF, 1) == 1_000_000_000;
    assert RR.ScheduleTotal(RR.BACKOFF, 2) == 3_000_000_000;
  }

  // ------------------------------------------------------------------------------------------------
  // The cache
  // ------------------------------------------------------------------------------------------------

  /** The index of the latest successful response, or the empty one. */
  function Visible(history: seq<Result<Configs>>): Snapshot {
    if history == [] then EMPTY
    else
      match history[|history| - 1]
      case Ok(configs) => Index(configs)
      case Failed => Visible(history[..|history| - 1])
  }

  lemma VisibleSnoc(history: seq<Result<Configs>>, response: Result<Configs>)
    ensures Visible(history + [response]) == if response.Ok? then Index(response.value) else Visible(history)
  {
    assert (history + [response])[..|history|] == history;
  }

  function Failures(responses: seq<Result<Configs>>): nat {
    if responses == [] then 0
    else Failures(responses[..|responses| - 1]) + if responses[|responses| - 1].Failed? then 1 else 0
  }

  /** What a lookup would answer that loaded the snapshot once for each of its indexes. */
  function LookupTwice(s: Snapshot, t: Snapshot, defaultMs: int, tenantID: string, gatewayID: string): int {
    if GatewayKey(tenantID, gatewayID) in s.byGateway then s.byGateway[GatewayKey(tenantID, gatewayID)].timeoutMs
    else if tenantID in t.byTenant then t.byTenant[tenantID].timeoutMs
    else defaultMs
  }

  /** The single load matters: with two of them, a refresh in between can make up an answer neither response gives. */
  lemma TwoLoadsMixResponses(defaultMs: int, tenantID: string, gatewayID: string) returns (r1: Configs, r2: Configs)
    ensures LookupTwice(Index(r1), Index(r2), defaultMs, tenantID, gatewayID)
            !in {Lookup(Index(r1), defaultMs, tenantID, gatewayID), Lookup(Index(r2), defaultMs, tenantID, gatewayID)}
  {
    var general := AlertConfig(tenantID, None, defaultMs + 1);
    var special := AlertConfig(tenantID, Some(gatewayID), defaultMs + 2);
    r1, r2 := [], [general, special];
    assert r2[..1] == [general] && [general][..0] == [];
    assert Index([general]) == Insert(EMPTY, general) && Index(r2) == Insert(Index([general]), special);
  }

  datatype FetchEnd = Loaded | Cancelled | GaveUp

  class AlertConfigCache {
    const defaultTimeoutMs: int
    var snapshot: Snapshot
    var refreshErrors: nat
    ghost var history: seq<Result<Configs>>

    ghost predicate Valid()
      reads this
    {
      snapshot == Visible(history)
    }

    constructor (defaultTimeoutMs: int)
      ensures Valid() && history == [] && this.defaultTimeoutMs == defaultTimeoutMs && refreshErrors == 0
    {
      this.defaultTimeoutMs, snapshot, refreshErrors, history := defaultTimeoutMs, EMPTY, 0, [];
    }

    /** Reads the snapshot once and answers from it. */
    method TimeoutFor(tenantID: string, gatewayID: string) returns (ms: int)
      requires Valid()
      ensures ms == Lookup(Visible(history), defaultTimeoutMs, tenantID, gatewayID)
    {
      var snap := snapshot;
      var key := tenantID + "/" + gatewayID;
      if key in snap.byGateway {
        return snap.byGateway[key].timeoutMs;
      }
      if tenantID in snap.byTenant {
        return snap.byTenant[tenantID].timeoutMs;
      }
      return defaultTimeoutMs;
    }

    /** Builds a new snapshot from a response and swaps it in; a failed fetch changes nothing. */
    method Refresh(response: Result<Configs>) returns (ok: bool)
      requires Valid()
      modifies this`snapshot, this`history
      ensures Valid() && history == old(history) + [response] && ok == response.Ok?
    {
      VisibleSnoc(history, response);
      history := history + [response];
      if response.Failed? {
        return false;
      }
      var configs := response.value;
      var byGateway, byTenant := map[], map[];
      for i := 0 to |configs|
        invariant Snapshot(byGateway, byTenant) == Index(configs[..i])
      {
        assert configs[..i + 1][..i] == configs[..i];
        var c := configs[i];
        if c.gatewayID.Some? {
          byGateway := byGateway[c.tenantID + "/" + c.gatewayID.value := c];
        } else {
          byTenant := byTenant[c.tenantID := c];
        }
      }
      assert configs[..|configs|] == configs;
      snapshot := Snapshot(byGateway, byTenant);
      return true;
    }

    /** The refresh loop after the initial fetch: one refresh a tick, failures counted. */
    method RefreshOnTicks(responses: seq<Result<Configs>>)
      requires Valid()
      modifies this`snapshot, this`history, this`refreshErrors
      ensures Valid() && history == old(history) + responses
      ensures refreshErrors == old(refreshErrors) + Failures(responses)
    {
      for i := 0 to |responses|
        invariant Valid() && history == old(history) + responses[..i]
        invariant refreshErrors == old(refreshErrors) + Failures(responses[..i])
      {
        assert responses[..i + 1] == responses[..i] + [responses[i]];
        assert responses[..i + 1][..i] == responses[..i];
        var ok := Refresh(responses[i]);
        if !ok {
          refreshErrors := refreshErrors + 1;
        }
      }
      assert responses[..|responses|] == responses;
    }

    /**
     A lookup in steps, with any number of refreshes before its load of the snapshot and after each of its steps. The
     answer is that of a single response, the one visible at the load.
     */
    method TimeoutForAmidRefreshes(tenantID: string, gatewayID: string, before: seq<Result<Configs>>,
                                   loaded: seq<Result<Configs>>, missed: seq<Result<Configs>>,
                                   found: seq<Result<Configs>>)
      returns (ms: int)
      requires Valid()
      modifies this`snapshot, this`history, this`refreshErrors
      ensures Valid() && old(history) + before + loaded <= history
      ensures ms == Lookup(Visible(old(history) + before), defaultTimeoutMs, tenantID, gatewayID)
    {
      RefreshOnTicks(before);
      var snap := snapshot;
      RefreshOnTicks(loaded);
      var key := tenantID + "/" + gatewayID;
      if key in snap.byGateway {
        RefreshOnTicks(found);
        return snap.byGateway[key].timeoutMs;
      }
      RefreshOnTicks(missed);
      if tenantID in snap.byTenant {
        RefreshOnTicks(found);
        return snap.byTenant[tenantID].timeoutMs;
      }
      return defaultTimeoutMs;
    }

    /**
     The initial fetch: up to `maxRetries` refreshes with a wait after every failed one, the last included.
     `nets(k)` is the network refresh `k` meets; `waited(k)` says that wait `k` was not cut short. Besides what it
     leaves in the cache, the method reports the waits, the requests sent and the time waited inside them.
     */
    method FetchWithBackoff<T(!new)>(maxRetries: int, initialBackoff: int, maxBackoff: int,
                                     client: Client<T>, nets: nat -> RR.Network<T>, waited: nat -> bool)
      returns (end: FetchEnd, outcomes: seq<Result<Configs>>, waits: seq<int>, requests: nat, rrWaiting: int)
      requires Valid() && client.Sane()
      modifies this`snapshot, this`history, this`refreshErrors
      ensures Valid() && history == old(history) + outcomes
      ensures Answers(client, nets, outcomes)
      ensures AreWaits(waits, initialBackoff, maxBackoff)
      ensures match end
              case Loaded => outcomes != [] && |waits| == |outcomes| - 1 && outcomes[|outcomes| - 1].Ok?
                             && FailedUntil(outcomes, waited, |waits|)
              case Cancelled => outcomes != [] && |waits| == |outcomes| && outcomes[|outcomes| - 1].Failed?
                                && !waited(|waits| - 1) && FailedUntil(outcomes, waited, |waits| - 1)
              case GaveUp => |outcomes| == |waits| == Max(maxRetries, 0) && FailedUntil(outcomes, waited, |waits|)
      ensures refreshErrors == old(refreshErrors) + if end == Loaded then |outcomes| - 1 else |outcomes|
      ensures |outcomes| <= Max(maxRetries, 0)
      ensures requests <= Times(|outcomes|, client.maxRetries + 1) <= Times(Max(maxRetries, 0), client.maxRetries + 1)
      ensures rrWaiting <= Times(|outcomes|, client.Patience())
      ensures 0 <= initialBackoff && 0 <= maxBackoff ==>
                Sum(waits) + rrWaiting <= WaitingBound(maxRetries, initialBackoff, maxBackoff, client.Patience())
    {
      hide Times, Fetched, WaitNo, Wrap64, Visible, Sum, WaitingBound, RR.ScheduleTotal;
      var delay := initialBackoff;
      outcomes, waits, requests, rrWaiting := [], [], 0, 0;
      WaitStarts(initialBackoff, maxBackoff);
      TimesZero(client.maxRetries + 1);
      TimesZero(client.Patience());
      client.Bounds(initialBackoff, maxBackoff, waits, 0, maxRetries, rrWaiting);
      while |outcomes| < maxRetries
        invariant Valid() && history == old(history) + outcomes
        invariant |waits| == |outcomes| <= Max(maxRetries, 0)
        invariant Answers(client, nets, outcomes)
        invariant delay == WaitNo(initialBackoff, maxBackoff, |outcomes|)
        invariant AreWaits(waits, initialBackoff, maxBackoff)
        invariant FailedUntil(outcomes, waited, |outcomes|)
        invariant refreshErrors == old(refreshErrors) + |outcomes|
        invariant requests <= Times(|outcomes|, client.maxRetries + 1)
        invariant rrWaiting <= Times(|outcomes|, client.Patience())
        invariant client.Bounded(initialBackoff, maxBackoff, waits, |outcomes|, maxRetries, rrWaiting)
        decreases maxRetries - |outcomes|
      {
        var attempt := |outcomes|;
        var response, n, waiting := FetchAlertConfigs(client, nets(attempt));
        requests, rrWaiting := requests + n, rrWaiting + waiting;
        TimesNext(attempt, client.maxRetries + 1);
        TimesNext(attempt, client.Patience());
        var ok := Refresh(response);
        outcomes := outcomes + [response];
        client.Bounds(initialBackoff, maxBackoff, waits, |outcomes|, maxRetries, rrWaiting);
        if ok {
          return Loaded, outcomes, waits, requests, rrWaiting;
        }
        refreshErrors := refreshErrors + 1;
        waits := waits + [delay];
        client.Bounds(initialBackoff, maxBackoff, waits, |outcomes|, maxRetries, rrWaiting);
        if !waited(attempt) {
          return Cancelled, outcomes, waits, requests, rrWaiting;
        }
        NextWait(initialBackoff, maxBackoff, attempt);
        delay := Wrap64(delay * 2);
        if delay > maxBackoff {
          delay := maxBackoff;
        }
      }
      return GaveUp, outcomes, waits, requests, rrWaiting;
    }
  }

  /** What is visible never depends on failed refreshes, and on nothing before the latest successful one. */
  lemma {:induction false} VisibleIsLatestSuccess(history: seq<Result<Configs>>, i: nat)
    requires i < |history| && history[i].Ok?
    requires forall j :: i < j < |history| ==> history[j].Failed?
    ensures Visible(history) == Index(history[i].value)
  {
    if i < |history| - 1 {
      VisibleIsLatestSuccess(history[..|history| - 1], i);
    }
  }

  /** What the cache answers is what a scan of the latest successful response says. */
  lemma AnswersAsScan(history: seq<Result<Configs>>, i: nat, defaultMs: int, tenantID: string, gatewayID: string)
    requires i < |history| && history[i].Ok? && NoCollision(history[i].value, tenantID, gatewayID)
    requires forall j :: i < j < |history| ==> history[j].Failed?
    ensures Lookup(Visible(history), defaultMs, tenantID, gatewayID) ==
            Scan(history[i].value, defaultMs, tenantID, gatewayID)
  {
    VisibleIsLatestSuccess(history, i);
    LookupIsScan(history[i].value, defaultMs, tenantID, gatewayID);
  }

  lemma {:induction false} VisibleIsEmptyWithoutSuccess(history: seq<Result<Configs>>)
    requires forall j :: 0 <= j < |history| ==> history[j].Failed?
    ensures Visible(history) == EMPTY
  {
    if history != [] {
      VisibleIsEmptyWithoutSuccess(history[..|history| - 1]);
    }
  }
}
