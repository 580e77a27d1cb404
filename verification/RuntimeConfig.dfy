/** Whether the instances that serve a queue agree on its configuration. */
module RuntimeConfig {
  import opened Prelude

  datatype Mode = HardReserved | Weighted

  /** A 64-bit float as far as `==` goes: NaN equals nothing, itself included. */
  datatype Float = Number(value: real) | Infinite(negative: bool) | NaN

  datatype RateLimit = RateLimit(maxRate: Float, burst: nat)

  datatype Config = Config(
    mode: Mode,
    maxWorkers: Option<nat>,
    minWorkers: Option<nat>,
    weight: Option<nat>,
    globalMaxWorkers: Option<nat>,
    pollIntervalMs: nat,
    deadlineDurationSecs: nat,
    priorityAgingIntervalSecs: nat,
    claimers: Option<nat>,
    claimBatchSize: Option<nat>,
    dlqEnabled: Option<bool>,
    rateLimit: Option<RateLimit>)

  predicate SameRate(a: Option<RateLimit>, b: Option<RateLimit>) {
    match (a, b)
    case (None, None) => true
    case (Some(x), Some(y)) => !x.maxRate.NaN? && x.maxRate == y.maxRate && x.burst == y.burst
    case _ => false
  }

  /** `queue_runtime_configs_match`; claimers and batch size are not compared. */
  predicate Match(a: Config, b: Config) {
    && a.mode == b.mode
    && a.maxWorkers == b.maxWorkers
    && a.minWorkers == b.minWorkers
    && a.weight == b.weight
    && a.globalMaxWorkers == b.globalMaxWorkers
    && a.pollIntervalMs == b.pollIntervalMs
    && a.deadlineDurationSecs == b.deadlineDurationSecs
    && a.priorityAgingIntervalSecs == b.priorityAgingIntervalSecs
    && SameRate(a.rateLimit, b.rateLimit)
    && (a.dlqEnabled.None? || b.dlqEnabled.None? || a.dlqEnabled == b.dlqEnabled)
  }

  predicate HasNaN(c: Config) {
    c.rateLimit.Some? && c.rateLimit.value.maxRate.NaN?
  }

  /** The configuration without what is not compared. */
  function Compared(c: Config): Config {
    c.(claimers := None, claimBatchSize := None, dlqEnabled := None)
  }

  /** Two configurations match exactly if they are equal up to claimers and batch size, know
      nothing different about `dlq_enabled`, and hold no NaN. */
  lemma MatchIff(a: Config, b: Config)
    ensures Match(a, b) <==>
              !HasNaN(a) && !(a.dlqEnabled.Some? && b.dlqEnabled.Some? && a.dlqEnabled != b.dlqEnabled)
              && Compared(a) == Compared(b)
    ensures !HasNaN(a) && a.dlqEnabled == b.dlqEnabled ==>
              (Match(a, b) <==> a.(claimers := b.claimers, claimBatchSize := b.claimBatchSize) == b)
  {
  }

  /** Matching is neither reflexive nor transitive. */
  lemma MatchIsIrregular(a: Config)
    requires a.rateLimit.None? && a.dlqEnabled.None?
    ensures !Match(a.(rateLimit := Some(RateLimit(NaN, 0))), a.(rateLimit := Some(RateLimit(NaN, 0))))
    ensures Match(a.(dlqEnabled := Some(true)), a) && Match(a, a.(dlqEnabled := Some(false)))
    ensures !Match(a.(dlqEnabled := Some(true)), a.(dlqEnabled := Some(false)))
  {
  }

  /** The first config from `i` on that knows `dlq_enabled` and matches `first`. */
  function Find(configs: seq<Config>, first: Config, i: nat): (r: Option<Config>)
    requires i <= |configs|
    ensures r.Some? ==> r.value.dlqEnabled.Some? && Match(first, r.value) && r.value in configs[i..]
    ensures r.None? ==> forall c :: c in configs[i..] ==> !(c.dlqEnabled.Some? && Match(first, c))
    decreases |configs| - i
  {
    if i == |configs| then None
    else
      assert configs[i..] == [configs[i]] + configs[i+1..];
      if configs[i].dlqEnabled.Some? && Match(first, configs[i]) then Some(configs[i]) else Find(configs, first, i + 1)
  }

  /** `representative_queue_runtime_config` */
  function Representative(configs: seq<Config>): Option<Config> {
    if configs == [] then None
    else if configs[0].dlqEnabled.Some? then Some(configs[0])
    else Some(Find(configs, configs[0], 0).GetOr(configs[0]))
  }

  /** The one-pass check of `queue_runtime_summary`. */
  method ConfigMismatch(configs: seq<Config>) returns (mismatch: bool)
    ensures mismatch <==> exists i, j :: 0 <= i < j < |configs| && !Match(configs[i], configs[j])
  {
    var config := Representative(configs);
    mismatch := false;
    var k := 1;
    while k < |configs| && !mismatch
      invariant 1 <= k
      invariant mismatch <==>
                (configs != [] && exists j :: 1 <= j < k && j < |configs| && !Match(config.value, configs[j]))
    {
      mismatch := config.Some? && !Match(config.value, configs[k]);
      k := k + 1;
    }
    if configs != [] {
      RepresentativeSuffices(configs);
      RepresentativeIsOne(configs);
    }
  }

  /** Some candidate other than the first fails to match the representative. */
  ghost predicate SomeDiffers(configs: seq<Config>)
    requires configs != []
  {
    exists j :: 1 <= j < |configs| && !Match(Representative(configs).value, configs[j])
  }

  /** If all match the representative, any two match: what one of them leaves open about
      `dlq_enabled`, the representative settles. */
  lemma RepresentativeSuffices(configs: seq<Config>)
    requires configs != []
    ensures !SomeDiffers(configs) ==> forall i, j :: 0 <= i < j < |configs| ==> Match(configs[i], configs[j])
  {
    var rep := Representative(configs).value;
    assert configs[0..] == configs;
    if !SomeDiffers(configs) {
      forall i, j | 0 <= i < j < |configs| ensures Match(configs[i], configs[j]) {
        assert Match(rep, configs[j]);
        assert i > 0 ==> Match(rep, configs[i]);
      }
    }
  }

  /** The representative is a candidate, so a candidate that does not match it is one
      of two that do not match. */
  lemma RepresentativeIsOne(configs: seq<Config>)
    requires configs != []
    ensures SomeDiffers(configs) ==> exists i, j :: 0 <= i < j < |configs| && !Match(configs[i], configs[j])
  {
    var rep := Representative(configs).value;
    assert configs[0..] == configs;
    if SomeDiffers(configs) {
      var j :| 1 <= j < |configs| && !Match(rep, configs[j]);
      var r :| 0 <= r < |configs| && configs[r] == rep;
      if r < j {
        assert !Match(configs[r], configs[j]);
      } else if j < r {
        assert !Match(configs[j], configs[r]);
      } else {
        assert !Match(configs[0], configs[j]);
      }
    }
  }

  /** Two of them, at different places, do not match. */
  ghost predicate Clash(m: multiset<Config>) {
    exists x, y :: x in m && y in m - multiset{x} && !Match(x, y)
  }

  lemma TwoPlaces<T>(s: seq<T>, i: nat, j: nat)
    requires i < j < |s|
    ensures s[i] in multiset(s) && s[j] in multiset(s) - multiset{s[i]}
  {
    assert s == s[..i] + [s[i]] + s[i+1..];
    assert s[j] in s[i+1..];
  }

  lemma PlacesOf<T>(s: seq<T>, x: T, y: T) returns (i: nat, j: nat)
    requires x in multiset(s) && y in multiset(s) - multiset{x}
    ensures i < |s| && j < |s| && i != j && s[i] == x && s[j] == y
  {
    i :| i < |s| && s[i] == x;
    assert s == s[..i] + [s[i]] + s[i+1..];
    if y in s[..i] {
      j :| j < i && s[j] == y;
    } else {
      assert y in multiset(s[i+1..]);
      j :| i < j < |s| && s[j] == y;
    }
  }

  /** The answer depends on which configurations were reported, not on their order. */
  lemma OrderIrrelevant(configs: seq<Config>)
    ensures (exists i, j :: 0 <= i < j < |configs| && !Match(configs[i], configs[j])) <==> Clash(multiset(configs))
  {
    if i, j :| 0 <= i < j < |configs| && !Match(configs[i], configs[j]) {
      TwoPlaces(configs, i, j);
    }
    if Clash(multiset(configs)) {
      var x, y :| x in multiset(configs) && y in multiset(configs) - multiset{x} && !Match(x, y);
      var i, j := PlacesOf(configs, x, y);
      assert !Match(configs[Min(i, j)], configs[Max(i, j)]);
    }
  }
}
