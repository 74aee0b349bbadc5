/**
  The other half of the key-rotation argument: with a shorter grace window some
  run lets a token outlive its key.
 */
module KeyRotationLimits {
  import opened SigningKeys
  import opened KeyRotation
  import opened Options

  lemma RunSnoc(p: Params, steps: seq<Step>, step: Step)
    ensures Run(p, steps + [step]) == Advance(p, Run(p, steps), step)
  {
    assert (steps + [step])[..|steps|] == steps;
  }

  // ---------------------------------------------------------------------
  // A short grace window is unsafe
  // ---------------------------------------------------------------------

  /** When the rotation reads its clock, so that the late token is signed on a full second. */
  function RotationTime(latencyMs: nat): nat {
    (1000 - (2 * latencyMs + CACHE_TTL_MS - 1) % 1000) % 1000
  }

  /** A replica reads the old key just before it is retired, caches it as late as the latency
      allows, and signs with the cache at its last valid millisecond. */
  function LateSigner(latencyMs: nat): seq<Step> {
    var start := RotationTime(latencyMs);
    var signedAt := start + 2 * latencyMs + CACHE_TTL_MS - 1;
    [ Boot(0), Boot(1), Tick(start), StartRotation(Some(0), 1), Tick(start + latencyMs), ReadSigner(0, 0),
      PromoteNext, RetireOld, Tick(start + 2 * latencyMs), CacheSigner(0, (0, start + latencyMs)),
      Tick(signedAt), Sign(0), Tick(signedAt + TOKEN_LIFETIME_S * 1000 - 1) ]
  }

  lemma LateSteps(latencyMs: nat)
    ensures
      var steps := LateSigner(latencyMs);
      var start := RotationTime(latencyMs);
      var signedAt := start + 2 * latencyMs + CACHE_TTL_MS - 1;
      && |steps| == 13
      && steps[6] == PromoteNext && steps[7] == RetireOld && steps[8] == Tick(start + 2 * latencyMs)
      && steps[9] == CacheSigner(0, (0, start + latencyMs)) && steps[10] == Tick(signedAt) && steps[11] == Sign(0)
      && steps[12] == Tick(signedAt + TOKEN_LIFETIME_S * 1000 - 1)
  {
    hide RotationTime;
  }

  const KEYS_AT_BOOT: Table := map[0 := KeyRow(Active, 0, Some(0), None), 1 := KeyRow(Next, 0, None, None)]

  lemma BootTwice(p: Params)
    ensures Run(p, [Boot(0), Boot(1)]) == World(0, KEYS_AT_BOOT, 2, map[0 := NO_CACHE, 1 := NO_CACHE], Idle, {})
  {
    var w := Booted(Start());
    assert Kids(map[], Active) == {} && Kids(InsertKey(map[], 0, Active, 0), Next) == {};
    assert w.table == KEYS_AT_BOOT;
    assert 0 in Kids(KEYS_AT_BOOT, Active) && 1 in Kids(KEYS_AT_BOOT, Next);
    assert [Boot(0)][..0] == [];
    assert Run(p, [Boot(0)]) == w.(replicas := map[0 := NO_CACHE]);
    RunSnoc(p, [Boot(0)], Boot(1));
    assert [Boot(0)] + [Boot(1)] == [Boot(0), Boot(1)];
  }

  lemma PrefixStep(p: Params, steps: seq<Step>, n: nat)
    requires n < |steps|
    ensures Run(p, steps[..n + 1]) == Advance(p, Run(p, steps[..n]), steps[n])
  {
    assert steps[..n + 1] == steps[..n] + [steps[n]];
    RunSnoc(p, steps[..n], steps[n]);
  }

  /** The run up to the moment the old key is read for the last time. */
  lemma LateSignerReads(p: Params)
    ensures
      var start := RotationTime(p.latencyMs);
      Run(p, LateSigner(p.latencyMs)[..6]) ==
        World(start + p.latencyMs, KEYS_AT_BOOT, 2,
              map[0 := Replica(None, {(0, start + p.latencyMs)}, map[]), 1 := NO_CACHE], Selected(Some(0), 1, start),
                  {})
  {
    BootTwice(p);
    hide Run;
    var steps := LateSigner(p.latencyMs);
    assert steps[..2] == [Boot(0), Boot(1)];
    PrefixStep(p, steps, 2);
    PrefixStep(p, steps, 3);
    PrefixStep(p, steps, 4);
    var start := RotationTime(p.latencyMs);
    var replicas := map[0 := NO_CACHE, 1 := NO_CACHE];
    assert Run(p, steps[..5]) == World(start + p.latencyMs, KEYS_AT_BOOT, 2, replicas, Selected(Some(0), 1, start), {});
    PrefixStep(p, steps, 5);
    assert OldestActive(KEYS_AT_BOOT, 0);
    assert {} + {(0, start + p.latencyMs)} == {(0, start + p.latencyMs)};
    assert replicas[0 := Replica(None, {(0, start + p.latencyMs)}, map[])]
        == map[0 := Replica(None, {(0, start + p.latencyMs)}, map[]), 1 := NO_CACHE];
  }

  /** ... and to the moment it has been retired. */
  lemma LateSignerRetires(p: Params)
    ensures
      var start := RotationTime(p.latencyMs);
      var w := Run(p, LateSigner(p.latencyMs)[..8]);
      && w.now == start + p.latencyMs
      && 0 in w.table && w.table[0].status == Retired && w.table[0].expiresAt == Some(start + p.graceMs)
      && w.replicas == map[0 := Replica(None, {(0, start + p.latencyMs)}, map[]), 1 := NO_CACHE]
  {
    LateSignerReads(p);
    hide Run, LateSigner, RotationTime, Initialized, DeleteExpired;
    LateSteps(p.latencyMs);
    var steps := LateSigner(p.latencyMs);
    PrefixStep(p, steps, 6);
    PrefixStep(p, steps, 7);
  }

  /** ... and to the moment the replica caches the retired key. */
  lemma LateSignerCaches(p: Params)
    ensures
      var cachedAt := RotationTime(p.latencyMs) + 2 * p.latencyMs;
      var w := Run(p, LateSigner(p.latencyMs)[..10]);
      && w.now == cachedAt
      && w.table == Run(p, LateSigner(p.latencyMs)[..8]).table
      && 0 in w.replicas && w.replicas[0].signer == Some((0, cachedAt))
      && 1 in w.replicas && w.replicas[1] == NO_CACHE
  {
    LateSignerRetires(p);
    hide Run, LateSigner, RotationTime, Initialized, DeleteExpired;
    LateSteps(p.latencyMs);
    var steps := LateSigner(p.latencyMs);
    PrefixStep(p, steps, 8);
    PrefixStep(p, steps, 9);
  }

  /** ... and to the end, when its last token is still unexpired. */
  lemma LateSignerSigns(p: Params)
    ensures
      var start := RotationTime(p.latencyMs);
      var signedAt := start + 2 * p.latencyMs + CACHE_TTL_MS - 1;
      var w := Run(p, LateSigner(p.latencyMs));
      && w.now == signedAt + TOKEN_LIFETIME_S * 1000 - 1
      && w.table == Run(p, LateSigner(p.latencyMs)[..8]).table
      && 1 in w.replicas && w.replicas[1] == NO_CACHE
      && Token(0, signedAt, signedAt / 1000 + TOKEN_LIFETIME_S) in w.tokens
  {
    LateSignerCaches(p);
    hide Run, LateSigner, RotationTime, Initialized, DeleteExpired;
    LateSteps(p.latencyMs);
    var steps := LateSigner(p.latencyMs);
    PrefixStep(p, steps, 10);
    PrefixStep(p, steps, 11);
    PrefixStep(p, steps, 12);
    assert steps[..13] == steps;
  }

  lemma SignedOnTheSecond(latencyMs: nat)
    ensures (RotationTime(latencyMs) + 2 * latencyMs + CACHE_TTL_MS - 1) % 1000 == 0
  {
    var rest := 2 * latencyMs + CACHE_TTL_MS - 1;
    var seconds, ms := rest / 1000, rest % 1000;
    assert RotationTime(latencyMs) == if ms == 0 then 0 else 1000 - ms;
    hide RotationTime;
    assert RotationTime(latencyMs) + rest == 1000 * if ms == 0 then seconds else seconds + 1;
  }

  lemma GraceNeeded(p: Params)
    requires !GraceSuffices(p)
    ensures !NoTokenOutlivesItsKey(Run(p, LateSigner(p.latencyMs)))
  {
    LateSignerRetires(p);
    LateSignerSigns(p);
    SignedOnTheSecond(p.latencyMs);
    hide Run, LateSigner, RotationTime;
    var w := Run(p, LateSigner(p.latencyMs));
    var signedAt := RotationTime(p.latencyMs) + 2 * p.latencyMs + CACHE_TTL_MS - 1;
    var token := Token(0, signedAt, signedAt / 1000 + TOKEN_LIFETIME_S);
    assert token in w.tokens && Unexpired(w, token) && !KeyAvailable(w, 1, token.kid);
  }

  /** The property of the whole protocol, exactly: every run is safe if and only if the grace
      window is at least 2 * latency + 959,998 ms. */
  lemma SafeIffGraceSuffices(p: Params)
    ensures (forall steps :: NoTokenOutlivesItsKey(Run(p, steps))) <==> GraceSuffices(p)
  {
    if GraceSuffices(p) {
      forall steps ensures NoTokenOutlivesItsKey(Run(p, steps)) {
        GraceSufficesForEveryRun(p, steps);
      }
    } else {
      GraceNeeded(p);
    }
  }

  /** With the source's own 24 h grace, every latency up to 42,720,001 ms is safe, and no longer one. */
  lemma SourceGrace(latencyMs: nat)
    ensures (forall steps :: NoTokenOutlivesItsKey(Run(Params(ROTATION_GRACE_MS, latencyMs), steps))) <==>
        latencyMs <= 42_720_001
  {
    SafeIffGraceSuffices(Params(ROTATION_GRACE_MS, latencyMs));
  }
}
