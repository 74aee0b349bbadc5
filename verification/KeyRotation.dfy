/**
  Any number of replicas signing, verifying, rotating, booting and cleaning up
  over one signing_keys table, interleaved statement by statement. No token
  outlives its key exactly when the grace window covers the stale signer cache,
  the token lifetime and twice the latency of a statement.
 */
module KeyRotation {
  import opened SigningKeys
  import opened Options

  const TOKEN_LIFETIME_S: nat := 900

  /** What a run may choose: the grace of rotateKeys, and the longest time (ms) between a
      clock reading or query and the statement or cache write that uses it. */
  datatype Params = Params(graceMs: nat, latencyMs: nat)

  datatype Token = Token(kid: Kid, signedAt: nat, exp: nat)

  /** A replica's signer cache, the signer queries it has not cached yet, and its verification cache. */
  datatype Replica = Replica(signer: Option<(Kid, nat)>, fetches: set<(Kid, nat)>, verifiers: map<Kid, nat>)

  /** Where the (single) running rotation stands. */
  datatype Rotation =
    | Idle
    | Selected(oldActive: Option<Kid>, next: Kid, startedAt: nat)
    | Promoted(oldActive: Option<Kid>, startedAt: nat)
    | Swapped

  datatype World = World(
    now: nat,
    table: Table,
    nextKid: Kid,
    replicas: map<nat, Replica>,
    rotation: Rotation,
    tokens: set<Token>
  )

  datatype Step =
    | Tick(to: nat)
    | ReadSigner(replica: nat, kid: Kid)            // SELECT the oldest active key
    | CacheSigner(replica: nat, fetch: (Kid, nat))  // activeSignerCache = { signer, cachedAt: now }
    | Sign(replica: nat)                            // sign with a cache entry younger than 60 s
    | Verify(replica: nat, kid: Kid)                // getVerificationKey
    | StartRotation(oldActive: Option<Kid>, next: Kid)
    | PromoteNext
    | RetireOld
    | InsertNext(replica: nat)                      // then clearKeyCache() where the rotation ran
    | AbortRotation                                 // a statement threw; the scheduler swallows it
    | Boot(replica: nat)                            // ensureKeysInitialized, then an empty cache
    | Cleanup(cutoff: nat)                          // DELETE with a clock reading taken earlier

  const NO_CACHE: Replica := Replica(None, {}, map[])

  function Start(): World {
    World(0, map[], 0, map[], Idle, {})
  }

  predicate SignerFresh(w: World, replica: nat) {
    && replica in w.replicas
    && w.replicas[replica].signer.Some?
    && w.now - w.replicas[replica].signer.value.1 < CACHE_TTL_MS
  }

  predicate Enabled(p: Params, w: World, step: Step) {
    match step
    case Tick(to) => w.now <= to
    case ReadSigner(r, kid) => r in w.replicas && OldestActive(w.table, kid)
    case CacheSigner(r, f) => r in w.replicas && f in w.replicas[r].fetches && w.now <= f.1 + p.latencyMs
    case Sign(r) => SignerFresh(w, r)
    case Verify(r, _) => r in w.replicas
    case StartRotation(from, next) =>
      && w.rotation == Idle
      && HasStatus(w.table, next, Next)
      && (if from.Some? then HasStatus(w.table, from.value, Active) else Kids(w.table, Active) == {})
    case PromoteNext => w.rotation.Selected?
    case RetireOld => w.rotation.Promoted? && w.now <= w.rotation.startedAt + p.latencyMs
    case InsertNext(_) => w.rotation == Swapped
    case AbortRotation => w.rotation != Idle
    case Boot(_) => true
    case Cleanup(cutoff) => cutoff <= w.now
  }

  function Booted(w: World): World {
    var (table, nextKid) := Initialized(w.table, w.nextKid, w.now);
    w.(table := table, nextKid := nextKid)
  }

  /** getVerificationKey finds a key: cached for less than 60 s, or present and not expired. */
  predicate KeyAvailable(w: World, replica: nat, kid: Kid)
    requires replica in w.replicas
  {
    var cache := w.replicas[replica].verifiers;
    (kid in cache && w.now - cache[kid] < CACHE_TTL_MS) || Verifiable(w.table, kid, w.now)
  }

  function Apply(p: Params, w: World, step: Step): World
    requires Enabled(p, w, step)
  {
    match step
    case Tick(to) => w.(now := to)
    case ReadSigner(r, kid) =>
      var replica := w.replicas[r];
      w.(replicas := w.replicas[r := replica.(fetches := replica.fetches + {(kid, w.now)})])
    case CacheSigner(r, f) =>
      var replica := w.replicas[r];
      w.(replicas := w.replicas[r := replica.(signer := Some((f.0, w.now)), fetches := replica.fetches - {f})])
    case Sign(r) =>
      var kid := w.replicas[r].signer.value.0;
      w.(tokens := w.tokens + {Token(kid, w.now, w.now / 1000 + TOKEN_LIFETIME_S)})
    case Verify(r, kid) =>
      var replica := w.replicas[r];
      var cached := kid in replica.verifiers && w.now - replica.verifiers[kid] < CACHE_TTL_MS;
      if cached || !Verifiable(w.table, kid, w.now) then w
      else w.(replicas := w.replicas[r := replica.(verifiers := replica.verifiers[kid := w.now])])
    case StartRotation(from, next) => w.(rotation := Selected(from, next, w.now))
    case PromoteNext =>
      var r := w.rotation;
      w.(table := Promote(w.table, r.next, r.startedAt), rotation := Promoted(r.oldActive, r.startedAt))
    case RetireOld =>
      var r := w.rotation;
      w.(table := if r.oldActive.Some? then Retire(w.table, r.oldActive.value, r.startedAt, p.graceMs) else w.table,
         rotation := Swapped)
    case InsertNext(r) =>
      var cleared := if r in w.replicas then w.replicas[r := w.replicas[r].(signer := None, verifiers := map[])]
          else w.replicas;
      w.(table := InsertKey(w.table, w.nextKid, Next, w.now), nextKid := w.nextKid + 1, rotation := Idle,
         replicas := cleared)
    case AbortRotation => w.(rotation := Idle)
    case Boot(r) =>
      var b := Booted(w);
      b.(replicas := b.replicas[r := NO_CACHE])
    case Cleanup(cutoff) => w.(table := DeleteExpired(w.table, cutoff))
  }

  /** The world after a run; steps that are not enabled when their turn comes do nothing. */
  function Run(p: Params, steps: seq<Step>): World {
    if steps == [] then Start()
    else Advance(p, Run(p, steps[..|steps| - 1]), steps[|steps| - 1])
  }

  function Advance(p: Params, w: World, step: Step): World {
    if Enabled(p, w, step) then Apply(p, w, step) else w
  }

  /** jose accepts the expiry while floor(now / 1000) < exp. */
  predicate Unexpired(w: World, token: Token) {
    w.now / 1000 < token.exp
  }

  /** Every unexpired token verifies on every replica. */
  ghost predicate NoTokenOutlivesItsKey(w: World) {
    forall token, r :: token in w.tokens && r in w.replicas && Unexpired(w, token) ==> KeyAvailable(w, r, token.kid)
  }

  // ---------------------------------------------------------------------
  // Safety
  // ---------------------------------------------------------------------

  /** The grace window covers two latencies, the youngest stale cache and the token lifetime. */
  predicate GraceSuffices(p: Params) {
    p.graceMs >= 2 * p.latencyMs + (CACHE_TTL_MS - 1) + (TOKEN_LIFETIME_S * 1000 - 1)
  }

  /** The key is verifiable up to (not including) `until`, or that time has passed. */
  predicate Outlasts(w: World, kid: Kid, until: nat) {
    || until <= w.now
    || (kid in w.table && (w.table[kid].status == Retired ==>
                             w.table[kid].expiresAt.Some? && until <= w.table[kid].expiresAt.value + 1))
  }

  /** The latest end of a token signed from a cache entry made at cachedAt. */
  function LastUse(cachedAt: nat): nat {
    cachedAt + (CACHE_TTL_MS - 1) + TOKEN_LIFETIME_S * 1000
  }

  ghost predicate TokensCovered(w: World) {
    forall token :: token in w.tokens ==>
      token.exp == token.signedAt / 1000 + TOKEN_LIFETIME_S && token.signedAt <= w.now
          && Outlasts(w, token.kid, token.exp * 1000)
  }

  ghost predicate SignerCovered(w: World, signer: Option<(Kid, nat)>) {
    signer.Some? ==> signer.value.1 <= w.now && Outlasts(w, signer.value.0, LastUse(signer.value.1))
  }

  ghost predicate FetchesCovered(p: Params, w: World, fetches: set<(Kid, nat)>) {
    forall f :: f in fetches ==> f.1 <= w.now && Outlasts(w, f.0, LastUse(f.1 + p.latencyMs))
  }

  ghost predicate ReplicasCovered(p: Params, w: World) {
    forall r :: r in w.replicas ==>
      SignerCovered(w, w.replicas[r].signer) && FetchesCovered(p, w, w.replicas[r].fetches)
  }

  /** The key to be retired is still active, and the rotation's clock reading is in the past. */
  ghost predicate RotationCovered(w: World) {
    match w.rotation
    case Idle => true
    case Swapped => true
    case Selected(from, next, at) =>
      at <= w.now && HasStatus(w.table, next, Next) && (from.Some? ==> HasStatus(w.table, from.value, Active))
    case Promoted(from, at) => at <= w.now && (from.Some? ==> HasStatus(w.table, from.value, Active))
  }

  ghost predicate Covered(p: Params, w: World) {
    && (forall kid :: kid in w.table ==> kid < w.nextKid)
    && TokensCovered(w)
    && ReplicasCovered(p, w)
    && RotationCovered(w)
  }

  lemma CoveredIsSafe(p: Params, w: World)
    requires Covered(p, w)
    ensures NoTokenOutlivesItsKey(w)
  {
    forall token, r | token in w.tokens && r in w.replicas && Unexpired(w, token)
      ensures KeyAvailable(w, r, token.kid)
    {
      assert Outlasts(w, token.kid, token.exp * 1000);
      assert w.now < token.exp * 1000;
    }
  }

  /** Steps after which every key outlasts what it outlasted before. */
  ghost predicate KeepsKeys(w: World, w': World) {
    && w.now <= w'.now
    && forall kid, until :: Outlasts(w, kid, until) ==> Outlasts(w', kid, until)
  }

  lemma KeepsCoverage(p: Params, w: World, w': World)
    requires Covered(p, w) && KeepsKeys(w, w')
    ensures TokensCovered(w'.(tokens := w.tokens))
    ensures ReplicasCovered(p, w'.(replicas := w.replicas))
  {
    var v := w'.(tokens := w.tokens);
    forall token | token in v.tokens ensures Outlasts(v, token.kid, token.exp * 1000) {
      assert Outlasts(w, token.kid, token.exp * 1000);
      assert Outlasts(w', token.kid, token.exp * 1000);
    }
    var u := w'.(replicas := w.replicas);
    forall r | r in u.replicas
      ensures SignerCovered(u, u.replicas[r].signer) && FetchesCovered(p, u, u.replicas[r].fetches)
    {
      var replica := w.replicas[r];
      if replica.signer.Some? {
        assert Outlasts(w', replica.signer.value.0, LastUse(replica.signer.value.1));
      }
      forall f | f in replica.fetches ensures Outlasts(u, f.0, LastUse(f.1 + p.latencyMs)) {
        assert Outlasts(w', f.0, LastUse(f.1 + p.latencyMs));
      }
    }
  }

  /** Retiring a key is where the grace window is needed. */
  lemma RetireKeepsKeys(p: Params, w: World, kid: Kid, at: nat)
    requires GraceSuffices(p) && Covered(p, w)
    requires HasStatus(w.table, kid, Active) && at <= w.now <= at + p.latencyMs
    ensures
      var w' := w.(table := Retire(w.table, kid, at, p.graceMs));
      TokensCovered(w') && ReplicasCovered(p, w')
  {
    var w' := w.(table := Retire(w.table, kid, at, p.graceMs));
    forall k: Kid, until: nat | Outlasts(w, k, until) && until <= LastUse(w.now + p.latencyMs)
      ensures Outlasts(w', k, until)
    {
    }
    forall token | token in w'.tokens ensures Outlasts(w', token.kid, token.exp * 1000) {
      assert token.exp * 1000 <= token.signedAt + TOKEN_LIFETIME_S * 1000;
    }
    forall r | r in w'.replicas
      ensures SignerCovered(w', w'.replicas[r].signer) && FetchesCovered(p, w', w'.replicas[r].fetches)
    {
    }
  }

  lemma BootedKeeps(w: World)
    requires forall kid :: kid in w.table ==> kid < w.nextKid
    ensures var b := Booted(w);
      && (forall kid :: kid in w.table ==> kid in b.table && b.table[kid] == w.table[kid])
      && (forall kid :: kid in b.table ==> kid < b.nextKid)
      && b == w.(table := b.table, nextKid := b.nextKid)
  {
  }

  lemma NextCovered(p: Params, w: World, step: Step)
    requires GraceSuffices(p) && Covered(p, w)
    ensures Covered(p, Advance(p, w, step))
  {
    var w' := Advance(p, w, step);
    if Enabled(p, w, step) {
      match step
      case Tick(to) => KeepsCoverage(p, w, w');
      case ReadSigner(r, kid) => KeepsCoverage(p, w, w');
      case CacheSigner(r, f) => CacheSignerCovered(p, w, r, f);
      case Sign(r) => SignCovered(p, w, r);
      case Verify(r, kid) => KeepsCoverage(p, w, w');
      case StartRotation(from, next) => KeepsCoverage(p, w, w');
      case AbortRotation => KeepsCoverage(p, w, w');
      case _ => TableStepCovered(p, w, step);
    }
  }

  /** The steps that write the table. */
  lemma TableStepCovered(p: Params, w: World, step: Step)
    requires GraceSuffices(p) && Covered(p, w) && Enabled(p, w, step)
    requires step.PromoteNext? || step.RetireOld? || step.InsertNext? || step.Boot? || step.Cleanup?
    ensures Covered(p, Apply(p, w, step))
  {
    hide Covered;
    match step
    case PromoteNext => PromoteCovered(p, w);
    case RetireOld => RetireCovered(p, w);
    case InsertNext(r) => InsertCovered(p, w, r);
    case Boot(r) => BootCovered(p, w, r);
    case Cleanup(cutoff) => CleanupCovered(p, w, cutoff);
  }

  lemma PromoteCovered(p: Params, w: World)
    requires Covered(p, w) && Enabled(p, w, PromoteNext)
    ensures Covered(p, Apply(p, w, PromoteNext))
  {
    KeepsCoverage(p, w, Apply(p, w, PromoteNext));
  }

  lemma RetireCovered(p: Params, w: World)
    requires GraceSuffices(p) && Covered(p, w) && Enabled(p, w, RetireOld)
    ensures Covered(p, Apply(p, w, RetireOld))
  {
    if w.rotation.oldActive.Some? {
      RetireKeepsKeys(p, w, w.rotation.oldActive.value, w.rotation.startedAt);
    } else {
      KeepsCoverage(p, w, Apply(p, w, RetireOld));
    }
  }

  lemma InsertCovered(p: Params, w: World, r: nat)
    requires Covered(p, w) && Enabled(p, w, InsertNext(r))
    ensures Covered(p, Apply(p, w, InsertNext(r)))
  {
    KeepsCoverage(p, w, Apply(p, w, InsertNext(r)));
  }

  lemma CleanupCovered(p: Params, w: World, cutoff: nat)
    requires Covered(p, w) && Enabled(p, w, Cleanup(cutoff))
    ensures Covered(p, Apply(p, w, Cleanup(cutoff)))
  {
    KeepsCoverage(p, w, Apply(p, w, Cleanup(cutoff)));
  }

  lemma BootCovered(p: Params, w: World, r: nat)
    requires Covered(p, w)
    ensures Covered(p, Apply(p, w, Boot(r)))
  {
    hide Booted, TokensCovered;
    BootedKeeps(w);
    KeepsCoverage(p, w, Apply(p, w, Boot(r)));
  }

  lemma CacheSignerCovered(p: Params, w: World, r: nat, f: (Kid, nat))
    requires Covered(p, w) && Enabled(p, w, CacheSigner(r, f))
    ensures Covered(p, Apply(p, w, CacheSigner(r, f)))
  {
    var w' := Apply(p, w, CacheSigner(r, f));
    KeepsCoverage(p, w, w');
    assert Outlasts(w, f.0, LastUse(f.1 + p.latencyMs));
    assert Outlasts(w', f.0, LastUse(w'.now));
  }

  lemma SignCovered(p: Params, w: World, r: nat)
    requires Covered(p, w) && Enabled(p, w, Sign(r))
    ensures Covered(p, Apply(p, w, Sign(r)))
  {
    var w' := Apply(p, w, Sign(r));
    KeepsCoverage(p, w, w');
    var signer := w.replicas[r].signer;
    assert SignerCovered(w, signer);
    assert Outlasts(w', signer.value.0, (w.now / 1000 + TOKEN_LIFETIME_S) * 1000);
  }

  lemma {:induction false} RunCovered(p: Params, steps: seq<Step>)
    requires GraceSuffices(p)
    ensures Covered(p, Run(p, steps))
  {
    if steps == [] {
    } else {
      RunCovered(p, steps[..|steps| - 1]);
      NextCovered(p, Run(p, steps[..|steps| - 1]), steps[|steps| - 1]);
    }
  }

  /** In every run, every unexpired token verifies on every replica. */
  lemma GraceSufficesForEveryRun(p: Params, steps: seq<Step>)
    requires GraceSuffices(p)
    ensures NoTokenOutlivesItsKey(Run(p, steps))
  {
    RunCovered(p, steps);
    CoveredIsSafe(p, Run(p, steps));
  }
}
