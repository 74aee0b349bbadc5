/**
  What the replicas' caches may hold: a key is signed with or accepted only if
  the table called for it shortly before, whatever the parameters.
 */
module KeyCaches {
  import opened SigningKeys
  import opened KeyRotation
  import opened KeyRotationLimits
  import opened Options

  /** At some moment of the run, at this time, the key was verifiable. */
  ghost predicate WasVerifiable(p: Params, steps: seq<Step>, kid: Kid, at: nat) {
    exists i :: 0 <= i <= |steps| && Run(p, steps[..i]).now == at && Verifiable(Run(p, steps[..i]).table, kid, at)
  }

  /** At some moment of the run, at this time, the key was the oldest active one. */
  ghost predicate WasSigner(p: Params, steps: seq<Step>, kid: Kid, at: nat) {
    exists i :: 0 <= i <= |steps| && Run(p, steps[..i]).now == at && OldestActive(Run(p, steps[..i]).table, kid)
  }

  lemma WasLonger(p: Params, steps: seq<Step>, kid: Kid, at: nat)
    requires steps != []
    ensures WasVerifiable(p, steps[..|steps| - 1], kid, at) ==> WasVerifiable(p, steps, kid, at)
    ensures WasSigner(p, steps[..|steps| - 1], kid, at) ==> WasSigner(p, steps, kid, at)
  {
    hide Run, Verifiable, OldestActive;
    var most := steps[..|steps| - 1];
    forall i | 0 <= i <= |most| ensures most[..i] == steps[..i] {
    }
    if i :| 0 <= i <= |most| && Run(p, most[..i]).now == at && Verifiable(Run(p, most[..i]).table, kid, at) {
      assert Run(p, steps[..i]).now == at;
    }
    if i :| 0 <= i <= |most| && Run(p, most[..i]).now == at && OldestActive(Run(p, most[..i]).table, kid) {
      assert Run(p, steps[..i]).now == at;
    }
  }

  lemma IsNow(p: Params, steps: seq<Step>, kid: Kid)
    ensures Verifiable(Run(p, steps).table, kid, Run(p, steps).now) ==> WasVerifiable(p, steps, kid, Run(p, steps).now)
    ensures OldestActive(Run(p, steps).table, kid) ==> WasSigner(p, steps, kid, Run(p, steps).now)
  {
    hide Run, Verifiable, OldestActive;
    assert steps[..|steps|] == steps;
  }

  // ---------------------------------------------------------------------
  // Verification keys
  // ---------------------------------------------------------------------

  ghost predicate VerifiersTrue(p: Params, steps: seq<Step>, w: World) {
    forall r, kid :: r in w.replicas && kid in w.replicas[r].verifiers ==>
      WasVerifiable(p, steps, kid, w.replicas[r].verifiers[kid])
  }

  /** A statement caches a verification key only when it is verifiable, under the time it has. */
  lemma VerifierStep(p: Params, w: World, step: Step, r: nat, kid: Kid)
    requires r in Advance(p, w, step).replicas && kid in Advance(p, w, step).replicas[r].verifiers
    ensures
      var at := Advance(p, w, step).replicas[r].verifiers[kid];
      || (r in w.replicas && kid in w.replicas[r].verifiers && w.replicas[r].verifiers[kid] == at)
      || (at == w.now && Verifiable(w.table, kid, w.now))
  {
    hide Initialized, OldestActive, Verifiable, DeleteExpired;
  }

  lemma {:induction false} CachedVerifiersTrue(p: Params, steps: seq<Step>)
    ensures VerifiersTrue(p, steps, Run(p, steps))
  {
    if steps == [] {
    } else {
      var most := steps[..|steps| - 1];
      CachedVerifiersTrue(p, most);
      var w, w' := Run(p, most), Run(p, steps);
      assert w' == Advance(p, w, steps[|steps| - 1]);
      hide Run, Advance, Verifiable, WasVerifiable;
      forall r, kid | r in w'.replicas && kid in w'.replicas[r].verifiers
        ensures WasVerifiable(p, steps, kid, w'.replicas[r].verifiers[kid])
      {
        VerifierStep(p, w, steps[|steps| - 1], r, kid);
        IsNow(p, most, kid);
        WasLonger(p, steps, kid, w'.replicas[r].verifiers[kid]);
      }
    }
  }

  /** In every run a replica accepts a key only if it was verifiable less than a minute ago: one that has expired or
      been deleted is refused everywhere a minute later. */
  lemma AcceptedOnlyIfRecent(p: Params, steps: seq<Step>, r: nat, kid: Kid)
    requires r in Run(p, steps).replicas && KeyAvailable(Run(p, steps), r, kid)
    ensures exists at: nat :: at <= Run(p, steps).now < at + 60_000 && WasVerifiable(p, steps, kid, at)
  {
    CachedVerifiersTrue(p, steps);
    IsNow(p, steps, kid);
    var w := Run(p, steps);
    hide Run, WasVerifiable, Verifiable;
    if Verifiable(w.table, kid, w.now) {
      assert w.now <= w.now < w.now + 60_000;
    } else {
      var at := w.replicas[r].verifiers[kid];
      assert WasVerifiable(p, steps, kid, at);
      PastTimes(p, steps, kid, at);
    }
  }

  lemma {:induction false} TimesGrow(p: Params, steps: seq<Step>, i: nat)
    requires i <= |steps|
    ensures Run(p, steps[..i]).now <= Run(p, steps).now
    decreases |steps| - i
  {
    if i == |steps| {
      assert steps[..i] == steps;
    } else {
      TimesGrow(p, steps, i + 1);
      PrefixStep(p, steps, i);
      hide Run;
      TimeStep(p, Run(p, steps[..i]), steps[i]);
    }
  }

  lemma TimeStep(p: Params, w: World, step: Step)
    ensures w.now <= Advance(p, w, step).now
  {
    hide Initialized;
  }

  lemma PastTimes(p: Params, steps: seq<Step>, kid: Kid, at: nat)
    requires WasVerifiable(p, steps, kid, at)
    ensures at <= Run(p, steps).now
  {
    hide Run, Verifiable;
    var i :| 0 <= i <= |steps| && Run(p, steps[..i]).now == at && Verifiable(Run(p, steps[..i]).table, kid, at);
    TimesGrow(p, steps, i);
  }

  /** A verification leaves the key in the cache, for less than a minute, exactly if it accepted it; a key that was in
      the cache keeps its time. */
  lemma VerifyRemembers(p: Params, w: World, r: nat, kid: Kid)
    requires r in w.replicas
    ensures
      var before, cache := w.replicas[r].verifiers, Advance(p, w, Verify(r, kid)).replicas[r].verifiers;
      && (KeyAvailable(w, r, kid) <==> kid in cache && w.now - cache[kid] < 60_000)
      && (kid in before && w.now - before[kid] < 60_000 ==> cache == before)
  {
    hide Verifiable;
  }

  // ---------------------------------------------------------------------
  // Signers
  // ---------------------------------------------------------------------

  /** The signer cached at `at` was the oldest active key when it was read, at most the latency earlier. */
  ghost predicate SignerTrue(p: Params, steps: seq<Step>, kid: Kid, at: nat) {
    exists read: nat :: read <= at <= read + p.latencyMs && WasSigner(p, steps, kid, read)
  }

  ghost predicate FetchesTrue(p: Params, steps: seq<Step>, fetches: set<(Kid, nat)>, now: nat) {
    forall f :: f in fetches ==> f.1 <= now && WasSigner(p, steps, f.0, f.1)
  }

  ghost predicate CachedTrue(p: Params, steps: seq<Step>, signer: Option<(Kid, nat)>, now: nat) {
    signer.Some? ==> signer.value.1 <= now && SignerTrue(p, steps, signer.value.0, signer.value.1)
  }

  ghost predicate SignersTrue(p: Params, steps: seq<Step>, w: World) {
    forall r :: r in w.replicas ==>
      FetchesTrue(p, steps, w.replicas[r].fetches, w.now) && CachedTrue(p, steps, w.replicas[r].signer, w.now)
  }

  /** What is new among a replica's queries after a statement. */
  lemma FetchStep(p: Params, w: World, step: Step, r: nat)
    requires r in Advance(p, w, step).replicas
    ensures forall f :: f in Advance(p, w, step).replicas[r].fetches ==>
      (r in w.replicas && f in w.replicas[r].fetches) || (f.1 == w.now && OldestActive(w.table, f.0))
  {
    hide Initialized, OldestActive, Verifiable, DeleteExpired;
  }

  /** A signer comes into the cache from a query not older than the latency. */
  lemma SignerStep(p: Params, w: World, step: Step, r: nat)
    requires r in Advance(p, w, step).replicas && Advance(p, w, step).replicas[r].signer.Some?
    ensures
      var signer := Advance(p, w, step).replicas[r].signer;
      && r in w.replicas
      && (w.replicas[r].signer == signer
          || (signer.value.1 == w.now
              && exists f :: f in w.replicas[r].fetches && f.0 == signer.value.0 && w.now <= f.1 + p.latencyMs))
  {
    hide Initialized, OldestActive, Verifiable, DeleteExpired;
  }

  lemma FetchesStep(p: Params, steps: seq<Step>, r: nat)
    requires steps != []
    requires SignersTrue(p, steps[..|steps| - 1], Run(p, steps[..|steps| - 1])) && r in Run(p, steps).replicas
    ensures FetchesTrue(p, steps, Run(p, steps).replicas[r].fetches, Run(p, steps).now)
  {
    var most, step := steps[..|steps| - 1], steps[|steps| - 1];
    var w, w' := Run(p, most), Run(p, steps);
    assert w' == Advance(p, w, step);
    hide Run, CachedTrue;
    TimeStep(p, w, step);
    FetchStep(p, w, step, r);
    hide Advance, OldestActive, WasSigner;
    forall f | f in w'.replicas[r].fetches ensures f.1 <= w'.now && WasSigner(p, steps, f.0, f.1) {
      IsNow(p, most, f.0);
      WasLonger(p, steps, f.0, f.1);
    }
  }

  lemma CachedStep(p: Params, steps: seq<Step>, r: nat)
    requires steps != []
    requires SignersTrue(p, steps[..|steps| - 1], Run(p, steps[..|steps| - 1])) && r in Run(p, steps).replicas
    ensures CachedTrue(p, steps, Run(p, steps).replicas[r].signer, Run(p, steps).now)
  {
    var most, step := steps[..|steps| - 1], steps[|steps| - 1];
    var w, w' := Run(p, most), Run(p, steps);
    assert w' == Advance(p, w, step);
    hide Run;
    if w'.replicas[r].signer.Some? {
      TimeStep(p, w, step);
      SignerStep(p, w, step, r);
      hide Advance, WasSigner;
      var (kid, at) := w'.replicas[r].signer.value;
      var read: nat;
      if w.replicas[r].signer == w'.replicas[r].signer {
        read :| read <= at <= read + p.latencyMs && WasSigner(p, most, kid, read);
      } else {
        var f :| f in w.replicas[r].fetches && f.0 == kid && w.now <= f.1 + p.latencyMs;
        read := f.1;
      }
      WasLonger(p, steps, kid, read);
    }
  }

  lemma {:induction false} CachedSignersTrue(p: Params, steps: seq<Step>)
    ensures SignersTrue(p, steps, Run(p, steps))
  {
    if steps == [] {
    } else {
      CachedSignersTrue(p, steps[..|steps| - 1]);
      hide Run, FetchesTrue, CachedTrue;
      forall r | r in Run(p, steps).replicas
        ensures FetchesTrue(p, steps, Run(p, steps).replicas[r].fetches, Run(p, steps).now)
        ensures CachedTrue(p, steps, Run(p, steps).replicas[r].signer, Run(p, steps).now)
      {
        FetchesStep(p, steps, r);
        CachedStep(p, steps, r);
      }
    }
  }

  /** In every run a replica signs only with a key that was the oldest active one less than a minute and a latency
      ago. */
  lemma SignsOnlyWithRecent(p: Params, steps: seq<Step>, r: nat)
    requires SignerFresh(Run(p, steps), r)
    ensures
      var w := Run(p, steps);
      exists read: nat ::
        read <= w.now < read + p.latencyMs + 60_000 && WasSigner(p, steps, w.replicas[r].signer.value.0, read)
  {
    CachedSignersTrue(p, steps);
    hide Run, WasSigner;
    var w := Run(p, steps);
    var (kid, at) := w.replicas[r].signer.value;
    var read: nat :| read <= at <= read + p.latencyMs && WasSigner(p, steps, kid, read);
  }

  /** What signing issues: a token of the cached key, good for 15 minutes from the second it is signed in; nothing else
      issues or withdraws one. */
  lemma TokensIssued(p: Params, w: World, step: Step)
    ensures Advance(p, w, step).tokens ==
      if step.Sign? && SignerFresh(w, step.replica)
      then w.tokens + {Token(w.replicas[step.replica].signer.value.0, w.now, w.now / 1000 + 900)} else w.tokens
  {
    hide Initialized, OldestActive, Verifiable, DeleteExpired;
  }

  /** The end of a rotation and a boot empty the caches of the replica they run on. */
  lemma CachesEmptied(p: Params, w: World, step: Step)
    requires Enabled(p, w, step) && ((step.InsertNext? && step.replica in w.replicas) || step.Boot?)
    ensures
      var after := Advance(p, w, step).replicas;
      step.replica in after && after[step.replica].signer == None && after[step.replica].verifiers == map[]
  {
    hide Initialized;
  }
}
