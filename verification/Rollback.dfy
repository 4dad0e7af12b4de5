/**
 Anti-rollback over whole runs (src/cert_bundle.rs, src/config.rs): a terminal that installs the version of every
 profile set it accepts as its new rollback counter.
 */
module Rollback {
  import opened Kernel
  import opened Dates
  import opened BundleRecords
  import opened BundleReader
  import opened BundleTrust
  import Profile

  type BundleLoader = (seq<byte>, LoadPolicy) -> Result<LoadedBundle>

  /** `load_certification_bundle` with the given cryptography. */
  function TheLoader(c: Crypto): BundleLoader {
    (json: seq<byte>, policy: LoadPolicy) => LoadCertificationBundle(c, json, policy)
  }

  /** One attempt to load a bundle: everything of the policy but the installed counter. */
  datatype Attempt = Attempt(json: seq<byte>, mode: Profile.BuildMode, today: EmvDate, anchors: seq<TrustAnchor>)

  function PolicyFor(installed: u64, a: Attempt): LoadPolicy {
    LoadPolicy(a.mode, installed, a.today, a.anchors)
  }

  /** One step: an accepted profile set's version replaces the installed counter. */
  function Step(load: BundleLoader, installed: u64, a: Attempt): u64 {
    match load(a.json, PolicyFor(installed, a))
    case Ok(l) => l.profileSet.version
    case Err(_) => installed
  }

  /** The installed counter after a run. */
  function Installed(load: BundleLoader, start: u64, run: seq<Attempt>): u64 {
    if run == [] then start else Step(load, Installed(load, start, run[..|run| - 1]), run[|run| - 1])
  }

  /** The policy attempt `k` of a run meets. */
  function PolicyAt(load: BundleLoader, start: u64, run: seq<Attempt>, k: nat): LoadPolicy
    requires k < |run|
  {
    PolicyFor(Installed(load, start, run[..k]), run[k])
  }

  /** Attempt `k` of a run is accepted, and loads `l`. */
  ghost predicate Accepted(load: BundleLoader, start: u64, run: seq<Attempt>, k: nat, l: LoadedBundle) {
    k < |run| && load(run[k].json, PolicyAt(load, start, run, k)) == Ok(l)
  }

  // ---------------------------------------------------------------- what a run relies on

  /** Accepted counters are above the installed one and become the new version. */
  ghost predicate Advances(load: BundleLoader) {
    forall json, policy, l | load(json, policy) == Ok(l) ::
      policy.installedRollbackCounter < l.bundle.rollbackCounter == l.profileSet.version
  }

  /** The text alone determines the bundle. */
  ghost predicate ReadsTheText(load: BundleLoader) {
    forall json, policy, policy', l, l' | load(json, policy) == Ok(l) && load(json, policy') == Ok(l') ::
      l.bundle == l'.bundle
  }

  /** Outside test mode, the first anchor for the signature's signer and fingerprint vouches for the payload. */
  ghost predicate Authenticates(c: Crypto, load: BundleLoader) {
    forall json, policy, l | load(json, policy) == Ok(l) && policy.mode != Profile.Test ::
      l.bundle.bundleClass == Certification && IsVouchedFor(c, l, policy)
  }

  ghost predicate IsVouchedFor(c: Crypto, l: LoadedBundle, policy: LoadPolicy) {
    exists i | 0 <= i < |policy.trustAnchors| ::
      && IsFirstMatch(policy.trustAnchors, l.bundle.signature, i)
      && Vouches(c, policy.trustAnchors[i], l.bundle.signature, PayloadHash(c, l.bundle.payload), policy)
  }

  lemma LoaderFacts(c: Crypto, json: seq<byte>, policy: LoadPolicy, l: LoadedBundle)
    requires TheLoader(c)(json, policy) == Ok(l)
    ensures policy.installedRollbackCounter < l.bundle.rollbackCounter == l.profileSet.version
    ensures policy.mode != Profile.Test ==> l.bundle.bundleClass == Certification && IsVouchedFor(c, l, policy)
  {
    hide LoadCertificationBundle, ParseCertificationBundle, PayloadHash, IsFirstMatch;
    AcceptedLoad(c, json, policy, l);
    FindsTheFirst(policy.trustAnchors, l.bundle.signature);
  }

  lemma LoaderAdvances(c: Crypto)
    ensures Advances(TheLoader(c)) && Authenticates(c, TheLoader(c))
  {
    hide TheLoader, IsVouchedFor;
    forall json, policy, l | TheLoader(c)(json, policy) == Ok(l)
      ensures policy.installedRollbackCounter < l.bundle.rollbackCounter == l.profileSet.version
      ensures policy.mode != Profile.Test ==> l.bundle.bundleClass == Certification && IsVouchedFor(c, l, policy)
    {
      LoaderFacts(c, json, policy, l);
    }
  }

  lemma LoaderReadsTheText(c: Crypto)
    ensures ReadsTheText(TheLoader(c))
  {
    hide LoadCertificationBundle, ParseCertificationBundle, Authentic;
    forall json, policy, policy', l, l' | TheLoader(c)(json, policy) == Ok(l) && TheLoader(c)(json, policy') == Ok(l')
      ensures l.bundle == l'.bundle
    {
      AcceptedLoad(c, json, policy, l);
      AcceptedLoad(c, json, policy', l');
    }
  }

  // ---------------------------------------------------------------- runs

  lemma InstalledNext(load: BundleLoader, start: u64, run: seq<Attempt>, k: nat)
    requires k < |run|
    ensures Installed(load, start, run[..k + 1]) == Step(load, Installed(load, start, run[..k]), run[k])
  {
    assert run[..k + 1][..k] == run[..k];
  }

  /** The installed counter never decreases along a run. */
  lemma {:induction false} CounterNeverDecreases(load: BundleLoader, start: u64, run: seq<Attempt>, i: nat, j: nat)
    requires Advances(load) && i <= j <= |run|
    ensures Installed(load, start, run[..i]) <= Installed(load, start, run[..j])
    decreases j
  {
    if i < j {
      CounterNeverDecreases(load, start, run, i, j - 1);
      InstalledNext(load, start, run, j - 1);
    }
  }

  /** Along every run, accepted bundles carry strictly increasing rollback counters, all above the initial one. */
  lemma AcceptedCountersIncrease(
    load: BundleLoader, start: u64, run: seq<Attempt>, i: nat, j: nat, l: LoadedBundle, l': LoadedBundle)
    requires Advances(load) && i < j
    requires Accepted(load, start, run, i, l) && Accepted(load, start, run, j, l')
    ensures start < l.bundle.rollbackCounter < l'.bundle.rollbackCounter
  {
    InstalledNext(load, start, run, i);
    CounterNeverDecreases(load, start, run, i + 1, j);
    CounterNeverDecreases(load, start, run, 0, i);
    assert run[..0] == [];
  }

  /** What the loader guarantees of every run from every installed counter. */
  ghost predicate RunsAreSafe(load: BundleLoader) {
    forall start: u64, run: seq<Attempt>, i: nat, j: nat, l, l'
      | i < j && Accepted(load, start, run, i, l) && Accepted(load, start, run, j, l') ::
      && start < l.bundle.rollbackCounter < l'.bundle.rollbackCounter
      && l.bundle != l'.bundle && run[i].json != run[j].json
  }

  ghost predicate RunsAreVouchedFor(c: Crypto, load: BundleLoader) {
    forall start: u64, run: seq<Attempt>, k: nat, l | Accepted(load, start, run, k, l) && run[k].mode != Profile.Test ::
      l.bundle.bundleClass == Certification && IsVouchedFor(c, l, PolicyAt(load, start, run, k))
  }

  /**
   In every run accepted counters strictly increase and no bundle or text is accepted twice; and every bundle accepted
   in certification or production mode rests on the first anchor for its signer and fingerprint, which is unexpired,
   pinned to the very payload loaded and verifies the signature over it.
   */
  lemma EveryRunIsSafe(c: Crypto)
    ensures RunsAreSafe(TheLoader(c))
    ensures RunsAreVouchedFor(c, TheLoader(c))
  {
    hide TheLoader, IsVouchedFor;
    var load := TheLoader(c);
    LoaderAdvances(c);
    LoaderReadsTheText(c);
    forall start: u64, run: seq<Attempt>, i: nat, j: nat, l, l'
      | i < j && Accepted(load, start, run, i, l) && Accepted(load, start, run, j, l')
      ensures start < l.bundle.rollbackCounter < l'.bundle.rollbackCounter
      ensures l.bundle != l'.bundle && run[i].json != run[j].json
    {
      AcceptedCountersIncrease(load, start, run, i, j, l, l');
    }
    forall start: u64, run: seq<Attempt>, k: nat, l | Accepted(load, start, run, k, l) && run[k].mode != Profile.Test
      ensures l.bundle.bundleClass == Certification && IsVouchedFor(c, l, PolicyAt(load, start, run, k))
    {
      assert load(run[k].json, PolicyAt(load, start, run, k)) == Ok(l);
    }
  }
}
