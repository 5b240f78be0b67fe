/** Health-check registration keys. Each declared bucket, policy and user registers one
    check under its name followed by a kind-specific suffix. Keys are injective within a
    kind, and because the suffixes disagree on their trailing characters no key of one
    kind can equal a key of another, whatever the names. */
module HealthKeys {
  import opened Seqs
  import opened Declared

  const BucketSuffix := "_bucket_check"
  const PolicySuffix := "_policy_check"
  const UserSuffix := "_user_check"

  function BucketCheckKey(name: string): string
  {
    name + BucketSuffix
  }

  function PolicyCheckKey(name: string): string
  {
    name + PolicySuffix
  }

  function UserCheckKey(name: string): string
  {
    name + UserSuffix
  }

  /** A common suffix can be cancelled. */
  lemma SuffixCancels(a: string, b: string, s: string)
    requires a + s == b + s
    ensures a == b
  {
    assert a == (a + s)[..|a|];
    assert b == (b + s)[..|b|];
  }

  /** Two strings whose endings disagree within the shorter ending are never equal. */
  lemma EndingsDiffer(a: string, s: string, b: string, t: string)
    requires |t| <= |s| && s[|s| - |t|..] != t
    ensures a + s != b + t
  {
    var x, y := a + s, b + t;
    if |x| == |y| {
      assert x[|x| - |t|..] == s[|s| - |t|..];
      assert y[|y| - |t|..] == t;
    }
  }

  /** Within each kind, equal keys mean equal names. */
  lemma CheckKeysInjective(n: string, m: string)
    ensures BucketCheckKey(n) == BucketCheckKey(m) ==> n == m
    ensures PolicyCheckKey(n) == PolicyCheckKey(m) ==> n == m
    ensures UserCheckKey(n) == UserCheckKey(m) ==> n == m
  {
    if BucketCheckKey(n) == BucketCheckKey(m) { SuffixCancels(n, m, BucketSuffix); }
    if PolicyCheckKey(n) == PolicyCheckKey(m) { SuffixCancels(n, m, PolicySuffix); }
    if UserCheckKey(n) == UserCheckKey(m) { SuffixCancels(n, m, UserSuffix); }
  }

  /** Keys of different kinds never collide. */
  lemma CheckKindsNeverCollide(n: string, m: string)
    ensures BucketCheckKey(n) != PolicyCheckKey(m)
    ensures BucketCheckKey(n) != UserCheckKey(m)
    ensures PolicyCheckKey(n) != UserCheckKey(m)
  {
    assert BucketSuffix[1] != PolicySuffix[1];
    EndingsDiffer(n, BucketSuffix, m, PolicySuffix);
    assert BucketSuffix[|BucketSuffix| - |UserSuffix|..][0] != UserSuffix[0];
    EndingsDiffer(n, BucketSuffix, m, UserSuffix);
    assert PolicySuffix[|PolicySuffix| - |UserSuffix|..][0] != UserSuffix[0];
    EndingsDiffer(n, PolicySuffix, m, UserSuffix);
  }

  function BucketKeys(bs: seq<Bucket>): (ks: seq<string>)
    ensures |ks| == |bs| && forall i :: 0 <= i < |bs| ==> ks[i] == BucketCheckKey(bs[i].name)
  {
    seq(|bs|, i requires 0 <= i < |bs| => BucketCheckKey(bs[i].name))
  }

  function PolicyKeys(ps: seq<NamedPolicy>): (ks: seq<string>)
    ensures |ks| == |ps| && forall i :: 0 <= i < |ps| ==> ks[i] == PolicyCheckKey(ps[i].name)
  {
    seq(|ps|, i requires 0 <= i < |ps| => PolicyCheckKey(ps[i].name))
  }

  function UserKeys(us: seq<User>): (ks: seq<string>)
    ensures |ks| == |us| && forall i :: 0 <= i < |us| ==> ks[i] == UserCheckKey(us[i].name)
  {
    seq(|us|, i requires 0 <= i < |us| => UserCheckKey(us[i].name))
  }

  /** Every health-check key a tenant's declarations register. */
  function RegisteredKeys(t: Tenant): seq<string>
  {
    BucketKeys(t.buckets) + PolicyKeys(t.policies) + UserKeys(t.users)
  }

  /** A tenant with unique names per kind registers every health-check key once. */
  lemma RegisteredKeysUnique(t: Tenant)
    requires UniqueNames(t)
    ensures NoDup(RegisteredKeys(t))
  {
    var bk, pk, uk := BucketKeys(t.buckets), PolicyKeys(t.policies), UserKeys(t.users);
    forall n, m ensures BucketCheckKey(n) == BucketCheckKey(m) ==> n == m { CheckKeysInjective(n, m); }
    forall n, m ensures PolicyCheckKey(n) == PolicyCheckKey(m) ==> n == m { CheckKeysInjective(n, m); }
    forall n, m ensures UserCheckKey(n) == UserCheckKey(m) ==> n == m { CheckKeysInjective(n, m); }
    assert NoDup(bk) by {
      assert forall i :: 0 <= i < |t.buckets| ==> BucketNames(t.buckets)[i] == t.buckets[i].name;
    }
    assert NoDup(pk) by {
      assert forall i :: 0 <= i < |t.policies| ==> PolicyNames(t.policies)[i] == t.policies[i].name;
    }
    assert NoDup(uk) by {
      assert forall i :: 0 <= i < |t.users| ==> UserNames(t.users)[i] == t.users[i].name;
    }
    forall x | x in bk ensures x !in pk && x !in uk {
      var i :| 0 <= i < |bk| && bk[i] == x;
      forall j | 0 <= j < |pk| ensures pk[j] != x { CheckKindsNeverCollide(t.buckets[i].name, t.policies[j].name); }
      forall j | 0 <= j < |uk| ensures uk[j] != x { CheckKindsNeverCollide(t.buckets[i].name, t.users[j].name); }
    }
    forall x | x in pk ensures x !in uk {
      var i :| 0 <= i < |pk| && pk[i] == x;
      forall j | 0 <= j < |uk| ensures uk[j] != x { CheckKindsNeverCollide(t.policies[i].name, t.users[j].name); }
    }
    NoDupAppend(bk, pk);
    NoDupAppend(bk + pk, uk);
  }
}
