/** The buckets-only package. Its tenant declares buckets (and carries a policy list
    that nothing in the package fills); its ready handler builds the data client and
    runs the same bucket step for each bucket in declaration order, and nothing else.
    Bucket templates, the bucket step and the client cache are the same as in the full
    package and are reused from there; its bucket health check has the same body, registered
    under a different key (`CheckKey`). */
module S3 {
  import opened Wrappers
  import opened Seqs
  import opened PolicyDocuments
  import opened Declared
  import opened Api
  import opened Session
  import opened Runtime
  import opened Provisioner
  import ProvisionerFacts
  import HealthKeys

  datatype S3Tenant = S3Tenant(
    name: string,
    accessKey: Parameter,
    secretKey: Parameter,
    buckets: seq<Bucket>,
    policies: seq<NamedPolicy>)

  function S3Credentials(t: S3Tenant): Credentials
  {
    Credentials(t.accessKey.value, t.secretKey.value)
  }

  /** Builds a tenant with no buckets; a missing user name or password builder falls
      back to the default parameter. */
  function AddMinIo(name: string, username: Option<Parameter>, password: Option<Parameter>): (t: S3Tenant)
    ensures t.name == name && t.buckets == [] && t.policies == []
    ensures username.None? ==> S3Credentials(t).accessKey == "minio"
    ensures password.None? ==> S3Credentials(t).secretKey == "miniopassword" && t.secretKey.secret
    ensures username.Some? ==> t.accessKey == username.value
    ensures password.Some? ==> t.secretKey == password.value
  {
    S3Tenant(
      name,
      if username.Some? then username.value else DefaultUsername,
      if password.Some? then password.value else DefaultPassword,
      [], [])
  }

  /** Appends a new bucket with the private template in place of the empty string a
      fresh bucket resource starts with. */
  function AddBucket(t: S3Tenant, name: string): (r: S3Tenant)
    ensures r == t.(buckets := r.buckets)
    ensures |r.buckets| == |t.buckets| + 1 && r.buckets[..|t.buckets|] == t.buckets
    ensures r.buckets[|t.buckets|] == Bucket(t.name, name, Structured(PrivateDocument(name)))
    ensures r.buckets[|t.buckets|].policy != NewBucket(t.name, name).policy
  {
    t.(buckets := t.buckets + [WithTemplate(NewBucket(t.name, name), Private)])
  }

  /** The bucket's own connection string. */
  function BucketConnectionString(b: Bucket): string
  {
    "s3://" + b.name
  }

  lemma BucketConnectionStringInjective(b: Bucket, c: Bucket)
    ensures BucketConnectionString(b) == BucketConnectionString(c) <==> b.name == c.name
  {
    if BucketConnectionString(b) == BucketConnectionString(c) {
      assert b.name == BucketConnectionString(b)[5..];
      assert c.name == BucketConnectionString(c)[5..];
    }
  }

  const CheckSuffix := "_check"

  /** The bucket health-check key of this package. */
  function CheckKey(name: string): string
  {
    name + CheckSuffix
  }

  lemma CheckKeyInjective(n: string, m: string)
    ensures CheckKey(n) == CheckKey(m) <==> n == m
  {
    if CheckKey(n) == CheckKey(m) {
      HealthKeys.SuffixCancels(n, m, CheckSuffix);
    }
  }

  /** The same tenant seen by the full package, with no policies and no users. */
  function AsTenant(t: S3Tenant): Tenant
  {
    Tenant(t.name, t.accessKey, t.secretKey, t.buckets, [], [])
  }

  datatype ReadyResource = S3TenantReady(tenant: S3Tenant) | S3OtherReady(name: string)

  /** The ready handler: build (or reuse) the data client, then the bucket step for
      every bucket in order, stopping at the first exception. */
  function OnReady(res: ReadyResource, w: World): (r: Run<seq<Outcome>>)
    ensures !res.S3TenantReady? ==> r == Run(w, [], Success([]))
    ensures res.S3TenantReady? ==>
              && r.world.cache == GetClient(w.cache, w.endpoints, S3Credentials(res.tenant)).0
              && r.world.script == w.script && r.world.faults == w.faults && r.world.endpoints == w.endpoints
              && (r.outcome.Success? ==> |r.outcome.value| == |res.tenant.buckets|)
  {
    if !res.S3TenantReady? then Run(w, [], Success([]))
    else
      var t := res.tenant;
      var cred := S3Credentials(t);
      var w0 := w.(cache := GetClient(w.cache, w.endpoints, cred).0);
      StepOfStorageOnly(cred);
      ForEachStorageOnly(StepOf(cred), t.buckets, w0);
      ForEach(StepOf(cred), BucketDecls(t.buckets), w0)
  }

  /** A bucket step changes nothing but the server and calls nothing but the storage
      API. */
  ghost predicate StorageOnly(step: Step)
  {
    forall b: Bucket, w: World ::
      && step(BucketDecl(b), w).world == w.(server := step(BucketDecl(b), w).world.server)
      && forall a :: a in Actions(step(BucketDecl(b), w).events) ==> !IsAdminCall(a) && a != SessionReset
  }

  lemma StepOfStorageOnly(cred: Credentials)
    ensures StorageOnly(StepOf(cred))
  {
    forall b: Bucket, w: World
      ensures && StepOf(cred)(BucketDecl(b), w).world == w.(server := StepOf(cred)(BucketDecl(b), w).world.server)
              && forall a :: a in Actions(StepOf(cred)(BucketDecl(b), w).events) ==> !IsAdminCall(a) && a != SessionReset
    {
      var r := EnsureBucket(b, w);
      assert StepOf(cred)(BucketDecl(b), w) == r;
    }
  }

  /** The bucket loop changes nothing but the server, and calls nothing but the storage
      API. */
  lemma {:induction false} ForEachStorageOnly(step: Step, bs: seq<Bucket>, w: World)
    requires StorageOnly(step)
    ensures var r := ForEach(step, BucketDecls(bs), w);
            && r.world == w.(server := r.world.server)
            && forall a :: a in Actions(r.events) ==> !IsAdminCall(a) && a != SessionReset
    decreases |bs|
  {
    var ds := BucketDecls(bs);
    if |bs| > 0 {
      var head := step(BucketDecl(bs[0]), w);
      assert ds[0] == BucketDecl(bs[0]);
      if head.outcome.Success? {
        assert ds[1..] == BucketDecls(bs[1..]);
        ForEachStorageOnly(step, bs[1..], head.world);
        var tail := ForEach(step, ds[1..], head.world);
        ActionsAppend(head.events, tail.events);
      }
    }
  }

  /** The handler makes no policy, user or login call. */
  lemma OnReadyStorageOnly(t: S3Tenant, w: World)
    ensures forall a :: a in Actions(OnReady(S3TenantReady(t), w).events) ==> !IsAdminCall(a) && a != SessionReset
  {
    var cred := S3Credentials(t);
    StepOfStorageOnly(cred);
    ForEachStorageOnly(StepOf(cred), t.buckets, w.(cache := GetClient(w.cache, w.endpoints, cred).0));
  }

  /** The handler does exactly what the full package's handler does for the same tenant
      with no policies and no users. */
  lemma OnReadyIsBucketPhase(t: S3Tenant, w: World)
    ensures var r := OnReady(S3TenantReady(t), w);
            var full := Provisioner.OnReady(TenantReady(AsTenant(t)), w);
            && r.events == full.events && r.world == full.world
            && (r.outcome.Success? <==> full.outcome.Success?)
            && (r.outcome.Success? ==> full.outcome.value == Report(r.outcome.value, [], []))
  {
    var cred := S3Credentials(t);
    var w0 := w.(cache := GetClient(w.cache, w.endpoints, cred).0);
    var step := StepOf(cred);
    assert TenantCredentials(AsTenant(t)) == cred;
    assert PolicyDecls([]) == [] && UserDecls([]) == [];
    ProvisionerFacts.LoopsShape(step, BucketDecls(t.buckets), [], [], w0);
    var (rb, rp, ru) := ProvisionerFacts.PhaseRuns(step, BucketDecls(t.buckets), [], [], w0);
    assert rp == Run(rb.world, [], Success([]));
    assert ru == Run(rb.world, [], Success([]));
  }

  /** Buckets are visited in declaration order; a completed run leaves every bucket in
      place when names are unique. */
  lemma OnReadyOrderAndPlacement(t: S3Tenant, w: World)
    requires NoDup(BucketNames(t.buckets))
    ensures var r := OnReady(S3TenantReady(t), w);
            && Collapse(Subjects(r.events)) <= SubjectsOf(BucketDecls(t.buckets))
            && (r.outcome.Success? ==> Collapse(Subjects(r.events)) == SubjectsOf(BucketDecls(t.buckets)))
            && (r.outcome.Success? ==> forall b :: b in t.buckets ==> InPlace(b, r.world.server))
  {
    var cred := S3Credentials(t);
    var w0 := w.(cache := GetClient(w.cache, w.endpoints, cred).0);
    ProvisionerFacts.DeclaredSubjectsShape(AsTenant(t));
    ProvisionerFacts.ForEachOrder(StepOf(cred), BucketDecls(t.buckets), w0);
    ProvisionerFacts.StepOfPlaces(cred);
    ProvisionerFacts.ForEachPlacesBuckets(StepOf(cred), t.buckets, w0);
  }
}
