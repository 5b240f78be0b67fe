/** The sample application host: a tenant named "minio" with default credentials, one
    public bucket, one named policy, and one user whose secret is given explicitly and
    who is attached to that policy. */
module Scenario {
  import opened Wrappers
  import opened Seqs
  import opened PolicyDocuments
  import opened Declared
  import opened Api
  import opened Session
  import opened Runtime
  import opened Provisioner
  import ProvisionerFacts

  /** The policy text exactly as the sample host passes it, line breaks and indentation
      included; the model stores it unchanged. */
  const PolicyJson := "{\n    \"Version\": \"2012-10-17\",\n    \"Statement\": [\n        {\n            \"Effect\": \"Allow\",\n            \"Action\": [\n                \"s3:PutObject\"\n            ],\n            \"Resource\": [\n                \"arn:aws:s3:::*\"\n            ]\n        }\n    ]\n}"

  /** The secret parameter handed to the user: a plain parameter named "accessKey". */
  const UserSecret := Parameter("accessKey", "sometestkey", false)

  function SampleTenant(): Tenant
  {
    var t0 := AddMinIo("minio", None, None);
    var t1 := WithBucketPolicy(AddBucket(t0, "some-bucket"), 0, Public);
    var t2 := AddPolicy(t1, "testpolicy", PolicyJson);
    var t3 := AddUser(t2, "testuser", Some(UserSecret), "");
    WithUserPolicies(t3, 0, [t3.policies[0]])
  }

  const SampleBucket := Bucket("minio", "some-bucket", Structured(PublicDocument("some-bucket")))
  const SamplePolicy := NamedPolicy("minio", "testpolicy", PolicyJson)

  const SampleUser := User("minio", "testuser", UserAccessKey("testuser"), UserSecret, [SamplePolicy])

  /** What the declarations amount to. */
  lemma SampleTenantShape()
    ensures SampleTenant() == Tenant("minio", DefaultUsername, DefaultPassword, [SampleBucket], [SamplePolicy], [SampleUser])
  {
    var t0 := AddMinIo("minio", None, None);
    DefaultsStep();
    var t1 := WithBucketPolicy(AddBucket(t0, "some-bucket"), 0, Public);
    BucketStep(t0);
    var t2 := AddPolicy(t1, "testpolicy", PolicyJson);
    PolicyStep(t1);
    var t3 := AddUser(t2, "testuser", Some(UserSecret), "");
    UserStep(t2);
    AttachStep(t3);
  }

  lemma DefaultsStep()
    ensures AddMinIo("minio", None, None) == Tenant("minio", DefaultUsername, DefaultPassword, [], [], [])
  {
  }

  lemma BucketStep(t0: Tenant)
    requires t0.buckets == [] && t0.name == "minio"
    ensures WithBucketPolicy(AddBucket(t0, "some-bucket"), 0, Public) == t0.(buckets := [SampleBucket])
  {
    var t := AddBucket(t0, "some-bucket");
    assert t.buckets == [t.buckets[0]];
  }

  lemma PolicyStep(t1: Tenant)
    requires t1.policies == [] && t1.name == "minio"
    ensures AddPolicy(t1, "testpolicy", PolicyJson) == t1.(policies := [SamplePolicy])
  {
    var t := AddPolicy(t1, "testpolicy", PolicyJson);
    assert t.policies == [t.policies[0]];
  }

  lemma UserStep(t2: Tenant)
    requires t2.users == [] && t2.name == "minio"
    ensures AddUser(t2, "testuser", Some(UserSecret), "") == t2.(users := [SampleUser.(policies := [])])
  {
    var t := AddUser(t2, "testuser", Some(UserSecret), "");
    assert t.users == [t.users[0]];
  }

  lemma AttachStep(t3: Tenant)
    requires t3.policies == [SamplePolicy] && t3.users == [SampleUser.(policies := [])]
    ensures WithUserPolicies(t3, 0, [t3.policies[0]]) == t3.(users := [SampleUser])
  {
    assert [SamplePolicy][..0] == [];
    assert AppendNew([], [SamplePolicy]) == [SamplePolicy];
    var t := WithUserPolicies(t3, 0, [t3.policies[0]]);
    assert t.users == [t.users[0]];
  }

  lemma SampleTenantUnique()
    ensures UniqueNames(SampleTenant())
  {
    SampleTenantShape();
  }

  /** The server after one complete run. */
  const SampleServer := ServerState(
    {"some-bucket"},
    map["some-bucket" := Structured(PublicDocument("some-bucket"))],
    map["testpolicy" := PolicyJson],
    map["testuser" := UserRecord("sometestkey", ["testpolicy"], [])])

  /** The console's answers for the run: each login succeeds and sets a session cookie,
      each probe says "not found", each create succeeds. */
  const SampleScript := [Response(Succeeded, ["token"]), Response(OtherFailure, []), Response(Succeeded, []),
                         Response(Succeeded, ["token"]), Response(OtherFailure, []), Response(Succeeded, [])]

  /** Against an empty server and the answers above, one run creates everything: the
      public bucket, the policy under its name, and the user under the access key
      "testuser" with the secret "sometestkey" and the one policy. */
  lemma SampleRunCreatesEverything(e: Endpoints)
    ensures var r := OnReady(TenantReady(SampleTenant()), World(EmptyServer, {}, SampleScript, EmptyCache, e));
            && r.outcome == Success(Report([Created], [Created], [Created]))
            && r.world.server == SampleServer
  {
    SampleTenantShape();
    SampleRun(SampleTenant(), World(EmptyServer, {}, SampleScript, EmptyCache, e));
  }

  lemma SampleRun(t: Tenant, w: World)
    requires t == Tenant("minio", DefaultUsername, DefaultPassword, [SampleBucket], [SamplePolicy], [SampleUser])
    requires w.server == EmptyServer && w.faults == {} && w.script == SampleScript && w.cache == EmptyCache
    ensures var r := OnReady(TenantReady(t), w);
            r.outcome == Success(Report([Created], [Created], [Created])) && r.world.server == SampleServer
  {
    var cred := TenantCredentials(t);
    var w0 := w.(cache := GetClient(w.cache, w.endpoints, cred).0);
    ProvisionerFacts.LoopsShape(StepOf(cred), BucketDecls(t.buckets), PolicyDecls(t.policies), UserDecls(t.users), w0);
    SamplePhases(t, w);
  }

  lemma SamplePhases(t: Tenant, w: World)
    requires t == Tenant("minio", DefaultUsername, DefaultPassword, [SampleBucket], [SamplePolicy], [SampleUser])
    requires w.server == EmptyServer && w.faults == {} && w.script == SampleScript && w.cache == EmptyCache
    ensures var cred := TenantCredentials(t);
            var (rb, rp, ru) := ProvisionerFacts.PhaseRuns(StepOf(cred), BucketDecls(t.buckets), PolicyDecls(t.policies),
                                                           UserDecls(t.users), w.(cache := GetClient(w.cache, w.endpoints, cred).0));
            && rb.outcome == Success([Created]) && rp.outcome == Success([Created]) && ru.outcome == Success([Created])
            && ru.world.server == SampleServer
  {
    var cred := TenantCredentials(t);
    var w0 := w.(cache := GetClient(w.cache, w.endpoints, cred).0);
    var (rb, rp, ru) := ProvisionerFacts.PhaseRuns(StepOf(cred), BucketDecls(t.buckets), PolicyDecls(t.policies), UserDecls(t.users), w0);
    SampleBuckets(cred, t.buckets, w0);
    SamplePolicies(cred, t.policies, rb.world);
    SampleUsers(cred, t.users, rp.world);
    SampleServerReached();
  }

  /** The server the three creates build, step by step, from an empty one. */
  lemma SampleServerReached()
    ensures Apply(Apply(Placed(SampleBucket, EmptyServer), CreatePolicy("testpolicy", PolicyJson)),
                  CreateUser("testuser", "sometestkey", ["testpolicy"], [])) == SampleServer
  {
  }

  lemma SampleBuckets(cred: Credentials, bs: seq<Bucket>, w: World)
    requires bs == [SampleBucket] && w.server == EmptyServer && w.faults == {}
    ensures var r := ForEach(StepOf(cred), BucketDecls(bs), w);
            r.outcome == Success([Created]) && r.world == w.(server := Placed(SampleBucket, EmptyServer))
  {
    assert BucketDecls(bs) == [BucketDecl(SampleBucket)];
    SampleBucketPhase(cred, SampleBucket, w);
  }

  lemma SamplePolicies(cred: Credentials, ps: seq<NamedPolicy>, w: World)
    requires ps == [SamplePolicy] && w.cache.adminClient.None? && w.script == SampleScript
    ensures var r := ForEach(StepOf(cred), PolicyDecls(ps), w);
            r.outcome == Success([Created])
            && r.world == w.(server := Apply(w.server, CreatePolicy("testpolicy", PolicyJson)), script := SampleScript[3..])
  {
    assert PolicyDecls(ps) == [PolicyDecl(SamplePolicy)];
    assert SampleScript == SampleScript[..3] + SampleScript[3..];
    SampleAdminPhase(cred, PolicyDecl(SamplePolicy), CreatePolicy("testpolicy", PolicyJson), w, SampleScript[3..]);
  }

  lemma SampleUsers(cred: Credentials, us: seq<User>, w: World)
    requires us == [SampleUser] && w.cache.adminClient.None? && w.script == SampleScript[3..]
    ensures var r := ForEach(StepOf(cred), UserDecls(us), w);
            r.outcome == Success([Created])
            && r.world == w.(server := Apply(w.server, CreateUser("testuser", "sometestkey", ["testpolicy"], [])), script := [])
  {
    assert UserDecls(us) == [UserDecl(SampleUser)];
    assert PolicyNames(SampleUser.policies) == ["testpolicy"];
    assert w.script == SampleScript[3..] + [];
    SampleAdminPhase(cred, UserDecl(SampleUser), CreateUserRequest(SampleUser), w, []);
  }

  /** A one-bucket loop over a server without that bucket and without faults creates it. */
  lemma SampleBucketPhase(cred: Credentials, b: Bucket, w: World)
    requires b.name !in w.server.buckets && w.faults == {}
    ensures var r := ForEach(StepOf(cred), [BucketDecl(b)], w);
            r.outcome == Success([Created]) && r.world == w.(server := Placed(b, w.server))
  {
    var ds := [BucketDecl(b)];
    assert ds[1..] == [];
    var head := EnsureBucket(b, w);
    assert head.outcome == Success(Created);
    assert StepOf(cred)(ds[0], w) == head;
    var tail := ForEach(StepOf(cred), ds[1..], head.world);
    assert tail == Run(head.world, [], Success([]));
    var r := ForEach(StepOf(cred), ds, w);
    assert r == Run(tail.world, head.events + tail.events, Success([head.outcome.value] + tail.outcome.value));
    assert [Created] + [] == [Created];
  }

  /** A one-declaration policy or user loop whose login succeeds, whose probe misses and
      whose create succeeds applies the create and consumes those three answers. */
  lemma SampleAdminPhase(cred: Credentials, d: Declaration, create: Action, w: World, rest: seq<Response>)
    requires !d.BucketDecl? && w.cache.adminClient.None?
    requires create == (if d.PolicyDecl? then CreatePolicy(d.policy.name, d.policy.json) else CreateUserRequest(d.user))
    requires w.script == [Response(Succeeded, ["token"]), Response(OtherFailure, []), Response(Succeeded, [])] + rest
    ensures var r := ForEach(StepOf(cred), [d], w);
            && r.outcome == Success([Created])
            && r.world == w.(server := Apply(w.server, create), script := rest)
  {
    var s := SubjectOf(d);
    var probe := if d.PolicyDecl? then GetPolicy(d.policy.name) else GetUser(d.user.name);
    var head := EnsureAdminObject(cred, s, probe, create, w);
    AdminCreated(cred, s, probe, create, w, rest);
    assert StepOf(cred)(d, w) == head;
    OneStep(StepOf(cred), d, w);
  }

  /** A first attempt whose login succeeds, whose probe misses and whose create succeeds. */
  lemma AdminCreated(cred: Credentials, s: Subject, probe: Action, create: Action, w: World, rest: seq<Response>)
    requires w.cache.adminClient.None?
    requires w.script == [Response(Succeeded, ["token"]), Response(OtherFailure, []), Response(Succeeded, [])] + rest
    ensures var r := EnsureAdminObject(cred, s, probe, create, w);
            r.outcome == Success(Created) && r.world == w.(server := Apply(w.server, create), script := rest)
  {
    assert w.script[3..] == rest;
    assert LoginAccepted(Peek(w.script, 0)) && Peek(w.script, 1).status == OtherFailure && Peek(w.script, 2).status == Succeeded;
    assert Take(Take(Take(w).1).1).1.script == rest;
    AttemptAnswers(cred, s, probe, create, w);
  }

  /** A loop over one declaration is that declaration's step. */
  lemma OneStep(step: Step, d: Declaration, w: World)
    ensures var head := step(d, w);
            var r := ForEach(step, [d], w);
            && r.world == head.world
            && (head.outcome.Success? ==> r.outcome == Success([head.outcome.value]))
  {
    assert [d][1..] == [];
    var head := step(d, w);
    if head.outcome.Success? {
      var tail := ForEach(step, [d][1..], head.world);
      assert tail == Run(head.world, [], Success([]));
      assert [head.outcome.value] + [] == [head.outcome.value];
    }
  }
}
