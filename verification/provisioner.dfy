/** The ready handler of the MinIO package and the three create-or-skip steps it runs:
    every bucket, then every named policy, then every user, each list in declaration
    order, stopping at the first exception.
    - A bucket is created only if `BucketExists` says it is absent, and its policy is
      set either way; any storage exception becomes an error naming the bucket.
    - A policy or user is created only if its `Get` is non-success (a 403 there counts
      as absent). A 403 on the create resets the admin client and runs the whole
      login, get and create sequence again, with no retry counter: under a response
      script the number of attempts is one more than the number of leading 403 create
      answers. Any other failed create is logged and the run goes on. */
module Provisioner {
  import opened Wrappers
  import opened Seqs
  import opened PolicyDocuments
  import opened Declared
  import opened Api
  import opened Session
  import opened Runtime

  /** How one declared resource ended: created, found already present, or refused by
      the admin API with a non-403 status (logged, not fatal). */
  datatype Outcome = Created | AlreadyExisted | CreateRejected

  /** A bucket is in place: it exists and carries the declared policy. */
  predicate InPlace(b: Bucket, s: ServerState)
  {
    b.name in s.buckets && b.name in s.bucketPolicies && s.bucketPolicies[b.name] == b.policy
  }

  /** The server once bucket `b` has been made. */
  function WithBucket(b: Bucket, s: ServerState): ServerState
  {
    s.(buckets := s.buckets + {b.name})
  }

  /** The server once bucket `b` has been made and given its declared policy. */
  function Placed(b: Bucket, s: ServerState): (r: ServerState)
    ensures InPlace(b, r)
  {
    WithBucket(b, s).(bucketPolicies := s.bucketPolicies[b.name := b.policy])
  }

  /** The part of the bucket step after the existence probe: make the bucket unless the
      probe found it, then set its policy either way. */
  function PlaceBucket(b: Bucket, present: bool, w: World): (r: Run<Outcome>)
    requires present <==> b.name in w.server.buckets
    ensures r.world == w.(server := r.world.server)
    ensures r.outcome.Success? ==> r.world.server == Placed(b, w.server)
    ensures r.outcome.Failure? ==> r.world.server == w.server || r.world.server == WithBucket(b, w.server)
    ensures |r.events| > 0 && About(r.events, OfBucket(b.name))
    ensures forall a :: a in Actions(r.events) ==> a == MakeBucket(b.name) || a == SetBucketPolicy(b.name, b.policy)
    ensures MakeBucket(b.name) in Actions(r.events) <==> !present
    ensures r.outcome.Success? ==>
              && Actions(r.events)[|r.events| - 1] == SetBucketPolicy(b.name, b.policy)
              && r.outcome.value == (if present then AlreadyExisted else Created)
    ensures r.outcome.Failure? ==>
              && r.outcome.error == NotCreated(OfBucket(b.name), StorageThrew(Actions(r.events)[|r.events| - 1]))
              && Actions(r.events)[|r.events| - 1] in w.faults
  {
    var s := OfBucket(b.name);
    var made := if present then Run(w, [], Success(true)) else Storage(MakeBucket(b.name), s, w);
    assert made.outcome.Success? ==> made.world.server == WithBucket(b, w.server);
    assert Actions(made.events) == if present then [] else [MakeBucket(b.name)];
    if made.outcome.Failure? then
      assert Actions(made.events)[0] == MakeBucket(b.name);
      Run(made.world, made.events, Failure(NotCreated(s, made.outcome.error)))
    else
      var setPolicy := Storage(SetBucketPolicy(b.name, b.policy), s, made.world);
      ActionsAppend(made.events, setPolicy.events);
      assert Actions(setPolicy.events) == [SetBucketPolicy(b.name, b.policy)];
      Run(setPolicy.world, made.events + setPolicy.events,
        if setPolicy.outcome.Failure? then Failure(NotCreated(s, setPolicy.outcome.error))
        else Success(if present then AlreadyExisted else Created))
  }

  /** The bucket step: make the bucket if absent, then always set its policy. */
  function EnsureBucket(b: Bucket, w: World): (r: Run<Outcome>)
    ensures r.world == w.(server := r.world.server)
    ensures r.outcome.Success? ==> r.world.server == Placed(b, w.server)
    ensures r.outcome.Failure? ==> r.world.server == w.server || r.world.server == WithBucket(b, w.server)
    ensures |r.events| > 0 && About(r.events, OfBucket(b.name))
    ensures r.events[0].action == BucketExists(b.name)
    ensures forall a :: a in Actions(r.events) ==>
              a == BucketExists(b.name) || a == MakeBucket(b.name) || a == SetBucketPolicy(b.name, b.policy)
    ensures MakeBucket(b.name) in Actions(r.events) ==> b.name !in w.server.buckets
    ensures r.outcome.Success? ==> (MakeBucket(b.name) in Actions(r.events) <==> b.name !in w.server.buckets)
    ensures r.outcome.Success? ==> Actions(r.events)[|r.events| - 1] == SetBucketPolicy(b.name, b.policy)
    ensures r.outcome.Success? ==> r.outcome.value == if b.name in w.server.buckets then AlreadyExisted else Created
    ensures r.outcome.Failure? ==>
              && r.outcome.error.NotCreated? && r.outcome.error.subject == OfBucket(b.name)
              && r.outcome.error.cause == StorageThrew(Actions(r.events)[|r.events| - 1])
              && Actions(r.events)[|r.events| - 1] in w.faults
  {
    var s := OfBucket(b.name);
    var probe := Storage(BucketExists(b.name), s, w);
    if probe.outcome.Failure? then Run(probe.world, probe.events, Failure(NotCreated(s, probe.outcome.error)))
    else
      var rest := PlaceBucket(b, probe.outcome.value, probe.world);
      ActionsAppend(probe.events, rest.events);
      Run(rest.world, probe.events + rest.events, rest.outcome)
  }

  /** Running the bucket step again after it succeeded makes no bucket and changes
      nothing on the server. */
  lemma EnsureBucketIdempotent(b: Bucket, w: World)
    requires EnsureBucket(b, w).outcome.Success?
    ensures var w1 := EnsureBucket(b, w).world;
            var again := EnsureBucket(b, w1);
            && again.outcome == Success(AlreadyExisted)
            && MakeBucket(b.name) !in Actions(again.events)
            && again.world == w1
  {
    var w1 := EnsureBucket(b, w).world;
    EnsureBucketInPlace(b, w1);
  }

  /** The bucket step on a bucket already in place leaves the server as it is. */
  lemma EnsureBucketInPlace(b: Bucket, w: World)
    requires InPlace(b, w.server)
    ensures var r := EnsureBucket(b, w);
            && r.world == w
            && (forall a :: a in Actions(r.events) ==> !IsCreate(a))
            && (r.outcome.Success? ==> r.outcome.value == AlreadyExisted)
  {
    var r := EnsureBucket(b, w);
    assert w.server.buckets + {b.name} == w.server.buckets;
    assert w.server.bucketPolicies[b.name := b.policy] == w.server.bucketPolicies;
    assert forall a :: a in Actions(r.events) ==> a.BucketExists? || a.SetBucketPolicy? by {
      if BucketExists(b.name) !in w.faults {
        assert Actions(r.events)[0] == BucketExists(b.name);
      }
    }
  }

  /** A fault wrapping a rejected login once per attempt made on behalf of `s`. */
  predicate LoginChain(f: Fault, s: Subject)
    decreases f
  {
    f.NotCreated? && f.subject == s && (IsLoginFault(f.cause) || LoginChain(f.cause, s))
  }

  /** How one attempt ended: settled with an outcome, or the create answered 403. */
  datatype Attempted = Settled(outcome: Outcome) | CreateForbidden

  /** One pass of the policy/user sequence: obtain an admin client (a login while the
      field is empty), probe, and create if the probe is non-success. */
  function Attempt(cred: Credentials, s: Subject, probe: Action, create: Action, w: World): (r: Run<Attempted>)
    ensures r.world == w.(script := r.world.script, server := r.world.server)
    ensures |r.world.script| <= |w.script|
    ensures r.outcome == Success(CreateForbidden) ==> |r.world.script| < |w.script|
    ensures r.world.server == if r.outcome == Success(Settled(Created)) then Apply(w.server, create) else w.server
    ensures |r.events| > 0 && About(r.events, s)
    ensures forall a :: a in Actions(r.events) ==> a == LoginRequest(cred) || a == probe || a == create
    ensures r.outcome.Failure? ==> IsLoginFault(r.outcome.error)
    ensures r.outcome.Success? ==> r.outcome.value != Settled(CreateRejected) || create in Actions(r.events)
    ensures r.outcome == Success(Settled(AlreadyExisted)) ==> Holds(w.server, probe)
  {
    var session := AdminSession(cred, s, w);
    if session.outcome.Failure? then Run(session.world, session.events, Failure(session.outcome.error))
    else
      var rest := ProbeAndCreate(s, probe, create, session.world);
      ActionsAppend(session.events, rest.events);
      AboutAppend(session.events, rest.events, s);
      Run(rest.world, session.events + rest.events, rest.outcome)
  }

  /** The part of an attempt after the login: the probe, then the create unless the
      probe found the object (a 403 on the probe counts as not found). */
  function ProbeAndCreate(s: Subject, probe: Action, create: Action, w: World): (r: Run<Attempted>)
    ensures r.world == w.(script := r.world.script, server := r.world.server)
    ensures r.outcome.Success?
    ensures |r.world.script| <= |w.script|
    ensures r.outcome.value == CreateForbidden ==> |r.world.script| < |w.script|
    ensures r.world.server == if r.outcome.value == Settled(Created) then Apply(w.server, create) else w.server
    ensures |r.events| > 0 && About(r.events, s)
    ensures forall a :: a in Actions(r.events) ==> a == probe || a == create
    ensures r.outcome.value == Settled(CreateRejected) ==> create in Actions(r.events)
    ensures r.outcome.value == Settled(AlreadyExisted) ==> Holds(w.server, probe)
  {
    var (got, w1) := Take(w);
    if ProbeStatus(got, w.server, probe) == Succeeded then Run(w1, [Event(s, probe)], Success(Settled(AlreadyExisted)))
    else
      var (answer, w2) := Take(w1);
      var events := [Event(s, probe), Event(s, create)];
      assert Actions(events) == [probe, create];
      if answer.status == Forbidden then Run(w2, events, Success(CreateForbidden))
      else if answer.status != Succeeded then Run(w2, events, Success(Settled(CreateRejected)))
      else Run(w2.(server := Apply(w2.server, create)), events, Success(Settled(Created)))
  }

  /** What an attempt does with a fresh login, as a function of the next three scripted
      answers and of the server: a login that yields no client ends it with that login's
      fault; a probe that finds the object settles it as already existing; otherwise the
      create's answer decides between a retry (403), created, and a logged rejection. */
  lemma AttemptAnswers(cred: Credentials, s: Subject, probe: Action, create: Action, w: World)
    requires w.cache.adminClient.None?
    ensures var r := Attempt(cred, s, probe, create, w);
            && (!LoginAccepted(Peek(w.script, 0)) ==>
                  r == Run(Take(w).1, [Event(s, LoginRequest(cred))], Failure(LoginFault(Peek(w.script, 0)))))
            && (LoginAccepted(Peek(w.script, 0)) && ProbeStatus(Peek(w.script, 1), w.server, probe) == Succeeded ==>
                  && r.outcome == Success(Settled(AlreadyExisted))
                  && Actions(r.events) == [LoginRequest(cred), probe]
                  && r.world.script == Take(Take(w).1).1.script)
            && (LoginAccepted(Peek(w.script, 0)) && ProbeStatus(Peek(w.script, 1), w.server, probe) != Succeeded ==>
                  && Actions(r.events) == [LoginRequest(cred), probe, create]
                  && r.world.script == Take(Take(Take(w).1).1).1.script
                  && r.outcome == Success(match Peek(w.script, 2).status
                                          case Forbidden => CreateForbidden
                                          case Succeeded => Settled(Created)
                                          case OtherFailure => Settled(CreateRejected)))
  {
    var r := Attempt(cred, s, probe, create, w);
    var session := AdminSession(cred, s, w);
    PeekAfterTake(w.script, 0);
    PeekAfterTake(w.script, 1);
    PeekAfterTake(Take(w).1.script, 0);
    if session.outcome.Success? {
      var rest := ProbeAndCreate(s, probe, create, session.world);
      assert r.events == session.events + rest.events;
      assert session.world == Take(w).1;
    }
  }

  /** The create-or-skip sequence shared by policies and users. A 403 on the create
      resets the admin client and starts over from the login; a fault raised by a nested
      attempt is wrapped again by every enclosing one. Each attempt consumes at least one
      scripted response, which is what bounds the recursion here. */
  function EnsureAdminObject(cred: Credentials, s: Subject, probe: Action, create: Action, w: World): (r: Run<Outcome>)
    ensures r.world.faults == w.faults && r.world.endpoints == w.endpoints
    ensures r.world.cache.client == w.cache.client
    ensures w.cache.adminClient.None? ==> r.world.cache.adminClient.None?
    ensures |r.world.script| <= |w.script|
    ensures r.world.server == if r.outcome == Success(Created) then Apply(w.server, create) else w.server
    ensures |r.events| > 0 && About(r.events, s)
    ensures forall a :: a in Actions(r.events) ==> a == LoginRequest(cred) || a == probe || a == create || a == SessionReset
    ensures r.outcome == Success(AlreadyExisted) ==> Holds(w.server, probe)
    ensures r.outcome.Failure? ==> LoginChain(r.outcome.error, s)
    decreases |w.script|
  {
    var first := Attempt(cred, s, probe, create, w);
    match first.outcome
    case Failure(e) => Run(first.world, first.events, Failure(NotCreated(s, e)))
    case Success(Settled(o)) => Run(first.world, first.events, Success(o))
    case Success(CreateForbidden) =>
      var retry := EnsureAdminObject(cred, s, probe, create, first.world.(cache := ResetAdminClient(first.world.cache)));
      AfterReset(first.events, s, retry)
  }

  /** A retry's result as the enclosing attempt reports it: the reset between the two
      attempts' events, and a fault from the retry wrapped once more for the subject. */
  function AfterReset(before: seq<Event>, s: Subject, retry: Run<Outcome>): (r: Run<Outcome>)
    ensures r.world == retry.world
    ensures r.events == before + [Event(s, SessionReset)] + retry.events
    ensures Actions(r.events) == Actions(before) + [SessionReset] + Actions(retry.events)
    ensures About(before, s) && About(retry.events, s) ==> About(r.events, s)
    ensures retry.outcome.Success? ==> r.outcome == retry.outcome
    ensures retry.outcome.Failure? ==> r.outcome == Failure(NotCreated(s, retry.outcome.error))
  {
    var events := before + [Event(s, SessionReset)] + retry.events;
    assert Actions(events) == Actions(before) + [SessionReset] + Actions(retry.events);
    assert About(before, s) && About(retry.events, s) ==> About(events, s) by {
      if About(before, s) && About(retry.events, s) {
        AboutAppend(before + [Event(s, SessionReset)], retry.events, s);
      }
    }
    match retry.outcome
    case Failure(e) => Run(retry.world, events, Failure(NotCreated(s, e)))
    case Success(o) => Run(retry.world, events, Success(o))
  }

  /** The policy step: probe `GET /api/v1/policy/{name}`, create with name and document. */
  function EnsurePolicy(cred: Credentials, p: NamedPolicy, w: World): (r: Run<Outcome>)
    ensures forall a :: a in Actions(r.events) && a.CreatePolicy? ==> a == CreatePolicy(p.name, p.json)
    ensures forall a :: a in Actions(r.events) ==> !a.CreateUser? && !a.MakeBucket?
    ensures r.outcome == Success(Created) ==> p.name in r.world.server.policies && r.world.server.policies[p.name] == p.json
    ensures r.outcome.Success? && r.outcome.value != CreateRejected ==> p.name in r.world.server.policies
    ensures w.server.policies.Keys <= r.world.server.policies.Keys
    ensures r.world.server.buckets == w.server.buckets && r.world.server.bucketPolicies == w.server.bucketPolicies
    ensures r.world.server.users == w.server.users
  {
    var r := EnsureAdminObject(cred, OfPolicy(p.name), GetPolicy(p.name), CreatePolicy(p.name, p.json), w);
    assert r.outcome.Success? && r.outcome.value != CreateRejected ==> p.name in r.world.server.policies by {
      if r.outcome.Success? && r.outcome.value == AlreadyExisted {
        assert r.outcome == Success(AlreadyExisted);
        assert Holds(w.server, GetPolicy(p.name));
        assert r.world.server == w.server;
      }
    }
    r
  }

  /** The create-user request: the user's name as access key, the resolved secret, the
      attached policies' names in list order, and no groups. */
  function CreateUserRequest(u: User): Action
  {
    CreateUser(u.name, u.secretKey.value, PolicyNames(u.policies), [])
  }

  /** The user step: probe `GET /api/v1/user/{name}`, create with the request above. */
  function EnsureUser(cred: Credentials, u: User, w: World): (r: Run<Outcome>)
    ensures forall a :: a in Actions(r.events) && a.CreateUser? ==>
              a.accessKey == u.name && a.secretKey == u.secretKey.value && a.groups == []
              && |a.policies| == |u.policies| && forall i :: 0 <= i < |u.policies| ==> a.policies[i] == u.policies[i].name
    ensures forall a :: a in Actions(r.events) ==> !a.CreatePolicy? && !a.MakeBucket?
    ensures r.outcome == Success(Created) ==>
              u.name in r.world.server.users && r.world.server.users[u.name] == UserRecord(u.secretKey.value, PolicyNames(u.policies), [])
    ensures r.outcome.Success? && r.outcome.value != CreateRejected ==> u.name in r.world.server.users
    ensures w.server.users.Keys <= r.world.server.users.Keys
    ensures r.world.server.buckets == w.server.buckets && r.world.server.bucketPolicies == w.server.bucketPolicies
    ensures r.world.server.policies == w.server.policies
  {
    var r := EnsureAdminObject(cred, OfUser(u.name), GetUser(u.name), CreateUserRequest(u), w);
    assert r.outcome.Success? && r.outcome.value != CreateRejected ==> u.name in r.world.server.users by {
      if r.outcome.Success? && r.outcome.value == AlreadyExisted {
        assert r.outcome == Success(AlreadyExisted);
        assert Holds(w.server, GetUser(u.name));
        assert r.world.server == w.server;
      }
    }
    r
  }

  /** One entry of a tenant's declarations. */
  datatype Declaration = BucketDecl(bucket: Bucket) | PolicyDecl(policy: NamedPolicy) | UserDecl(user: User)

  function SubjectOf(d: Declaration): Subject
  {
    match d
    case BucketDecl(b) => OfBucket(b.name)
    case PolicyDecl(p) => OfPolicy(p.name)
    case UserDecl(u) => OfUser(u.name)
  }

  function SubjectsOf(ds: seq<Declaration>): (ss: seq<Subject>)
    ensures |ss| == |ds| && forall i :: 0 <= i < |ds| ==> ss[i] == SubjectOf(ds[i])
  {
    seq(|ds|, i requires 0 <= i < |ds| => SubjectOf(ds[i]))
  }

  /** The server only gains buckets, policies and users. */
  predicate Grows(s: ServerState, s': ServerState)
  {
    s.buckets <= s'.buckets && s.policies.Keys <= s'.policies.Keys && s.users.Keys <= s'.users.Keys
  }

  /** The server holds the object a declaration names. */
  predicate HeldBy(d: Declaration, s: ServerState)
  {
    match d
    case BucketDecl(b) => b.name in s.buckets
    case PolicyDecl(p) => p.name in s.policies
    case UserDecl(u) => u.name in s.users
  }

  /** The world fields no step changes, a server that only grows, and a script that
      never grows. */
  predicate Keeps(w: World, w': World)
  {
    && w'.faults == w.faults && w'.endpoints == w.endpoints
    && Grows(w.server, w'.server)
    && w'.cache.client == w.cache.client
    && (w.cache.adminClient.None? ==> w'.cache.adminClient.None?)
    && |w'.script| <= |w.script|
  }

  /** The step run for one declaration. */
  function Ensure(cred: Credentials, d: Declaration, w: World): (r: Run<Outcome>)
    ensures Keeps(w, r.world)
    ensures |r.events| > 0 && About(r.events, SubjectOf(d))
    ensures r.outcome.Success? && r.outcome.value != CreateRejected ==> HeldBy(d, r.world.server)
  {
    match d
    case BucketDecl(b) => EnsureBucket(b, w)
    case PolicyDecl(p) => EnsurePolicy(cred, p, w)
    case UserDecl(u) => EnsureUser(cred, u, w)
  }

  /** A per-declaration step, as the loops below see it. */
  type Step = (Declaration, World) -> Run<Outcome>

  /** A step that keeps the fields above and acts only on behalf of its declaration. */
  ghost predicate Disciplined(step: Step)
  {
    forall d, w :: Keeps(w, step(d, w).world) && |step(d, w).events| > 0 && About(step(d, w).events, SubjectOf(d))
  }

  /** The handler's step for a tenant with credentials `cred`. */
  function StepOf(cred: Credentials): (step: Step)
    ensures Disciplined(step)
  {
    (d, w) => Ensure(cred, d, w)
  }

  /** One `foreach` over a declaration list: each step in order, stopping at the first
      exception, collecting one outcome per declaration. */
  function ForEach(step: Step, ds: seq<Declaration>, w: World): (r: Run<seq<Outcome>>)
    ensures r.outcome.Success? ==> |r.outcome.value| == |ds|
    ensures Disciplined(step) ==> Keeps(w, r.world)
    ensures Disciplined(step) ==> forall i :: 0 <= i < |r.events| ==> r.events[i].subject in SubjectsOf(ds)
    decreases |ds|
  {
    if |ds| == 0 then Run(w, [], Success([]))
    else
      var head := step(ds[0], w);
      if head.outcome.Failure? then Run(head.world, head.events, Failure(head.outcome.error))
      else
        var tail := ForEach(step, ds[1..], head.world);
        assert forall x :: x in SubjectsOf(ds[1..]) ==> x in SubjectsOf(ds);
        Run(tail.world, head.events + tail.events,
          if tail.outcome.Failure? then Failure(tail.outcome.error)
          else Success([head.outcome.value] + tail.outcome.value))
  }

  function BucketDecls(bs: seq<Bucket>): (ds: seq<Declaration>)
    ensures |ds| == |bs| && forall i :: 0 <= i < |bs| ==> ds[i] == BucketDecl(bs[i])
  {
    seq(|bs|, i requires 0 <= i < |bs| => BucketDecl(bs[i]))
  }

  function PolicyDecls(ps: seq<NamedPolicy>): (ds: seq<Declaration>)
    ensures |ds| == |ps| && forall i :: 0 <= i < |ps| ==> ds[i] == PolicyDecl(ps[i])
  {
    seq(|ps|, i requires 0 <= i < |ps| => PolicyDecl(ps[i]))
  }

  function UserDecls(us: seq<User>): (ds: seq<Declaration>)
    ensures |ds| == |us| && forall i :: 0 <= i < |us| ==> ds[i] == UserDecl(us[i])
  {
    seq(|us|, i requires 0 <= i < |us| => UserDecl(us[i]))
  }

  /** The subjects of a tenant's declarations in the order the handler visits them. */
  function DeclaredSubjects(t: Tenant): seq<Subject>
  {
    SubjectsOf(BucketDecls(t.buckets)) + SubjectsOf(PolicyDecls(t.policies)) + SubjectsOf(UserDecls(t.users))
  }

  /** The resource a ready event carries. */
  datatype ReadyResource = TenantReady(tenant: Tenant) | OtherReady(name: string)

  datatype Report = Report(buckets: seq<Outcome>, policies: seq<Outcome>, users: seq<Outcome>)

  /** The three loops of the ready handler, each started from the world the previous
      one left, stopping at the first exception. */
  function Loops(step: Step, bs: seq<Declaration>, ps: seq<Declaration>, us: seq<Declaration>, w: World): (r: Run<Report>)
    ensures Disciplined(step) ==> Keeps(w, r.world)
    ensures r.outcome.Success? ==>
              |r.outcome.value.buckets| == |bs| && |r.outcome.value.policies| == |ps| && |r.outcome.value.users| == |us|
  {
    var rb := ForEach(step, bs, w);
    if rb.outcome.Failure? then Run(rb.world, rb.events, Failure(rb.outcome.error))
    else
      var rp := ForEach(step, ps, rb.world);
      if rp.outcome.Failure? then Run(rp.world, rb.events + rp.events, Failure(rp.outcome.error))
      else
        var ru := ForEach(step, us, rp.world);
        Run(ru.world, rb.events + rp.events + ru.events,
          if ru.outcome.Failure? then Failure(ru.outcome.error)
          else Success(Report(rb.outcome.value, rp.outcome.value, ru.outcome.value)))
  }

  /** The ready handler: build (or reuse) the data client, then the three loops. */
  function OnReady(res: ReadyResource, w: World): (r: Run<Report>)
    ensures !res.TenantReady? ==> r == Run(w, [], Success(Report([], [], [])))
    ensures res.TenantReady? ==> r.world.cache.client == GetClient(w.cache, w.endpoints, TenantCredentials(res.tenant)).0.client
    ensures w.cache.adminClient.None? ==> r.world.cache.adminClient.None?
    ensures r.world.faults == w.faults && r.world.endpoints == w.endpoints
    ensures r.outcome.Success? && res.TenantReady? ==>
              && |r.outcome.value.buckets| == |res.tenant.buckets|
              && |r.outcome.value.policies| == |res.tenant.policies|
              && |r.outcome.value.users| == |res.tenant.users|
  {
    if !res.TenantReady? then Run(w, [], Success(Report([], [], [])))
    else
      var t := res.tenant;
      var cred := TenantCredentials(t);
      Loops(StepOf(cred), BucketDecls(t.buckets), PolicyDecls(t.policies), UserDecls(t.users),
            w.(cache := GetClient(w.cache, w.endpoints, cred).0))
  }
}
