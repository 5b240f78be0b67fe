/** Properties of the ready handler and its steps that relate several calls: the retry
    count under a script of 403 answers, the order in which resources are visited, where
    the buckets end up, and what a second run does. */
module ProvisionerFacts {
  import opened Wrappers
  import opened Seqs
  import opened Declared
  import opened Api
  import opened Session
  import opened Runtime
  import opened Provisioner

  /** A successful login that sets a session cookie. */
  const Login := Response(Succeeded, ["token"])

  /** One login-probe-create round of scripted answers: the login succeeds with a
      cookie, the probe answers `miss`, the create answers `answer`. */
  function Round(miss: Status, answer: Status): seq<Response>
  {
    [Login, Response(miss, []), Response(answer, [])]
  }

  /** `k` rounds whose create is refused with 403, then one whose create answers `last`. */
  function RetryScript(k: nat, miss: Status, last: Status): seq<Response>
  {
    if k == 0 then Round(miss, last) else Round(miss, Forbidden) + RetryScript(k - 1, miss, last)
  }

  /** One scripted round, seen from a single attempt: one login, one probe, one create,
      and the round's three answers consumed. */
  lemma AttemptRound(cred: Credentials, s: Subject, probe: Action, create: Action, w: World,
                     miss: Status, answer: Status, tail: seq<Response>)
    requires w.cache.adminClient.None?
    requires miss != Succeeded
    requires w.script == Round(miss, answer) + tail
    requires create != probe && create != LoginRequest(cred) && create != SessionReset
    requires probe != LoginRequest(cred) && probe != SessionReset
    ensures var r := Attempt(cred, s, probe, create, w);
            && r.world.script == tail
            && r.world.cache == w.cache
            && r.outcome == Success(if answer == Forbidden then CreateForbidden
                                    else if answer == Succeeded then Settled(Created) else Settled(CreateRejected))
            && Count(r.events, create) == 1 && Count(r.events, LoginRequest(cred)) == 1
            && Count(r.events, SessionReset) == 0 && Count(r.events, probe) == 1
  {
    AttemptAnswers(cred, s, probe, create, w);
    var r := Attempt(cred, s, probe, create, w);
    assert LoginAccepted(Peek(w.script, 0)) && Peek(w.script, 1).status == miss && Peek(w.script, 2).status == answer;
    assert Take(Take(Take(w).1).1).1.script == w.script[3..];
    var es := r.events;
    assert Actions(es) == [LoginRequest(cred), probe, create];
    CountThree(es, create);
    CountThree(es, probe);
    CountThree(es, LoginRequest(cred));
    CountThree(es, SessionReset);
  }

  lemma CountThree(es: seq<Event>, a: Action)
    requires |es| == 3
    ensures Count(es, a) == Count([es[0]], a) + Count([es[1]], a) + Count([es[2]], a)
  {
    assert es == [es[0]] + [es[1]] + [es[2]];
    CountAppend([es[0]], [es[1]], a);
    CountAppend([es[0]] + [es[1]], [es[2]], a);
    CountSingle(es[0], a);
    CountSingle(es[1], a);
    CountSingle(es[2], a);
  }

  /** The 403 retry has no bound: with `k` leading 403 create answers the create is sent
      `k + 1` times, preceded each time by a fresh login, with `k` resets in between; the
      step then ends with the last answer's outcome, having consumed exactly those rounds. */
  lemma {:induction false} RetryCount(cred: Credentials, s: Subject, probe: Action, create: Action, w: World,
                                      k: nat, miss: Status, last: Status, rest: seq<Response>)
    requires w.cache.adminClient.None?
    requires miss != Succeeded && last != Forbidden
    requires w.script == RetryScript(k, miss, last) + rest
    requires create != probe && create != LoginRequest(cred) && create != SessionReset
    requires probe != LoginRequest(cred) && probe != SessionReset
    ensures var r := EnsureAdminObject(cred, s, probe, create, w);
            && r.outcome == Success(if last == Succeeded then Created else CreateRejected)
            && r.world.script == rest
            && Count(r.events, create) == k + 1
            && Count(r.events, LoginRequest(cred)) == k + 1
            && Count(r.events, SessionReset) == k
            && Count(r.events, probe) == k + 1
    decreases k
  {
    var answer := if k == 0 then last else Forbidden;
    var tail := if k == 0 then rest else RetryScript(k - 1, miss, last) + rest;
    assert w.script == Round(miss, answer) + tail;
    AttemptRound(cred, s, probe, create, w, miss, answer, tail);
    var first := Attempt(cred, s, probe, create, w);
    var r := EnsureAdminObject(cred, s, probe, create, w);
    if k > 0 {
      var w1 := first.world.(cache := ResetAdminClient(first.world.cache));
      RetryCount(cred, s, probe, create, w1, k - 1, miss, last, rest);
      var retry := EnsureAdminObject(cred, s, probe, create, w1);
      var reset := [Event(s, SessionReset)];
      assert r.events == first.events + reset + retry.events && r.outcome == retry.outcome && r.world == retry.world;
      CountThreeParts(first.events, reset, retry.events, create);
      CountThreeParts(first.events, reset, retry.events, probe);
      CountThreeParts(first.events, reset, retry.events, LoginRequest(cred));
      CountThreeParts(first.events, reset, retry.events, SessionReset);
    }
  }

  lemma CountThreeParts(x: seq<Event>, y: seq<Event>, z: seq<Event>, a: Action)
    requires |y| == 1
    ensures Count(x + y + z, a) == Count(x, a) + (if y[0].action == a then 1 else 0) + Count(z, a)
  {
    CountAppend(x, y, a);
    CountAppend(x + y, z, a);
    assert y == [y[0]];
    CountSingle(y[0], a);
  }

  /** One declaration list is walked in order: the events, with adjacent repeats
      merged, name the declarations' subjects in list order, all of them when the walk
      completes and a prefix of them when it stops early. */
  lemma {:induction false} ForEachOrder(step: Step, ds: seq<Declaration>, w: World)
    requires Disciplined(step) && NoDup(SubjectsOf(ds))
    ensures var r := ForEach(step, ds, w);
            && Collapse(Subjects(r.events)) <= SubjectsOf(ds)
            && (r.outcome.Success? ==> Collapse(Subjects(r.events)) == SubjectsOf(ds))
    decreases |ds|
  {
    var r := ForEach(step, ds, w);
    if |ds| > 0 {
      var head := step(ds[0], w);
      var s0 := SubjectOf(ds[0]);
      assert Uniform(Subjects(head.events), s0);
      CollapseUniform(Subjects(head.events), s0);
      assert SubjectsOf(ds) == [s0] + SubjectsOf(ds[1..]);
      if head.outcome.Failure? {
        assert r.events == head.events;
      } else {
        var tail := ForEach(step, ds[1..], head.world);
        assert r.events == head.events + tail.events;
        assert r.outcome.Success? ==> tail.outcome.Success?;
        assert SubjectsOf(ds[1..]) == SubjectsOf(ds)[1..];
        ForEachOrder(step, ds[1..], head.world);
        SubjectsAppend(head.events, tail.events);
        if |tail.events| > 0 {
          assert tail.events[0].subject in SubjectsOf(ds[1..]);
          assert s0 !in SubjectsOf(ds)[1..];
        }
        CollapseAppend(Subjects(head.events), Subjects(tail.events));
      }
    }
  }

  /** Unique names per kind make each phase's subjects unique, and the phases' subjects
      are of three different kinds. */
  lemma DeclaredSubjectsShape(t: Tenant)
    requires UniqueNames(t)
    ensures NoDup(SubjectsOf(BucketDecls(t.buckets)))
    ensures NoDup(SubjectsOf(PolicyDecls(t.policies)))
    ensures NoDup(SubjectsOf(UserDecls(t.users)))
    ensures forall x :: x in SubjectsOf(BucketDecls(t.buckets)) ==> x.OfBucket?
    ensures forall x :: x in SubjectsOf(PolicyDecls(t.policies)) ==> x.OfPolicy?
    ensures forall x :: x in SubjectsOf(UserDecls(t.users)) ==> x.OfUser?
  {
    assert forall i :: 0 <= i < |t.buckets| ==> SubjectsOf(BucketDecls(t.buckets))[i] == OfBucket(BucketNames(t.buckets)[i]);
    assert forall i :: 0 <= i < |t.policies| ==> SubjectsOf(PolicyDecls(t.policies))[i] == OfPolicy(PolicyNames(t.policies)[i]);
    assert forall i :: 0 <= i < |t.users| ==> SubjectsOf(UserDecls(t.users))[i] == OfUser(UserNames(t.users)[i]);
  }

  /** The three loop runs, each started from the world the previous one left. */
  function PhaseRuns(step: Step, bs: seq<Declaration>, ps: seq<Declaration>, us: seq<Declaration>, w: World)
    : (Run<seq<Outcome>>, Run<seq<Outcome>>, Run<seq<Outcome>>)
  {
    var rb := ForEach(step, bs, w);
    var rp := ForEach(step, ps, rb.world);
    var ru := ForEach(step, us, rp.world);
    (rb, rp, ru)
  }

  /** How the handler's events and verdict are assembled from its loops. */
  lemma LoopsShape(step: Step, bs: seq<Declaration>, ps: seq<Declaration>, us: seq<Declaration>, w: World)
    ensures var r := Loops(step, bs, ps, us, w);
            var (rb, rp, ru) := PhaseRuns(step, bs, ps, us, w);
            && (rb.outcome.Failure? ==> r.events == rb.events && r.world == rb.world && r.outcome.Failure?)
            && (rb.outcome.Success? && rp.outcome.Failure? ==>
                  r.events == rb.events + rp.events && r.world == rp.world && r.outcome.Failure?)
            && (rb.outcome.Success? && rp.outcome.Success? ==>
                  r.events == rb.events + rp.events + ru.events && r.world == ru.world
                  && (r.outcome.Success? <==> ru.outcome.Success?)
                  && (r.outcome.Success? ==> r.outcome.value == Report(rb.outcome.value, rp.outcome.value, ru.outcome.value)))
  {
  }

  /** The three loops visit every bucket, then every policy, then every user, each in
      list order; a run cut short by an exception has visited a prefix of that order. */
  lemma LoopsOrder(step: Step, bs: seq<Declaration>, ps: seq<Declaration>, us: seq<Declaration>, w: World)
    requires Disciplined(step)
    requires NoDup(SubjectsOf(bs)) && NoDup(SubjectsOf(ps)) && NoDup(SubjectsOf(us))
    requires forall x :: x in SubjectsOf(bs) ==> x.OfBucket?
    requires forall x :: x in SubjectsOf(ps) ==> x.OfPolicy?
    requires forall x :: x in SubjectsOf(us) ==> x.OfUser?
    ensures var r := Loops(step, bs, ps, us, w);
            && Collapse(Subjects(r.events)) <= SubjectsOf(bs) + SubjectsOf(ps) + SubjectsOf(us)
            && (r.outcome.Success? ==> Collapse(Subjects(r.events)) == SubjectsOf(bs) + SubjectsOf(ps) + SubjectsOf(us))
  {
    LoopsShape(step, bs, ps, us, w);
    var (rb, rp, ru) := PhaseRuns(step, bs, ps, us, w);
    ForEachOrder(step, bs, w);
    ForEachOrder(step, ps, rb.world);
    ForEachOrder(step, us, rp.world);
    SubjectsAppend(rb.events, rp.events);
    SubjectsAppend(rb.events + rp.events, ru.events);
    CollapseThree(Subjects(rb.events), Subjects(rp.events), Subjects(ru.events),
                  SubjectsOf(bs), SubjectsOf(ps), SubjectsOf(us),
                  rb.outcome.Success?, rp.outcome.Success?, ru.outcome.Success?);
  }

  /** The ready handler visits every bucket, then every policy, then every user, each
      in declaration order; a run cut short by an exception has visited a prefix of
      that order. */
  lemma OnReadyOrder(t: Tenant, w: World)
    requires UniqueNames(t)
    ensures var r := OnReady(TenantReady(t), w);
            && Collapse(Subjects(r.events)) <= DeclaredSubjects(t)
            && (r.outcome.Success? ==> Collapse(Subjects(r.events)) == DeclaredSubjects(t))
  {
    var cred := TenantCredentials(t);
    DeclaredSubjectsShape(t);
    LoopsOrder(StepOf(cred), BucketDecls(t.buckets), PolicyDecls(t.policies), UserDecls(t.users),
               w.(cache := GetClient(w.cache, w.endpoints, cred).0));
  }

  /** Every declaration list of one kind speaks only of subjects of that kind. */
  lemma DeclKinds(t: Tenant)
    ensures forall x :: x in SubjectsOf(BucketDecls(t.buckets)) ==> x.OfBucket?
    ensures forall x :: x in SubjectsOf(PolicyDecls(t.policies)) ==> x.OfPolicy?
    ensures forall x :: x in SubjectsOf(UserDecls(t.users)) ==> x.OfUser?
  {
  }

  /** A step for another subject leaves a bucket that is in place where it is. */
  lemma EnsureKeepsInPlace(cred: Credentials, d: Declaration, b: Bucket, w: World)
    requires InPlace(b, w.server) && SubjectOf(d) != OfBucket(b.name)
    ensures InPlace(b, Ensure(cred, d, w).world.server)
  {
    if d.BucketDecl? {
      var r := EnsureBucket(d.bucket, w);
      assert b.name in w.server.bucketPolicies - {d.bucket.name};
      assert (r.world.server.bucketPolicies - {d.bucket.name})[b.name] == r.world.server.bucketPolicies[b.name];
    }
  }

  /** A completed bucket step leaves its bucket in place. */
  ghost predicate PlacesItsBucket(step: Step)
  {
    forall b: Bucket, w: World :: step(BucketDecl(b), w).outcome.Success? ==> InPlace(b, step(BucketDecl(b), w).world.server)
  }

  /** A step leaves a bucket in place unless it is that bucket's own step. */
  ghost predicate SparesOtherBuckets(step: Step)
  {
    forall d: Declaration, b: Bucket, w: World :: InPlace(b, w.server) && SubjectOf(d) != OfBucket(b.name) ==> InPlace(b, step(d, w).world.server)
  }

  lemma StepOfPlaces(cred: Credentials)
    ensures PlacesItsBucket(StepOf(cred)) && SparesOtherBuckets(StepOf(cred))
  {
    forall d: Declaration, b: Bucket, w: World | InPlace(b, w.server) && SubjectOf(d) != OfBucket(b.name)
      ensures InPlace(b, StepOf(cred)(d, w).world.server)
    {
      EnsureKeepsInPlace(cred, d, b, w);
    }
  }

  lemma {:induction false} ForEachKeepsInPlace(step: Step, ds: seq<Declaration>, b: Bucket, w: World)
    requires SparesOtherBuckets(step)
    requires InPlace(b, w.server) && OfBucket(b.name) !in SubjectsOf(ds)
    ensures InPlace(b, ForEach(step, ds, w).world.server)
    decreases |ds|
  {
    if |ds| > 0 {
      var head := step(ds[0], w);
      assert SubjectsOf(ds)[0] == SubjectOf(ds[0]);
      if head.outcome.Success? {
        assert SubjectsOf(ds[1..]) == SubjectsOf(ds)[1..];
        ForEachKeepsInPlace(step, ds[1..], b, head.world);
      }
    }
  }

  /** A completed bucket loop leaves every listed bucket existing with its declared
      policy, provided no two buckets share a name. */
  lemma {:induction false} ForEachPlacesBuckets(step: Step, bs: seq<Bucket>, w: World)
    requires PlacesItsBucket(step) && SparesOtherBuckets(step)
    requires NoDup(BucketNames(bs))
    ensures var r := ForEach(step, BucketDecls(bs), w);
            r.outcome.Success? ==> forall b :: b in bs ==> InPlace(b, r.world.server)
    decreases |bs|
  {
    var ds := BucketDecls(bs);
    var r := ForEach(step, ds, w);
    if |bs| > 0 && r.outcome.Success? {
      var head := step(BucketDecl(bs[0]), w);
      assert ds[1..] == BucketDecls(bs[1..]);
      assert BucketNames(bs[1..]) == BucketNames(bs)[1..];
      var tail := ForEach(step, ds[1..], head.world);
      assert r.world == tail.world;
      ForEachPlacesBuckets(step, bs[1..], head.world);
      assert OfBucket(bs[0].name) !in SubjectsOf(ds[1..]) by {
        forall i | 0 <= i < |bs| - 1 ensures SubjectsOf(ds[1..])[i] != OfBucket(bs[0].name) {
          assert BucketNames(bs)[i + 1] != BucketNames(bs)[0];
        }
      }
      ForEachKeepsInPlace(step, ds[1..], bs[0], head.world);
      forall b | b in bs ensures InPlace(b, r.world.server) {
        if b != bs[0] {
          assert b in bs[1..];
        }
      }
    }
  }

  /** A completed run of the loops leaves every listed bucket in place: the later loops
      touch no bucket. */
  lemma LoopsPlaceBuckets(step: Step, bs: seq<Bucket>, ps: seq<Declaration>, us: seq<Declaration>, w: World)
    requires PlacesItsBucket(step) && SparesOtherBuckets(step)
    requires NoDup(BucketNames(bs))
    requires forall x :: x in SubjectsOf(ps) ==> !x.OfBucket?
    requires forall x :: x in SubjectsOf(us) ==> !x.OfBucket?
    ensures var r := Loops(step, BucketDecls(bs), ps, us, w);
            r.outcome.Success? ==> forall b :: b in bs ==> InPlace(b, r.world.server)
  {
    LoopsShape(step, BucketDecls(bs), ps, us, w);
    var (rb, rp, ru) := PhaseRuns(step, BucketDecls(bs), ps, us, w);
    ForEachPlacesBuckets(step, bs, w);
    if rb.outcome.Success? && rp.outcome.Success? {
      forall b | b in bs ensures InPlace(b, ru.world.server) {
        ForEachKeepsInPlace(step, ps, b, rb.world);
        ForEachKeepsInPlace(step, us, b, rp.world);
      }
    }
  }

  /** After a completed run every declared bucket exists with its declared policy. */
  lemma OnReadyPlacesBuckets(t: Tenant, w: World)
    requires NoDup(BucketNames(t.buckets))
    ensures var r := OnReady(TenantReady(t), w);
            r.outcome.Success? ==> forall b :: b in t.buckets ==> InPlace(b, r.world.server)
  {
    var cred := TenantCredentials(t);
    DeclKinds(t);
    StepOfPlaces(cred);
    LoopsPlaceBuckets(StepOf(cred), t.buckets, PolicyDecls(t.policies), UserDecls(t.users),
                      w.(cache := GetClient(w.cache, w.endpoints, cred).0));
  }

  /** Every remaining scripted answer is a success that carries a session cookie, so
      that any of them serves as an accepted login as well as a successful probe. */
  predicate AllAccepted(script: seq<Response>)
  {
    forall i :: 0 <= i < |script| ==> LoginAccepted(script[i])
  }

  /** None of the events creates anything. */
  predicate NoCreate(es: seq<Event>)
  {
    forall a :: a in Actions(es) ==> !IsCreate(a)
  }

  lemma NoCreateAppend(x: seq<Event>, y: seq<Event>)
    requires NoCreate(x) && NoCreate(y)
    ensures NoCreate(x + y)
  {
    ActionsAppend(x, y);
  }

  /** The step for a bucket already in place changes nothing and creates nothing. */
  ghost predicate QuietOnBuckets(step: Step)
  {
    forall b: Bucket, w: World :: InPlace(b, w.server) ==>
      && step(BucketDecl(b), w).world == w
      && NoCreate(step(BucketDecl(b), w).events)
      && (step(BucketDecl(b), w).outcome.Success? ==> step(BucketDecl(b), w).outcome.value == AlreadyExisted)
  }

  /** The next two scripted answers: an accepted login and a normal probe answer. */
  predicate TwoSuccesses(w: World)
  {
    w.cache.adminClient.None? && |w.script| >= 2 && LoginAccepted(w.script[0]) && w.script[1].status == Succeeded
  }

  /** A policy or user step for an object the server holds, whose login and probe are
      answered normally, consumes those two answers, changes nothing else and reports
      "already exists". */
  ghost predicate QuietOnAdmin(step: Step)
  {
    forall d: Declaration, w: World :: !d.BucketDecl? && TwoSuccesses(w) && HeldBy(d, w.server) ==>
      && step(d, w).world == w.(script := w.script[2..])
      && step(d, w).outcome == Success(AlreadyExisted)
      && NoCreate(step(d, w).events)
  }

  /** An admin step for an object the server holds, with an accepted login and a normal
      probe answer: two answers consumed, nothing created, "already exists". */
  lemma AdminStepQuiet(cred: Credentials, s: Subject, probe: Action, create: Action, w: World)
    requires TwoSuccesses(w) && Holds(w.server, probe)
    ensures var r := EnsureAdminObject(cred, s, probe, create, w);
            && r.world == w.(script := w.script[2..])
            && r.outcome == Success(AlreadyExisted)
            && Actions(r.events) == [LoginRequest(cred), probe]
  {
    assert Take(Take(w).1).1.script == w.script[2..];
  }

  lemma EnsureQuiet(cred: Credentials, d: Declaration, w: World)
    requires !d.BucketDecl? && TwoSuccesses(w) && HeldBy(d, w.server)
    ensures var r := Ensure(cred, d, w);
            && r.world == w.(script := w.script[2..])
            && r.outcome == Success(AlreadyExisted)
            && NoCreate(r.events)
  {
    if d.PolicyDecl? {
      var p := d.policy;
      AdminStepQuiet(cred, OfPolicy(p.name), GetPolicy(p.name), CreatePolicy(p.name, p.json), w);
    } else {
      var u := d.user;
      AdminStepQuiet(cred, OfUser(u.name), GetUser(u.name), CreateUserRequest(u), w);
    }
  }

  lemma StepOfQuiet(cred: Credentials)
    ensures QuietOnBuckets(StepOf(cred)) && QuietOnAdmin(StepOf(cred))
  {
    forall b: Bucket, w: World | InPlace(b, w.server)
      ensures && StepOf(cred)(BucketDecl(b), w).world == w
              && NoCreate(StepOf(cred)(BucketDecl(b), w).events)
              && (StepOf(cred)(BucketDecl(b), w).outcome.Success? ==> StepOf(cred)(BucketDecl(b), w).outcome.value == AlreadyExisted)
    {
      EnsureBucketInPlace(b, w);
    }
    forall d: Declaration, w: World | !d.BucketDecl? && TwoSuccesses(w) && HeldBy(d, w.server)
      ensures && StepOf(cred)(d, w).world == w.(script := w.script[2..])
              && StepOf(cred)(d, w).outcome == Success(AlreadyExisted)
              && NoCreate(StepOf(cred)(d, w).events)
    {
      EnsureQuiet(cred, d, w);
    }
  }

  /** With every bucket already in place the bucket loop changes nothing and makes no
      bucket; whatever it completes reports "already exists". */
  lemma {:induction false} ForEachBucketQuiet(step: Step, bs: seq<Bucket>, w: World)
    requires QuietOnBuckets(step)
    requires forall b :: b in bs ==> InPlace(b, w.server)
    ensures var r := ForEach(step, BucketDecls(bs), w);
            && r.world == w && NoCreate(r.events)
            && (r.outcome.Success? ==> forall o :: o in r.outcome.value ==> o == AlreadyExisted)
    decreases |bs|
  {
    var ds := BucketDecls(bs);
    if |bs| > 0 {
      var head := step(BucketDecl(bs[0]), w);
      assert ds[0] == BucketDecl(bs[0]);
      if head.outcome.Success? {
        assert ds[1..] == BucketDecls(bs[1..]);
        ForEachBucketQuiet(step, bs[1..], w);
        var tail := ForEach(step, ds[1..], w);
        NoCreateAppend(head.events, tail.events);
      }
    }
  }

  /** Against a server that holds every listed object, with every login accepted and
      every probe answered normally, a loop over policies or users creates nothing,
      changes nothing on the server, and consumes two answers per declaration. */
  lemma {:induction false} ForEachAdminQuiet(step: Step, ds: seq<Declaration>, w: World)
    requires QuietOnAdmin(step)
    requires forall i :: 0 <= i < |ds| ==> !ds[i].BucketDecl? && HeldBy(ds[i], w.server)
    requires w.cache.adminClient.None? && AllAccepted(w.script) && |w.script| >= 2 * |ds|
    ensures var r := ForEach(step, ds, w);
            && r.world == w.(script := w.script[2 * |ds|..])
            && NoCreate(r.events)
            && r.outcome.Success? && (forall o :: o in r.outcome.value ==> o == AlreadyExisted)
    decreases |ds|
  {
    if |ds| > 0 {
      assert TwoSuccesses(w);
      var head := step(ds[0], w);
      var w1 := w.(script := w.script[2..]);
      assert head.world == w1;
      assert AllAccepted(w1.script);
      assert w1.script[2 * (|ds| - 1)..] == w.script[2 * |ds|..];
      ForEachAdminQuiet(step, ds[1..], w1);
      var tail := ForEach(step, ds[1..], w1);
      NoCreateAppend(head.events, tail.events);
    }
  }

  /** Against a server that holds every listed object, with every admin answer an
      accepted login, the loops create nothing and change nothing on the server;
      whatever they complete reports "already exists". */
  lemma LoopsQuiet(step: Step, bs: seq<Bucket>, ps: seq<Declaration>, us: seq<Declaration>, w: World)
    requires QuietOnBuckets(step) && QuietOnAdmin(step)
    requires forall b :: b in bs ==> InPlace(b, w.server)
    requires forall i :: 0 <= i < |ps| ==> !ps[i].BucketDecl? && HeldBy(ps[i], w.server)
    requires forall i :: 0 <= i < |us| ==> !us[i].BucketDecl? && HeldBy(us[i], w.server)
    requires w.cache.adminClient.None? && AllAccepted(w.script) && |w.script| >= 2 * (|ps| + |us|)
    ensures var r := Loops(step, BucketDecls(bs), ps, us, w);
            && r.world.server == w.server && NoCreate(r.events)
            && (r.outcome.Success? ==>
                  forall o :: o in r.outcome.value.buckets + r.outcome.value.policies + r.outcome.value.users ==> o == AlreadyExisted)
  {
    LoopsShape(step, BucketDecls(bs), ps, us, w);
    var (rb, rp, ru) := PhaseRuns(step, BucketDecls(bs), ps, us, w);
    ForEachBucketQuiet(step, bs, w);
    if rb.outcome.Success? {
      ForEachAdminQuiet(step, ps, w);
      assert |rp.world.script| == |w.script| - 2 * |ps|;
      ForEachAdminQuiet(step, us, rp.world);
      QuietJoin(Loops(step, BucketDecls(bs), ps, us, w), rb, rp, ru);
    }
  }

  /** Joining three quiet, completed loops gives a quiet result. */
  lemma QuietJoin(r: Run<Report>, rb: Run<seq<Outcome>>, rp: Run<seq<Outcome>>, ru: Run<seq<Outcome>>)
    requires rb.outcome.Success? && rp.outcome.Success? && ru.outcome.Success?
    requires NoCreate(rb.events) && NoCreate(rp.events) && NoCreate(ru.events)
    requires forall o :: o in rb.outcome.value ==> o == AlreadyExisted
    requires forall o :: o in rp.outcome.value ==> o == AlreadyExisted
    requires forall o :: o in ru.outcome.value ==> o == AlreadyExisted
    requires r.events == rb.events + rp.events + ru.events
    requires r.outcome == Success(Report(rb.outcome.value, rp.outcome.value, ru.outcome.value))
    ensures NoCreate(r.events)
    ensures forall o :: o in r.outcome.value.buckets + r.outcome.value.policies + r.outcome.value.users ==> o == AlreadyExisted
  {
    NoCreateAppend(rb.events, rp.events);
    NoCreateAppend(rb.events + rp.events, ru.events);
  }

  /** Running the handler against a server that already holds every declared bucket,
      policy and user, with every admin answer an accepted login, creates nothing and
      leaves the server as it was; whatever it completes reports "already exists". */
  lemma OnReadyRerun(t: Tenant, w: World)
    requires forall b :: b in t.buckets ==> InPlace(b, w.server)
    requires forall p :: p in t.policies ==> p.name in w.server.policies
    requires forall u :: u in t.users ==> u.name in w.server.users
    requires w.cache.adminClient.None? && AllAccepted(w.script)
    requires |w.script| >= 2 * (|t.policies| + |t.users|)
    ensures var r := OnReady(TenantReady(t), w);
            && r.world.server == w.server
            && NoCreate(r.events)
            && (r.outcome.Success? ==>
                  forall o :: o in r.outcome.value.buckets + r.outcome.value.policies + r.outcome.value.users ==> o == AlreadyExisted)
  {
    var cred := TenantCredentials(t);
    StepOfQuiet(cred);
    LoopsQuiet(StepOf(cred), t.buckets, PolicyDecls(t.policies), UserDecls(t.users),
               w.(cache := GetClient(w.cache, w.endpoints, cred).0));
  }

  /** A completed step that did not log a rejected create leaves its object on the
      server. */
  ghost predicate HoldsItsObject(step: Step)
  {
    forall d: Declaration, w: World :: step(d, w).outcome.Success? && step(d, w).outcome.value != CreateRejected ==>
      HeldBy(d, step(d, w).world.server)
  }

  lemma StepOfHolds(cred: Credentials)
    ensures HoldsItsObject(StepOf(cred))
  {
    forall d: Declaration, w: World ensures
      StepOf(cred)(d, w).outcome.Success? && StepOf(cred)(d, w).outcome.value != CreateRejected ==>
        HeldBy(d, StepOf(cred)(d, w).world.server)
    {
      var r := Ensure(cred, d, w);
    }
  }

  /** A server that only grows keeps what it holds. */
  lemma HeldGrows(d: Declaration, s: ServerState, s': ServerState)
    requires HeldBy(d, s) && Grows(s, s')
    ensures HeldBy(d, s')
  {
  }

  /** After a completed loop the server holds every object whose step did not log a
      rejected create: later steps only add to the server. */
  lemma {:induction false} ForEachHolds(step: Step, ds: seq<Declaration>, w: World)
    requires Disciplined(step) && HoldsItsObject(step)
    ensures var r := ForEach(step, ds, w);
            r.outcome.Success? ==>
              forall i :: 0 <= i < |ds| && r.outcome.value[i] != CreateRejected ==> HeldBy(ds[i], r.world.server)
    decreases |ds|
  {
    var r := ForEach(step, ds, w);
    if |ds| > 0 && r.outcome.Success? {
      var head := step(ds[0], w);
      var tail := ForEach(step, ds[1..], head.world);
      assert r.world == tail.world && r.outcome.value == [head.outcome.value] + tail.outcome.value;
      ForEachHolds(step, ds[1..], head.world);
      forall i | 0 <= i < |ds| && r.outcome.value[i] != CreateRejected
        ensures HeldBy(ds[i], r.world.server)
      {
        if i == 0 {
          HeldGrows(ds[0], head.world.server, tail.world.server);
        } else {
          assert ds[i] == ds[1..][i - 1] && r.outcome.value[i] == tail.outcome.value[i - 1];
        }
      }
    }
  }

  /** After a completed run the server holds every declared policy and user whose create
      was not logged as rejected. */
  lemma OnReadyHolds(t: Tenant, w: World)
    ensures var r := OnReady(TenantReady(t), w);
            r.outcome.Success? ==>
              && (forall i :: 0 <= i < |t.policies| && r.outcome.value.policies[i] != CreateRejected ==>
                    t.policies[i].name in r.world.server.policies)
              && (forall i :: 0 <= i < |t.users| && r.outcome.value.users[i] != CreateRejected ==>
                    t.users[i].name in r.world.server.users)
  {
    var cred := TenantCredentials(t);
    var step := StepOf(cred);
    var (bs, ps, us) := (BucketDecls(t.buckets), PolicyDecls(t.policies), UserDecls(t.users));
    var w0 := w.(cache := GetClient(w.cache, w.endpoints, cred).0);
    StepOfHolds(cred);
    LoopsShape(step, bs, ps, us, w0);
    var (rb, rp, ru) := PhaseRuns(step, bs, ps, us, w0);
    var r := OnReady(TenantReady(t), w);
    if r.outcome.Success? {
      ForEachHolds(step, ps, rb.world);
      ForEachHolds(step, us, rp.world);
      forall i | 0 <= i < |t.policies| && r.outcome.value.policies[i] != CreateRejected
        ensures t.policies[i].name in r.world.server.policies
      {
        HeldGrows(ps[i], rp.world.server, ru.world.server);
      }
    }
  }

  /** Provisioning is idempotent: after a completed run that logged no rejected create
      for a policy or user, a second run over the same tenant, with every admin answer
      an accepted login, creates nothing and changes nothing. */
  lemma OnReadyTwice(t: Tenant, w: World, again: seq<Response>)
    requires NoDup(BucketNames(t.buckets))
    requires w.cache.adminClient.None?
    requires OnReady(TenantReady(t), w).outcome.Success?
    requires CreateRejected !in OnReady(TenantReady(t), w).outcome.value.policies
    requires CreateRejected !in OnReady(TenantReady(t), w).outcome.value.users
    requires AllAccepted(again) && |again| >= 2 * (|t.policies| + |t.users|)
    ensures var w1 := OnReady(TenantReady(t), w).world.(script := again);
            var r := OnReady(TenantReady(t), w1);
            && r.world.server == w1.server
            && NoCreate(r.events)
  {
    var first := OnReady(TenantReady(t), w);
    var w1 := first.world.(script := again);
    OnReadyPlacesBuckets(t, w);
    OnReadyHolds(t, w);
    forall p | p in t.policies ensures p.name in w1.server.policies {
      var i :| 0 <= i < |t.policies| && t.policies[i] == p;
      assert first.outcome.value.policies[i] in first.outcome.value.policies;
    }
    forall u | u in t.users ensures u.name in w1.server.users {
      var i :| 0 <= i < |t.users| && t.users[i] == u;
      assert first.outcome.value.users[i] in first.outcome.value.users;
    }
    OnReadyRerun(t, w1);
  }
}
