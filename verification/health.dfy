/** The health checks registered for each declared resource. Every check is gated on a
    latch that flips once the tenant's connection string is available; until then it
    reports the tenant as unavailable without touching any client.
    - The bucket check asks the data client whether the bucket exists.
    - The policy and user checks obtain an admin client (a login, as written) and probe
      the object; a 403 on the probe also resets the cached admin client.
    An exception raised inside a check (a login fault, a throwing storage call) is
    the check's outcome here; what the host makes of it is not part of this model. */
module Health {
  import opened Wrappers
  import opened Declared
  import opened Api
  import opened Session
  import opened Runtime
  import opened Provisioner

  datatype Health = Healthy | Unhealthy(reason: string)

  const TenantUnavailable := "Tenant is not available"
  const BucketMissing := "Bucket not found"
  const PolicyMissing := "Policy not found"
  const UserMissing := "User not found"

  /** The bucket check: with the latch set, reuse or build the data client of the
      tenant the bucket belongs to and ask whether the bucket exists. */
  function CheckBucket(started: bool, t: Tenant, b: Bucket, w: World): (r: Run<Health>)
    requires b.parent == t.name
    ensures !started ==> r == Run(w, [], Success(Unhealthy(TenantUnavailable)))
    ensures started ==>
              && r.world == w.(cache := GetClient(w.cache, w.endpoints, TenantCredentials(t)).0)
              && r.events == [Event(OfBucket(b.name), BucketExists(b.name))]
    ensures started && BucketExists(b.name) in w.faults ==> r.outcome == Failure(StorageThrew(BucketExists(b.name)))
    ensures started && BucketExists(b.name) !in w.faults ==>
              && (r.outcome == Success(Healthy) <==> b.name in w.server.buckets)
              && (r.outcome != Success(Healthy) ==> r.outcome == Success(Unhealthy(BucketMissing)))
  {
    if !started then Run(w, [], Success(Unhealthy(TenantUnavailable)))
    else
      var w1 := w.(cache := GetClient(w.cache, w.endpoints, TenantCredentials(t)).0);
      var probe := Storage(BucketExists(b.name), OfBucket(b.name), w1);
      Run(probe.world, probe.events,
        match probe.outcome
        case Failure(f) => Failure(f)
        case Success(present) => Success(if present then Healthy else Unhealthy(BucketMissing)))
  }

  /** The position in the script of the probe's answer: after the login when the
      admin-client field is empty, first otherwise. */
  function ProbeAt(w: World): nat
  {
    if w.cache.adminClient.None? then 1 else 0
  }

  /** The policy and user checks: with the latch set, obtain an admin client for the
      tenant, probe, reset the admin client on a 403, and report the probe's success. */
  function CheckAdminObject(started: bool, t: Tenant, s: Subject, probe: Action, missing: string, w: World): (r: Run<Health>)
    ensures !started ==> r == Run(w, [], Success(Unhealthy(TenantUnavailable)))
    ensures r.world.server == w.server && r.world.faults == w.faults && r.world.endpoints == w.endpoints
    ensures r.world.cache.client == w.cache.client
    ensures started && w.cache.adminClient.None? && !LoginAccepted(Peek(w.script, 0)) ==>
              && r.outcome == Failure(LoginFault(Peek(w.script, 0)))
              && Actions(r.events) == [LoginRequest(TenantCredentials(t))]
    ensures started && (w.cache.adminClient.Some? || LoginAccepted(Peek(w.script, 0))) ==>
              var got := Peek(w.script, ProbeAt(w));
              && Actions(r.events) == (if w.cache.adminClient.None? then [LoginRequest(TenantCredentials(t))] else [])
                                      + [probe] + (if got.status == Forbidden then [SessionReset] else [])
              && (r.outcome == Success(Healthy) <==> got.status == Succeeded && Holds(w.server, probe))
              && (r.outcome != Success(Healthy) ==> r.outcome == Success(Unhealthy(missing)))
              && (r.world.cache.adminClient.None? <==> w.cache.adminClient.None? || got.status == Forbidden)
  {
    if !started then Run(w, [], Success(Unhealthy(TenantUnavailable)))
    else
      var session := AdminSession(TenantCredentials(t), s, w);
      if session.outcome.Failure? then Run(session.world, session.events, Failure(session.outcome.error))
      else
        var (got, w1) := Take(session.world);
        var reset := if got.status == Forbidden then [Event(s, SessionReset)] else [];
        var w2 := if got.status == Forbidden then w1.(cache := ResetAdminClient(w1.cache)) else w1;
        var events := session.events + [Event(s, probe)] + reset;
        assert Actions(events) == Actions(session.events) + [probe] + Actions(reset);
        Run(w2, events, Success(if ProbeStatus(got, w.server, probe) == Succeeded then Healthy else Unhealthy(missing)))
  }

  function CheckPolicy(started: bool, t: Tenant, p: NamedPolicy, w: World): (r: Run<Health>)
    ensures forall a :: a in Actions(r.events) ==> a == LoginRequest(TenantCredentials(t)) || a == GetPolicy(p.name) || a == SessionReset
    ensures r.outcome.Success? && r.outcome.value.Unhealthy? ==>
              r.outcome.value.reason == (if started then PolicyMissing else TenantUnavailable)
  {
    CheckAdminObject(started, t, OfPolicy(p.name), GetPolicy(p.name), PolicyMissing, w)
  }

  function CheckUser(started: bool, t: Tenant, u: User, w: World): (r: Run<Health>)
    ensures forall a :: a in Actions(r.events) ==> a == LoginRequest(TenantCredentials(t)) || a == GetUser(u.name) || a == SessionReset
    ensures r.outcome.Success? && r.outcome.value.Unhealthy? ==>
              r.outcome.value.reason == (if started then UserMissing else TenantUnavailable)
  {
    CheckAdminObject(started, t, OfUser(u.name), GetUser(u.name), UserMissing, w)
  }

  /** A bucket the provisioner has put in place reports healthy once the latch is set,
      unless the existence probe itself throws. */
  lemma HealthyAfterProvisioning(b: Bucket, t: Tenant, w: World)
    requires b.parent == t.name
    requires EnsureBucket(b, w).outcome.Success?
    requires BucketExists(b.name) !in w.faults
    ensures CheckBucket(true, t, b, EnsureBucket(b, w).world).outcome == Success(Healthy)
  {
  }

  /** A policy the provisioner created or found reports healthy once the latch is set,
      provided the check obtains an admin client and its probe is answered normally. */
  lemma PolicyHealthyAfterProvisioning(t: Tenant, p: NamedPolicy, w: World)
    requires var r := EnsurePolicy(TenantCredentials(t), p, w); r.outcome.Success? && r.outcome.value != CreateRejected
    requires var w1 := EnsurePolicy(TenantCredentials(t), p, w).world;
             && (w1.cache.adminClient.Some? || LoginAccepted(Peek(w1.script, 0)))
             && Peek(w1.script, ProbeAt(w1)).status == Succeeded
    ensures CheckPolicy(true, t, p, EnsurePolicy(TenantCredentials(t), p, w).world).outcome == Success(Healthy)
  {
  }

  /** A user the provisioner created or found reports healthy once the latch is set,
      provided the check obtains an admin client and its probe is answered normally. */
  lemma UserHealthyAfterProvisioning(t: Tenant, u: User, w: World)
    requires var r := EnsureUser(TenantCredentials(t), u, w); r.outcome.Success? && r.outcome.value != CreateRejected
    requires var w1 := EnsureUser(TenantCredentials(t), u, w).world;
             && (w1.cache.adminClient.Some? || LoginAccepted(Peek(w1.script, 0)))
             && Peek(w1.script, ProbeAt(w1)).status == Succeeded
    ensures CheckUser(true, t, u, EnsureUser(TenantCredentials(t), u, w).world).outcome == Success(Healthy)
  {
  }

  /** With the admin-client field empty, a policy check logs in exactly once, whatever
      the login's answer, and leaves the field empty. */
  lemma CheckLogsInOnce(t: Tenant, p: NamedPolicy, w: World)
    requires w.cache.adminClient.None?
    ensures var r := CheckPolicy(true, t, p, w);
            && r.world.cache.adminClient.None?
            && Count(r.events, LoginRequest(TenantCredentials(t))) == 1
  {
    CountLeading(CheckPolicy(true, t, p, w).events, LoginRequest(TenantCredentials(t)));
  }

  /** As written, a check's login leaves the admin-client field empty, so two checks in
      a row log in twice. */
  lemma ChecksLogInEveryTime(t: Tenant, p: NamedPolicy, w: World)
    requires w.cache.adminClient.None?
    requires |w.script| >= 2 && LoginAccepted(w.script[0])
    ensures var first := CheckPolicy(true, t, p, w);
            var second := CheckPolicy(true, t, p, first.world);
            && first.world.script == w.script[2..]
            && first.world.cache.adminClient.None?
            && Count(first.events + second.events, LoginRequest(TenantCredentials(t))) == 2
  {
    var first := CheckPolicy(true, t, p, w);
    assert Take(Take(w).1).1.script == w.script[2..];
    CheckLogsInOnce(t, p, w);
    CheckLogsInOnce(t, p, first.world);
    CountAppend(first.events, CheckPolicy(true, t, p, first.world).events, LoginRequest(TenantCredentials(t)));
  }

  /** An event sequence whose first action is `a` and no later one is counts `a` once. */
  lemma {:induction false} CountLeading(es: seq<Event>, a: Action)
    requires |es| > 0 && es[0].action == a
    requires forall i :: 1 <= i < |es| ==> es[i].action != a
    ensures Count(es, a) == 1
    decreases |es|
  {
    if |es| == 1 {
      assert es == [es[0]];
      CountSingle(es[0], a);
    } else {
      CountLeading(es[..|es| - 1], a);
    }
  }
}
