/** The world the provisioner and the health checks run against, with the MinIO SDK and
    the admin HTTP API reduced to abstract calls.
    - Storage calls answer from the abstract server state and throw exactly when the
      call is listed in `faults`.
    - Admin-API calls (login included) take their responses, one per call, from a finite
      `script`; an exhausted script answers `NoAnswer`.
    - Every function returns the events it produced itself; callers concatenate. */
module Runtime {
  import opened Wrappers
  import opened PolicyDocuments
  import opened Declared
  import opened Api
  import opened Session

  datatype UserRecord = UserRecord(secretKey: string, policies: seq<string>, groups: seq<string>)

  /** The abstract MinIO server: buckets, each bucket's policy, named policies, users
      keyed by access key. */
  datatype ServerState = ServerState(
    buckets: set<string>,
    bucketPolicies: map<string, PolicyText>,
    policies: map<string, string>,
    users: map<string, UserRecord>)

  const EmptyServer := ServerState({}, map[], map[], map[])

  /** The effect of a call the server accepted. */
  function Apply(s: ServerState, a: Action): ServerState
  {
    match a
    case MakeBucket(b) => s.(buckets := s.buckets + {b})
    case SetBucketPolicy(b, p) => s.(bucketPolicies := s.bucketPolicies[b := p])
    case CreatePolicy(n, d) => s.(policies := s.policies[n := d])
    case CreateUser(ak, sk, ps, gs) => s.(users := s.users[ak := UserRecord(sk, ps, gs)])
    case _ => s
  }

  datatype World = World(
    server: ServerState,
    faults: set<Action>,
    script: seq<Response>,
    cache: Cache,
    endpoints: Endpoints)

  datatype Event = Event(subject: Subject, action: Action)

  /** What a step leaves behind: the new world, the events it produced, and either its
      value or the exception that ends the run. */
  datatype Run<T> = Run(world: World, events: seq<Event>, outcome: Result<T, Fault>)

  /** The script entry at position `i`, or `NoAnswer` past its end. */
  function Peek(script: seq<Response>, i: nat): Response
  {
    if i < |script| then script[i] else NoAnswer
  }

  /** Consumes the next admin-API response. */
  function Take(w: World): (r: (Response, World))
    ensures r.0 == Peek(w.script, 0)
    ensures r.1 == w.(script := r.1.script)
    ensures |w.script| == 0 ==> r.1.script == []
    ensures |w.script| > 0 ==> r.1.script == w.script[1..]
    ensures r.0.status != OtherFailure ==> |r.1.script| < |w.script|
  {
    if |w.script| == 0 then (NoAnswer, w) else (w.script[0], w.(script := w.script[1..]))
  }

  /** After one answer is consumed, the script reads as before, one position on. */
  lemma PeekAfterTake(script: seq<Response>, i: nat)
    ensures Peek(if |script| == 0 then [] else script[1..], i) == Peek(script, i + 1)
  {
  }

  /** Whether the server holds the object an admin probe asks about. */
  predicate Holds(s: ServerState, probe: Action)
  {
    match probe
    case GetPolicy(n) => n in s.policies
    case GetUser(n) => n in s.users
    case _ => false
  }

  /** The status an admin probe observes. A scripted success stands for a normal answer
      from the console, which is a success exactly when the server holds the object (a
      missing one is answered with a non-success status); a scripted 403 or other
      failure is observed as it is. */
  function ProbeStatus(got: Response, s: ServerState, probe: Action): (st: Status)
    ensures st == Succeeded <==> got.status == Succeeded && Holds(s, probe)
    ensures got.status != Succeeded ==> st == got.status
  {
    if got.status == Succeeded && !Holds(s, probe) then OtherFailure else got.status
  }

  /** A storage-client call made on behalf of `s`: it throws if it is a listed fault;
      otherwise the server applies it, and a `BucketExists` answers from the state. */
  function Storage(a: Action, s: Subject, w: World): (r: Run<bool>)
    ensures r.events == [Event(s, a)]
    ensures r.outcome.Failure? <==> a in w.faults
    ensures r.outcome.Failure? ==> r.world == w && r.outcome.error == StorageThrew(a)
    ensures r.outcome.Success? ==> r.world == w.(server := Apply(w.server, a))
    ensures r.outcome.Success? && a.BucketExists? ==> (r.outcome.value <==> a.bucket in w.server.buckets)
  {
    if a in w.faults then Run(w, [Event(s, a)], Failure(StorageThrew(a)))
    else Run(w.(server := Apply(w.server, a)), [Event(s, a)], Success(!a.BucketExists? || a.bucket in w.server.buckets))
  }

  /** Obtains an admin client for a call made on behalf of `s`. With the field empty
      this is a login, consuming one scripted response. */
  function AdminSession(cred: Credentials, s: Subject, w: World): (r: Run<AdminClient>)
    ensures r.world == w.(script := r.world.script)
    ensures w.cache.adminClient.Some? ==> r == Run(w, [], Success(w.cache.adminClient.value))
    ensures w.cache.adminClient.None? ==>
              && r.events == [Event(s, LoginRequest(cred))]
              && r.world.script == Take(w).1.script
              && (r.outcome.Success? <==> LoginAccepted(Peek(w.script, 0)))
              && (r.outcome.Failure? ==> r.outcome.error == LoginFault(Peek(w.script, 0)))
    ensures r.outcome.Failure? ==> IsLoginFault(r.outcome.error)
  {
    if w.cache.adminClient.Some? then Run(w, [], Success(w.cache.adminClient.value))
    else
      var (login, w1) := Take(w);
      var events := [Event(s, LoginRequest(cred))];
      match GetAdminClient(w.cache, w.endpoints, cred, login)
      case Success((c, client)) => Run(w1.(cache := c), events, Success(client))
      case Failure(f) => Run(w1, events, Failure(f))
  }

  function Actions(es: seq<Event>): (as_: seq<Action>)
    ensures |as_| == |es| && forall i :: 0 <= i < |es| ==> as_[i] == es[i].action
  {
    seq(|es|, i requires 0 <= i < |es| => es[i].action)
  }

  function Subjects(es: seq<Event>): (ss: seq<Subject>)
    ensures |ss| == |es| && forall i :: 0 <= i < |es| ==> ss[i] == es[i].subject
  {
    seq(|es|, i requires 0 <= i < |es| => es[i].subject)
  }

  /** Every event was produced on behalf of `s`. */
  predicate About(es: seq<Event>, s: Subject)
  {
    forall i :: 0 <= i < |es| ==> es[i].subject == s
  }

  lemma AboutAppend(x: seq<Event>, y: seq<Event>, s: Subject)
    requires About(x, s) && About(y, s)
    ensures About(x + y, s)
  {
    assert forall i :: |x| <= i < |x + y| ==> (x + y)[i] == y[i - |x|];
  }

  /** How many events perform action `a`. */
  function Count(es: seq<Event>, a: Action): nat
    decreases |es|
  {
    if |es| == 0 then 0
    else Count(es[..|es| - 1], a) + (if es[|es| - 1].action == a then 1 else 0)
  }

  lemma {:induction false} CountAppend(x: seq<Event>, y: seq<Event>, a: Action)
    ensures Count(x + y, a) == Count(x, a) + Count(y, a)
    decreases |y|
  {
    if |y| == 0 {
      assert x + y == x;
    } else {
      assert (x + y)[..|x + y| - 1] == x + y[..|y| - 1];
      CountAppend(x, y[..|y| - 1], a);
    }
  }

  lemma CountSingle(e: Event, a: Action)
    ensures Count([e], a) == if e.action == a then 1 else 0
  {
    assert [e][..0] == [];
  }

  lemma ActionsAppend(x: seq<Event>, y: seq<Event>)
    ensures Actions(x + y) == Actions(x) + Actions(y)
  {
  }

  lemma SubjectsAppend(x: seq<Event>, y: seq<Event>)
    ensures Subjects(x + y) == Subjects(x) + Subjects(y)
  {
  }
}
