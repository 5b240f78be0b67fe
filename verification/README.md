# MinIO tenant reconciliation, modelled in Dafny

This project models the reconciliation core of the Aspire MinIO hosting packages. The
application declares a MinIO tenant with an ordered list of buckets, named policies and
users. Once the tenant container is ready, a handler walks those lists and makes the
server match them. It creates what is missing, gives every bucket its access policy, and
leaves the rest alone. Each declared resource also gets a health check. There are two
packages:

- `Aspire.Hosting.MinIo` handles buckets, policies and users.
- `Aspire.Hosting.S3` handles buckets only.

The model is functional. Every step is a pure function over a `World` and returns a
`Run`: the new world, the events the step produced, and either a value or the fault that
aborts the run. The world holds:

- the abstract server: a bucket set, a bucket-to-policy map, named policies, and users
  keyed by access key;
- the set of storage calls that throw;
- a finite script of admin-API answers (2xx, 403, other, each with its `Set-Cookie`
  values), consumed one per admin call, the console login included. A scripted 2xx on a
  policy or user probe stands for a normal console answer, which is a success only when
  the server holds the object (`Runtime.ProbeStatus`);
- the tenant's two client-cache fields;
- the resolved endpoints.

Modules, one concept each:

| module | file | what it holds |
|---|---|---|
| `Wrappers` | wrappers.dfy | `Option`, `Result` |
| `Seqs` | seqs.dfy | duplicate-free lists, order-keeping de-duplicated append, run collapsing |
| `PolicyDocuments` | policy_documents.dfy | the Public and Private bucket policy templates as statements, and what a document grants |
| `Declared` | declared.dfy | the declared tenant graph and its builder calls |
| `HealthKeys` | health_keys.dfy | health-check key naming |
| `Api` | api.dfy | admin statuses, calls, subjects, faults |
| `Session` / `ClientCache` | session.dfy | the data-client cache and the admin login, as functions and as a class with the two nullable fields |
| `Runtime` | runtime.dfy | the world, storage calls, scripted admin answers, event bookkeeping |
| `Provisioner` | provisioner.dfy | the bucket, policy and user steps and the ready handler |
| `ProvisionerFacts` | provisioner_facts.dfy | properties relating several steps: order, placement, the unbounded 403 retry, idempotence |
| `Health` | health.dfy | the bucket, policy and user health checks |
| `S3` | s3.dfy | the buckets-only package |
| `Scenario` | scenario.dfy | the sample application host, end to end |

Three behaviours of the code that the model keeps as written:

- **403 retry.** A 403 on a policy or user create resets the admin client and calls the
  create-or-skip sequence again (MinIoResourceExtensions.cs:349-355). There is no
  counter, so the model has no retry bound. `ProvisionerFacts.RetryCount` proves that
  `k` leading 403 answers produce `k + 1` creates.
- **Session cookie.** A successful login whose response carries no `Set-Cookie` header
  throws when the header values are read (MinIoResource.cs:78). The model reports this
  as the `NoSessionCookie` fault, next to `LoginRejected` for a non-success login. The
  policy and user steps wrap either one like any other exception.
- **Admin-client cache.** The code checks the cached admin client but never assigns it.
  As written, every policy or user attempt and every policy or user health check logs in
  again, while the probe and the create of one attempt share one login. The model does the
  same (`Session.EveryRequestLogsIn`, `ProvisionerFacts.RetryCount`,
  `Health.ChecksLogInEveryTime`).

The S3 package's bucket step, templates and client cache are the same code as the full
package's. Its bucket health check has the same body, registered under a different key:
`N_check` (`S3.CheckKey`) rather than `N_bucket_check`. The `S3` module reuses those
definitions rather than restating them.

## Model

| member | source | states |
|---|---|---|
| Declared.AddMinIo | Aspire.Hosting.MinIo/MinIoResourceExtensions.cs:19-45 | a new tenant has empty lists; without user name or password builders the credentials are "minio" / "miniopassword" (the password parameter is secret); supplied builders are used as given |
| Declared.AddBucket | Aspire.Hosting.MinIo/MinIoResourceExtensions.cs:91-99 | appends exactly one bucket, keeping the earlier ones as a prefix; the new bucket carries the Private template for its own name, never the empty policy a fresh bucket resource starts with |
| Declared.WithTemplate | Aspire.Hosting.MinIo/MinIoResourceExtensions.cs:134-202 | the enum overload replaces the bucket's policy with the canned document for that bucket's name and keeps name and parent |
| Declared.WithJson | Aspire.Hosting.MinIo/MinIoResourceExtensions.cs:204-209 | the string overload stores the text unchanged and unvalidated |
| Declared.LastBucketPolicyWins | Aspire.Hosting.MinIo/MinIoResourceExtensions.cs:134-209 | whichever overloads are mixed, only the last policy call on a bucket decides its policy |
| Declared.AddPolicy | Aspire.Hosting.MinIo/MinIoResourceExtensions.cs:214-218 | appends exactly one named policy owned by the tenant, with its name and JSON as given, and changes nothing else |
| Declared.NewUser | Aspire.Hosting.MinIo/MinIoUserResource.cs:11-21 | a new user has no policies; its access key resolves to exactly its name; its secret is the supplied parameter or, without one, a generated secret parameter |
| Declared.AddUser | Aspire.Hosting.MinIo/MinIoResourceExtensions.cs:259-266 | appends exactly one user built as above and changes nothing else |
| Declared.AddPolicyToUser | Aspire.Hosting.MinIo/MinIoUserResource.cs:29-32 | appends the policy at the end without de-duplicating; the list grows by one and the old list stays a prefix; the parent and keys are untouched |
| Declared.WithPolicies | Aspire.Hosting.MinIo/MinIoResourceExtensions.cs:304-310 | the user-side attach keeps the existing list as a prefix; it adds exactly the arguments not yet attached, in argument order, a repeated argument once; membership is old-or-argument; it never introduces duplicates |
| Declared.WithPoliciesIdempotent | Aspire.Hosting.MinIo/MinIoResourceExtensions.cs:304-310 | attaching the same policies twice is the same as attaching them once |
| PolicyDocuments.PublicGrantsExactly | Aspire.Hosting.MinIo/MinIoResourceExtensions.cs:138-156 | the Public document allows a request iff the action is an S3 action and the resource is the bucket or one of its objects |
| PolicyDocuments.PrivateGrantsExactly | Aspire.Hosting.MinIo/MinIoResourceExtensions.cs:157-198 | the Private document allows exactly the three listing actions on the bucket and the five object actions on its objects, and nothing else |
| PolicyDocuments.PrivateWithinPublic | Aspire.Hosting.MinIo/MinIoResourceExtensions.cs:138-198 | every request the Private template allows, the Public template allows too |
| PolicyDocuments.PrivateIsLeastPrivilege | Aspire.Hosting.MinIo/MinIoResourceExtensions.cs:157-198 | no Private statement names `s3:*`; Private denies bucket deletion and policy rewriting, which Public allows |
| PolicyDocuments.TemplatesDistinguishBuckets | Aspire.Hosting.S3/MinIoResourceExtensions.cs:126-194 | equal template documents mean the same kind and the same bucket name |
| HealthKeys.CheckKeysInjective | Aspire.Hosting.MinIo/MinIoResourceExtensions.cs:112-279 | within each kind, equal health-check keys mean equal names |
| HealthKeys.CheckKindsNeverCollide | Aspire.Hosting.MinIo/MinIoResourceExtensions.cs:112-279 | a bucket, a policy and a user key are pairwise different, whatever the names |
| HealthKeys.RegisteredKeysUnique | Aspire.Hosting.MinIo/MinIoResourceExtensions.cs:112-279 | a tenant with unique names per kind registers every health-check key once |
| Api.Message | Aspire.Hosting.MinIo/MinIoResourceExtensions.cs:333-414 | a provisioning failure's message starts "Failed to create MinIO " and ends with the subject's name in single quotes; a refused login reads "Failed to login to MinIO console" (MinIoResource.cs:76) |
| Api.MessageIdentifiesSubject | Aspire.Hosting.MinIo/MinIoResourceExtensions.cs:370-373 | two provisioning failures with equal messages concern the same kind of resource and the same name |
| Session.GetClient | Aspire.Hosting.MinIo/MinIoResource.cs:45-57 | the first call builds a client on the api endpoint with the tenant credentials and stores it; later calls return the stored client and leave the cache as it is |
| Session.GetClientReturnsFirstClient | Aspire.Hosting.S3/MinIoResource.cs:44-56 | once built, the same data client is returned whatever the endpoint and credentials would now resolve to |
| Session.ConnectionStringNamesClientEndpoint | Aspire.Hosting.MinIo/MinIoResource.cs:42-57 | the connection string is `http://` plus the host:port the data client connects to |
| Session.CookieHeaders | Aspire.Hosting.MinIo/MinIoResource.cs:78-82 | one `Cookie` header per `Set-Cookie` value, in response order |
| Session.GetAdminClient | Aspire.Hosting.MinIo/MinIoResource.cs:64-85 | a set field is returned as-is; otherwise the login decides: a non-success answer is `LoginRejected`, a success without `Set-Cookie` values is `NoSessionCookie`, and a success with cookies is a client on the console endpoint carrying them; the field is never written |
| Session.ResetAdminClient | Aspire.Hosting.MinIo/MinIoResource.cs:59-62 | clears the admin-client field and keeps the data client |
| Session.EveryRequestLogsIn | Aspire.Hosting.S3/MinIoResource.cs:63-92 | after a successful login the field is still empty, so the next request succeeds exactly when its own login is accepted (a success with at least one cookie) |
| ClientCache.TenantClients.GetClient | Aspire.Hosting.MinIo/MinIoResource.cs:45-57 | the class method performs `Session.GetClient` on its field |
| ClientCache.TenantClients.GetAdminClient | Aspire.Hosting.MinIo/MinIoResource.cs:64-85 | the class method returns the client or the fault and leaves the field unchanged |
| ClientCache.TenantClients.ResetAdminClient | Aspire.Hosting.S3/MinIoResource.cs:58-61 | the class method clears only the admin-client field |
| Runtime.Storage | Aspire.Hosting.MinIo/MinIoResourceExtensions.cs:318-328 | a storage call throws iff it is a listed fault and then changes nothing; otherwise the server applies it, and `BucketExists` answers whether the bucket is in the server's set |
| Runtime.AdminSession | Aspire.Hosting.MinIo/MinIoResource.cs:64-85 | with the field empty, one login request with the tenant's access key and secret consumes one scripted answer and succeeds iff that answer is a success with a session cookie; otherwise the result is that login's fault |
| Provisioner.PlaceBucket | Aspire.Hosting.MinIo/MinIoResourceExtensions.cs:318-334 | makes the bucket iff the probe found it absent; then sets the declared policy; success leaves the bucket in place; a failure names the bucket and wraps the call that threw |
| Provisioner.EnsureBucket | Aspire.Hosting.MinIo/MinIoResourceExtensions.cs:312-335 | probes first; creates only an absent bucket; on success the last call sets the declared policy and the bucket is in place, reported as created or already existing; any storage exception becomes a fault naming the bucket; only the server changes |
| Provisioner.EnsureBucketIdempotent | Aspire.Hosting.MinIo/MinIoResourceExtensions.cs:312-335 | a second bucket step after a successful one reports already existing, makes no bucket and changes nothing |
| Provisioner.EnsureBucketInPlace | Aspire.Hosting.MinIo/MinIoResourceExtensions.cs:312-335 | the bucket step on a bucket already in place leaves the world unchanged and creates nothing |
| Provisioner.Attempt | Aspire.Hosting.MinIo/MinIoResourceExtensions.cs:341-362 | one login-probe-create pass: only script and server change; a create is the only way the server changes; a 403 on the create always consumes script; a login fault (refused or without a cookie) is the only fault; "already exists" only when the server holds the object; a logged rejection implies a create was sent |
| Provisioner.ProbeAndCreate | Aspire.Hosting.MinIo/MinIoResourceExtensions.cs:345-362 | after the login, the probe succeeds only for an object the server holds; a non-success probe (403 included) is followed by the create; the create's answer distinguishes 403, success (the server applies it) and other failures |
| Provisioner.AttemptAnswers | Aspire.Hosting.MinIo/MinIoResourceExtensions.cs:341-362 | the outcome and calls of one pass as a function of the next three scripted answers and the server: a login that yields no client ends with that login's fault; a normal probe answer for a held object settles as already existing; otherwise created, refused with 403, or rejected |
| Provisioner.EnsureAdminObject | Aspire.Hosting.MinIo/MinIoResourceExtensions.cs:337-374 | the create-or-skip sequence with reset-and-recurse on 403: the server changes only by the create, and only when created; "already exists" means the server held the object; the script never grows; the admin field stays empty; a fault is a login fault wrapped once per enclosing attempt |
| Provisioner.AfterReset | Aspire.Hosting.MinIo/MinIoResourceExtensions.cs:349-373 | a retry's result as its caller reports it: a reset between the two passes' calls; a success passes through; a fault is wrapped once more with the subject |
| Provisioner.EnsurePolicy | Aspire.Hosting.MinIo/MinIoResourceExtensions.cs:337-374 | the only create is the policy's own name and document; once created the server holds that document under the name; any completed outcome except a logged rejection leaves the name on the server; no policy is removed; buckets and users are untouched |
| Provisioner.EnsureUser | Aspire.Hosting.MinIo/MinIoResourceExtensions.cs:376-416 | every create-user request sends the user's name as access key, the resolved secret, the attached policies' names in list order and no groups; once created the server holds that record; any completed outcome except a logged rejection leaves the user on the server; no user is removed; buckets and policies are untouched |
| Provisioner.Ensure | Aspire.Hosting.MinIo/MinIoResourceExtensions.cs:69-78 | each step keeps faults, endpoints and the data client, keeps the admin field empty, never grows the script, only adds to the server, acts only on behalf of its own declaration, and, when completed without a logged rejection, leaves its object on the server |
| Provisioner.StepOf | Aspire.Hosting.MinIo/MinIoResourceExtensions.cs:69-78 | the handler's step has the discipline above for every declaration and world |
| Provisioner.ForEach | Aspire.Hosting.MinIo/MinIoResourceExtensions.cs:69-70 | a completed loop yields one outcome per declaration; a disciplined loop keeps the world's fixed parts and acts only for listed declarations |
| Provisioner.Loops | Aspire.Hosting.MinIo/MinIoResourceExtensions.cs:69-78 | the three loops, chained, yield one outcome per bucket, policy and user on completion |
| Provisioner.OnReady | Aspire.Hosting.MinIo/MinIoResourceExtensions.cs:62-79 | a ready event for another resource changes nothing and makes no call; for the tenant the data client is built or reused first; faults, endpoints and the empty admin field are kept; a completed run reports one outcome per declaration |
| ProvisionerFacts.AttemptRound | Aspire.Hosting.MinIo/MinIoResourceExtensions.cs:341-362 | one scripted round with a failed probe sends one login, one probe and one create, consumes three answers, and its outcome follows the create's answer |
| ProvisionerFacts.RetryCount | Aspire.Hosting.MinIo/MinIoResourceExtensions.cs:349-355 | with `k` leading 403 create answers the create is sent `k + 1` times, each after a fresh login and probe, with `k` resets; the step ends with the last answer's outcome and consumes exactly those rounds |
| ProvisionerFacts.ForEachOrder | Aspire.Hosting.MinIo/MinIoResourceExtensions.cs:69-70 | one loop's events, adjacent repeats merged, name the list's subjects in list order: all of them if the loop completes, a prefix if it stops |
| ProvisionerFacts.LoopsOrder | Aspire.Hosting.MinIo/MinIoResourceExtensions.cs:69-78 | the three loops visit buckets, then policies, then users, each in list order; an interrupted run has visited a prefix of that order |
| ProvisionerFacts.OnReadyOrder | Aspire.Hosting.MinIo/MinIoResourceExtensions.cs:62-79 | the handler visits every bucket, then every policy, then every user, in declaration order; a run cut short visited a prefix |
| ProvisionerFacts.EnsureKeepsInPlace | Aspire.Hosting.MinIo/MinIoResourceExtensions.cs:312-416 | a step for any other declaration leaves a placed bucket in place |
| ProvisionerFacts.ForEachPlacesBuckets | Aspire.Hosting.MinIo/MinIoResourceExtensions.cs:69-70 | a completed bucket loop over distinct names leaves every listed bucket existing with its declared policy |
| ProvisionerFacts.OnReadyPlacesBuckets | Aspire.Hosting.MinIo/MinIoResourceExtensions.cs:62-79 | after a completed run every declared bucket exists with its declared policy |
| ProvisionerFacts.AdminStepQuiet | Aspire.Hosting.MinIo/MinIoResourceExtensions.cs:343-345 | a policy or user step for an object the server holds, with an accepted login and a normal probe answer, consumes two answers, creates nothing and reports already existing |
| ProvisionerFacts.OnReadyRerun | Aspire.Hosting.MinIo/MinIoResourceExtensions.cs:62-79 | against a server holding every declared bucket with its policy, every declared policy and every declared user, with every admin answer an accepted login, the handler creates nothing, leaves the server unchanged, and reports already existing throughout |
| ProvisionerFacts.ForEachHolds | Aspire.Hosting.MinIo/MinIoResourceExtensions.cs:69-78 | after a completed loop the server holds every listed object whose step was not logged as a rejected create, since later steps only add to the server |
| ProvisionerFacts.OnReadyHolds | Aspire.Hosting.MinIo/MinIoResourceExtensions.cs:62-79 | after a completed run the server holds every declared policy and user whose create was not logged as rejected |
| ProvisionerFacts.OnReadyTwice | Aspire.Hosting.MinIo/MinIoResourceExtensions.cs:62-79 | after a completed run that logged no rejected policy or user create, a second run with accepted logins creates nothing and changes nothing on the server |
| Health.CheckBucket | Aspire.Hosting.MinIo/MinIoResourceExtensions.cs:101-127 | for a bucket of the given tenant: before the latch, "Tenant is not available" with no call; after it, one existence probe through that tenant's data client, Healthy iff the bucket exists, otherwise "Bucket not found"; a throwing probe is the check's fault |
| Health.CheckAdminObject | Aspire.Hosting.MinIo/MinIoResourceExtensions.cs:235-250 | before the latch: "Tenant is not available"; a login that yields no client is that login's fault; otherwise one probe, Healthy iff it is answered normally and the server holds the object, otherwise the missing reason; a 403 on the probe resets the field and is recorded as a reset; the field ends empty iff it was empty or the probe answered 403; the server is never touched |
| Health.CheckPolicy | Aspire.Hosting.MinIo/MinIoResourceExtensions.cs:220-250 | the policy check makes only the tenant's login, its own probe and a reset; an unhealthy report reads "Policy not found" once the latch is set |
| Health.CheckUser | Aspire.Hosting.MinIo/MinIoResourceExtensions.cs:268-298 | the user check makes only the tenant's login, its own probe and a reset; an unhealthy report reads "User not found" once the latch is set |
| Health.HealthyAfterProvisioning | Aspire.Hosting.S3/MinIoResourceExtensions.cs:104-119 | a bucket placed by a successful bucket step reports Healthy once the latch is set, unless the probe itself throws |
| Health.PolicyHealthyAfterProvisioning | Aspire.Hosting.MinIo/MinIoResourceExtensions.cs:235-250 | a policy the step created or found reports Healthy once the latch is set, provided the check's login is accepted and its probe is answered normally |
| Health.UserHealthyAfterProvisioning | Aspire.Hosting.MinIo/MinIoResourceExtensions.cs:283-297 | a user the step created or found reports Healthy once the latch is set, provided the check's login is accepted and its probe is answered normally |
| Health.CheckLogsInOnce | Aspire.Hosting.MinIo/MinIoResourceExtensions.cs:237-242 | with the admin field empty, one policy check sends exactly one login, whatever its answer, and leaves the field empty |
| Health.ChecksLogInEveryTime | Aspire.Hosting.MinIo/MinIoResourceExtensions.cs:237-242 | two policy checks in a row log in twice: the first leaves the admin field empty |
| S3.AddMinIo | Aspire.Hosting.S3/MinIoResourceExtensions.cs:17-43 | the buckets-only tenant starts with no buckets; credentials default to "minio" / "miniopassword" |
| S3.AddBucket | Aspire.Hosting.S3/MinIoResourceExtensions.cs:83-91 | appends the bucket with the Private template, which is never the empty policy a new bucket resource starts with |
| S3.BucketConnectionStringInjective | Aspire.Hosting.S3/MinIoBucketResource.cs:14 | two buckets' `s3://` connection strings are equal iff their names are |
| S3.CheckKeyInjective | Aspire.Hosting.S3/MinIoResourceExtensions.cs:104 | the `N_check` key is equal for two names iff the names are |
| S3.OnReady | Aspire.Hosting.S3/MinIoResourceExtensions.cs:60-71 | a ready event for another resource changes nothing; for the tenant the data client is built or reused, the script is untouched, and a completed run reports one outcome per bucket |
| S3.ForEachStorageOnly | Aspire.Hosting.S3/MinIoResourceExtensions.cs:69-70 | the bucket loop changes only the server and makes no admin call or reset |
| S3.OnReadyStorageOnly | Aspire.Hosting.S3/MinIoResourceExtensions.cs:60-71 | the handler makes no policy, user or login call |
| S3.OnReadyIsBucketPhase | Aspire.Hosting.S3/MinIoResourceExtensions.cs:60-71 | the handler does exactly what the full package's handler does for the same tenant with no policies and no users |
| S3.OnReadyOrderAndPlacement | Aspire.Hosting.S3/MinIoResourceExtensions.cs:60-71 | buckets are visited in declaration order, a prefix when interrupted; a completed run with distinct names leaves every bucket in place |
| Scenario.SampleTenantShape | AppHost/AppHost.cs:6-16 | the sample host's builder calls produce the tenant "minio" with default credentials, one public bucket, one policy holding the sample's JSON text character for character, and one user holding that policy |
| Scenario.SampleTenantUnique | AppHost/AppHost.cs:6-16 | the sample tenant has unique names per kind |
| Scenario.SampleRunCreatesEverything | AppHost/AppHost.cs:6-16 | against an empty server with cookie-setting logins, failing probes and successful creates, one run creates the bucket with its public policy, the policy under its name with the sample's JSON text unchanged, and the user |

## Left out

- Async, cancellation tokens, the dependency-injection service provider and logging. Log calls have no effect on the model.
- Aspire eventing. The connection-string-available event is the `started` latch of each health check. The ready event is a direct call of `OnReady`.
- Container wiring: image, registry, tag, endpoints, environment variables, arguments, the HTTP liveness probes, and the data volume. It is framework configuration with no logic.
- Refit, `HttpClient` construction and `Set-Cookie` parsing. Cookies are opaque strings, and the S3 package's admin client built over a fresh `HttpClient` is the same base address and header list as the MinIo package's.
- The MinIO SDK and the admin HTTP API. They are abstract server operations. Storage calls throw only when listed in `faults`.
- An exhausted answer script is read as a non-success answer. This is a modelling device that bounds the otherwise unbounded 403 recursion; the code itself has no bound.
- The `ArgumentOutOfRangeException` for an out-of-range `BucketPolicy` value. The Dafny enum has only the two declared values.
- The exact JSON text and whitespace of the templates. The documents are structured statements, and JSON well-formedness is not checked, as in the code.
- Provisioner.Attempt: the admin HTTP calls (login, probe, create) never throw a transport exception. The catch at MinIoResourceExtensions.cs:370-373 and 412-415 would wrap one like a login fault. Only non-success answers and a login without a cookie are modelled.
- Provisioner.AttemptAnswers: admin calls are assumed not to throw, as for `Provisioner.Attempt`.
- Provisioner.EnsureAdminObject: admin calls are assumed not to throw, as for `Provisioner.Attempt`, so its only fault is a wrapped login fault.
- Runtime.AdminSession: the login request itself is assumed not to throw. Only its answer is modelled.
- Session.GetAdminClient: the login request itself is assumed not to throw. Only its answer is modelled.
- Health.CheckAdminObject: the login and the probe are assumed not to throw. Only their answers are modelled.
- Api.Message: the texts for a login without a cookie and for a storage exception are placeholders. The real messages come from the .NET header collection and the MinIO SDK, which are not part of this model; the wrapped inner exception is not carried in the text either.
- An exception thrown inside a health check, such as a refused login, is returned as the check's fault. What the host reports for it is not modelled.
- Concurrency between the ready handler and the health checks. Each is modelled as a sequential run.
- The `Policies` snapshot of a user resource. Model values are immutable, so a list read earlier can never change.
- Configuration lookup of parameters. A parameter's resolved value is a field, and a generated user secret is an input of `AddUser`.
- Resource-name uniqueness, which the hosting framework enforces. It enters as the `UniqueNames` precondition of the lemmas that need it.
- `ConstantParameterDefault.cs` and `MinIoContainerImageTag.cs`. They hold constants and manifest plumbing with no reconciliation logic.
