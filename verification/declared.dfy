/** The declared resource graph of a MinIO tenant: the tenant with its credentials and
    the ordered lists of buckets, named policies and users that the builder calls add.
    The graph is built before the tenant is ready and is read, never changed, by the
    provisioner. Object references between C# resources become plain values; a resource's
    parent reference becomes the parent tenant's name. */
module Declared {
  import opened Wrappers
  import opened Seqs
  import opened PolicyDocuments

  /** A deferred parameter value. `value` is what the parameter resolves to when the
      provisioner awaits it; configuration lookup itself is not modelled. */
  datatype Parameter = Parameter(name: string, value: string, secret: bool)

  /** Access key and secret as resolved at provisioning time. */
  datatype Credentials = Credentials(accessKey: string, secretKey: string)

  /** The parameters used when the caller supplies no user name or password builder. */
  const DefaultUsername := Parameter("minio-username", "minio", false)
  const DefaultPassword := Parameter("minio-password", "miniopassword", true)

  datatype Bucket = Bucket(parent: string, name: string, policy: PolicyText)

  /** A named policy object: fixed name and JSON document, never changed after creation. */
  datatype NamedPolicy = NamedPolicy(parent: string, name: string, json: string)

  datatype User = User(parent: string, name: string, accessKey: Parameter, secretKey: Parameter, policies: seq<NamedPolicy>)

  datatype Tenant = Tenant(
    name: string,
    accessKey: Parameter,
    secretKey: Parameter,
    buckets: seq<Bucket>,
    policies: seq<NamedPolicy>,
    users: seq<User>)

  function TenantCredentials(t: Tenant): Credentials
  {
    Credentials(t.accessKey.value, t.secretKey.value)
  }

  /** Builds a tenant with empty resource lists; a missing user name or password
      builder falls back to the default parameter. */
  function AddMinIo(name: string, username: Option<Parameter>, password: Option<Parameter>): (t: Tenant)
    ensures t.name == name && t.buckets == [] && t.policies == [] && t.users == []
    ensures username.None? ==> TenantCredentials(t).accessKey == "minio"
    ensures password.None? ==> TenantCredentials(t).secretKey == "miniopassword" && t.secretKey.secret
    ensures username.Some? ==> t.accessKey == username.value
    ensures password.Some? ==> t.secretKey == password.value
  {
    Tenant(
      name,
      if username.Some? then username.value else DefaultUsername,
      if password.Some? then password.value else DefaultPassword,
      [], [], [])
  }

  /** A freshly constructed bucket resource, whose policy starts as the empty string. */
  function NewBucket(parent: string, name: string): Bucket
  {
    Bucket(parent, name, Json(""))
  }

  /** The enum overload of the bucket-side `WithPolicy`: replaces the policy with the
      canned document for this bucket's name. */
  function WithTemplate(b: Bucket, kind: BucketPolicy): (r: Bucket)
    ensures r.name == b.name && r.parent == b.parent
    ensures r.policy.Structured? && r.policy.doc == Template(kind, b.name)
  {
    b.(policy := Structured(Template(kind, b.name)))
  }

  /** The string overload of the bucket-side `WithPolicy`: stores the text unchanged. */
  function WithJson(b: Bucket, json: string): (r: Bucket)
    ensures r.name == b.name && r.parent == b.parent
    ensures r.policy == Json(json)
  {
    b.(policy := Json(json))
  }

  /** Appends a new bucket and gives it the private template. */
  function AddBucket(t: Tenant, name: string): (r: Tenant)
    ensures r == t.(buckets := r.buckets)
    ensures |r.buckets| == |t.buckets| + 1 && r.buckets[..|t.buckets|] == t.buckets
    ensures r.buckets[|t.buckets|] == Bucket(t.name, name, Structured(PrivateDocument(name)))
    ensures r.buckets[|t.buckets|].policy != NewBucket(t.name, name).policy
  {
    t.(buckets := t.buckets + [WithTemplate(NewBucket(t.name, name), Private)])
  }

  /** Replaces the bucket at position `i` (the bucket a builder call refers to). */
  function UpdateBucket(t: Tenant, i: nat, b: Bucket): (r: Tenant)
    requires i < |t.buckets|
    ensures r == t.(buckets := r.buckets)
    ensures |r.buckets| == |t.buckets| && r.buckets[i] == b
    ensures forall j :: 0 <= j < |t.buckets| && j != i ==> r.buckets[j] == t.buckets[j]
  {
    t.(buckets := t.buckets[i := b])
  }

  function WithBucketPolicy(t: Tenant, i: nat, kind: BucketPolicy): Tenant
    requires i < |t.buckets|
  {
    UpdateBucket(t, i, WithTemplate(t.buckets[i], kind))
  }

  function WithBucketPolicyJson(t: Tenant, i: nat, json: string): Tenant
    requires i < |t.buckets|
  {
    UpdateBucket(t, i, WithJson(t.buckets[i], json))
  }

  /** Each policy call overwrites the previous one: only the last call on a bucket
      decides its document, whichever overloads were used. */
  lemma LastBucketPolicyWins(t: Tenant, i: nat, kind: BucketPolicy, json: string)
    requires i < |t.buckets|
    ensures WithBucketPolicy(WithBucketPolicyJson(t, i, json), i, kind) == WithBucketPolicy(t, i, kind)
    ensures WithBucketPolicyJson(WithBucketPolicy(t, i, kind), i, json) == WithBucketPolicyJson(t, i, json)
    ensures WithBucketPolicyJson(t, i, json).buckets[i].policy == Json(json)
  {
  }

  /** Appends a named policy owned by the tenant. */
  function AddPolicy(t: Tenant, name: string, json: string): (r: Tenant)
    ensures r == t.(policies := r.policies)
    ensures |r.policies| == |t.policies| + 1 && r.policies[..|t.policies|] == t.policies
    ensures r.policies[|t.policies|] == NamedPolicy(t.name, name, json)
  {
    t.(policies := t.policies + [NamedPolicy(t.name, name, json)])
  }

  /** The access-key parameter of a user: a constant parameter defaulting to the name. */
  function UserAccessKey(name: string): Parameter
  {
    Parameter(name + "-accessKey", name, false)
  }

  /** A new user with no policies. Without an explicit secret the framework generates a
      password parameter; the generated value is an input here. */
  function NewUser(parent: string, name: string, secret: Option<Parameter>, generated: string): (u: User)
    ensures u.name == name && u.parent == parent && u.policies == []
    ensures u.accessKey.value == name
    ensures secret.Some? ==> u.secretKey == secret.value
    ensures secret.None? ==> u.secretKey.value == generated && u.secretKey.secret
  {
    User(parent, name, UserAccessKey(name),
      if secret.Some? then secret.value else Parameter(name + "-secretAccessKey", generated, true),
      [])
  }

  /** Appends a new user owned by the tenant. */
  function AddUser(t: Tenant, name: string, secret: Option<Parameter>, generated: string): (r: Tenant)
    ensures r == t.(users := r.users)
    ensures |r.users| == |t.users| + 1 && r.users[..|t.users|] == t.users
    ensures r.users[|t.users|] == NewUser(t.name, name, secret, generated)
  {
    t.(users := t.users + [NewUser(t.name, name, secret, generated)])
  }

  /** The user resource's own `AddPolicy`: appends, never deduplicates. */
  function AddPolicyToUser(u: User, p: NamedPolicy): (r: User)
    ensures r.name == u.name && r.parent == u.parent
    ensures r.accessKey == u.accessKey && r.secretKey == u.secretKey
    ensures |r.policies| == |u.policies| + 1
    ensures r.policies[..|u.policies|] == u.policies && r.policies[|u.policies|] == p
  {
    u.(policies := u.policies + [p])
  }

  /** The user-side `WithPolicy`: attaches each argument not yet attached, in order. */
  function WithPolicies(u: User, ps: seq<NamedPolicy>): (r: User)
    ensures r.name == u.name && r.parent == u.parent
    ensures r.accessKey == u.accessKey && r.secretKey == u.secretKey
    ensures |u.policies| <= |r.policies| && r.policies[..|u.policies|] == u.policies
    ensures forall p :: p in r.policies <==> p in u.policies || p in ps
    ensures NoDup(u.policies) ==> NoDup(r.policies)
    ensures r.policies == u.policies + Distinct(Without(ps, u.policies))
  {
    AppendNewIsDistinctFresh(u.policies, ps);
    u.(policies := AppendNew(u.policies, ps))
  }

  /** Attaching the same policies a second time changes nothing. */
  lemma WithPoliciesIdempotent(u: User, ps: seq<NamedPolicy>)
    ensures WithPolicies(WithPolicies(u, ps), ps) == WithPolicies(u, ps)
  {
    AppendNewIdempotent(u.policies, ps);
  }

  /** Replaces the user at position `i` (the user a builder call refers to). */
  function UpdateUser(t: Tenant, i: nat, u: User): (r: Tenant)
    requires i < |t.users|
    ensures r == t.(users := r.users)
    ensures |r.users| == |t.users| && r.users[i] == u
    ensures forall j :: 0 <= j < |t.users| && j != i ==> r.users[j] == t.users[j]
  {
    t.(users := t.users[i := u])
  }

  function WithUserPolicies(t: Tenant, i: nat, ps: seq<NamedPolicy>): Tenant
    requires i < |t.users|
  {
    UpdateUser(t, i, WithPolicies(t.users[i], ps))
  }

  function BucketNames(bs: seq<Bucket>): (ns: seq<string>)
    ensures |ns| == |bs| && forall i :: 0 <= i < |bs| ==> ns[i] == bs[i].name
  {
    seq(|bs|, i requires 0 <= i < |bs| => bs[i].name)
  }

  function PolicyNames(ps: seq<NamedPolicy>): (ns: seq<string>)
    ensures |ns| == |ps| && forall i :: 0 <= i < |ps| ==> ns[i] == ps[i].name
  {
    seq(|ps|, i requires 0 <= i < |ps| => ps[i].name)
  }

  function UserNames(us: seq<User>): (ns: seq<string>)
    ensures |ns| == |us| && forall i :: 0 <= i < |us| ==> ns[i] == us[i].name
  {
    seq(|us|, i requires 0 <= i < |us| => us[i].name)
  }

  /** Names are unique within each kind; the hosting framework refuses a second
      resource of the same name, so every tenant the builder produces satisfies this. */
  predicate UniqueNames(t: Tenant)
  {
    NoDup(BucketNames(t.buckets)) && NoDup(PolicyNames(t.policies)) && NoDup(UserNames(t.users))
  }
}
