/** The vocabulary shared by the provisioner and the health checks: admin-API status
    codes and responses, the calls made against the storage and admin APIs, the resource
    a call is made on behalf of, and the errors that abort a run. */
module Api {
  import opened PolicyDocuments

  /** An admin-API status: 2xx, 403, or any other non-success code. */
  datatype Status = Succeeded | Forbidden | OtherFailure

  /** An admin-API response. Only a login response's Set-Cookie values are ever read. */
  datatype Response = Response(status: Status, setCookies: seq<string>)

  /** The answer the model assumes once a response script is exhausted. */
  const NoAnswer := Response(OtherFailure, [])

  /** The declared resource on whose behalf a call is made. */
  datatype Subject = OfBucket(name: string) | OfPolicy(name: string) | OfUser(name: string)

  /** One observable step: a storage call, an admin call, or the local reset of the
      cached admin client. */
  datatype Action =
    | BucketExists(bucket: string)
    | MakeBucket(bucket: string)
    | SetBucketPolicy(bucket: string, policy: PolicyText)
    | Login(accessKey: string, secretKey: string)
    | GetPolicy(name: string)
    | CreatePolicy(name: string, document: string)
    | GetUser(name: string)
    | CreateUser(accessKey: string, secretKey: string, policies: seq<string>, groups: seq<string>)
    | SessionReset

  /** Calls that create something on the server. */
  predicate IsCreate(a: Action)
  {
    a.MakeBucket? || a.CreatePolicy? || a.CreateUser?
  }

  /** Calls made against the admin (console) API. */
  predicate IsAdminCall(a: Action)
  {
    a.Login? || a.GetPolicy? || a.CreatePolicy? || a.GetUser? || a.CreateUser?
  }

  /** An exception that aborts the run: a provisioning failure wrapping its cause, a
      rejected console login, a successful login whose response carries no `Set-Cookie`
      header (reading the missing header throws), or an exception thrown by the storage
      client. */
  datatype Fault =
    | NotCreated(subject: Subject, cause: Fault)
    | LoginRejected
    | NoSessionCookie
    | StorageThrew(call: Action)

  /** The faults a login can raise. */
  predicate IsLoginFault(f: Fault)
  {
    f == LoginRejected || f == NoSessionCookie
  }

  /** A login answer that yields an admin client: a success carrying at least one cookie. */
  predicate LoginAccepted(login: Response)
  {
    login.status == Succeeded && |login.setCookies| > 0
  }

  /** The fault a login answer raises when it does not yield a client. */
  function LoginFault(login: Response): (f: Fault)
    ensures IsLoginFault(f)
    ensures f == LoginRejected <==> login.status != Succeeded
  {
    if login.status != Succeeded then LoginRejected else NoSessionCookie
  }

  /** The start of every provisioning failure's message. */
  const CreateFailed := "Failed to create MinIO "

  /** The word a provisioning failure's message uses for the subject's kind. */
  function KindWord(s: Subject): string
  {
    match s
    case OfBucket(_) => "bucket"
    case OfPolicy(_) => "policy"
    case OfUser(_) => "user"
  }

  /** The message of a provisioning failure for `s`: the common start, the kind, and
      the name in single quotes. */
  function CreateFailedText(s: Subject): (m: string)
    ensures |m| >= |CreateFailed| + |s.name| + 1 && m[..|CreateFailed|] == CreateFailed
    ensures m[|m| - |s.name| - 1..|m| - 1] == s.name && m[|m| - 1] == '\''
  {
    var p := CreateFailed + KindWord(s) + " '";
    assert (p + s.name + "'")[..|CreateFailed|] == p[..|CreateFailed|];
    p + s.name + "'"
  }

  /** The message of a fault. The provisioning and login texts are the ones the code
      raises; the texts for a missing cookie and for a storage exception stand in for
      messages that library code produces. */
  function Message(f: Fault): (m: string)
    ensures f.NotCreated? ==>
              var n := f.subject.name;
              && |m| >= |CreateFailed| + |n| + 1 && m[..|CreateFailed|] == CreateFailed
              && m[|m| - |n| - 1..|m| - 1] == n && m[|m| - 1] == '\''
    ensures f == LoginRejected ==> m == "Failed to login to MinIO console"
  {
    match f
    case NotCreated(s, _) => CreateFailedText(s)
    case LoginRejected => "Failed to login to MinIO console"
    case NoSessionCookie => "login response without a Set-Cookie header"
    case StorageThrew(_) => "storage client error"
  }

  /** A provisioning failure's message identifies its subject: equal messages mean the
      same kind and the same name. */
  lemma MessageIdentifiesSubject(f: Fault, g: Fault)
    requires f.NotCreated? && g.NotCreated? && Message(f) == Message(g)
    ensures f.subject == g.subject
  {
    var (s, t) := (f.subject, g.subject);
    var m := Message(f);
    assert m == CreateFailedText(s) == CreateFailedText(t);
    var p := CreateFailed + KindWord(s) + " '";
    assert m == p + s.name + "'";
    assert KindWord(s)[0] == m[|CreateFailed|] == KindWord(t)[0];
    assert KindWord(s) == KindWord(t);
    assert s.name == m[|p|..|m| - 1] == t.name;
  }
}
