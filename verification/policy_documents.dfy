/** The canned bucket access policies: a "public" document granting every S3 action on
    the bucket and its objects, and a "private" document granting a fixed listing set on
    the bucket and a fixed object read/write set on its objects. Documents are kept as
    structured statements; the exact JSON whitespace of the C# templates is not modelled.
    `Grants` gives the documents a meaning (which request a document allows), so that
    the templates can be compared by what they permit. */
module PolicyDocuments {

  const PolicyVersion := "2012-10-17"
  const ArnPrefix := "arn:aws:s3:::"
  const AnyS3Action := "s3:*"
  const AnyPrincipal := "*"

  /** The enum accepted by the bucket-side `WithPolicy` overload. */
  datatype BucketPolicy = Public | Private

  datatype Effect = Allow | Deny

  datatype Statement = Statement(effect: Effect, principals: seq<string>, actions: seq<string>, resources: seq<string>)

  datatype Document = Document(version: string, statements: seq<Statement>)

  /** What a bucket stores as its policy: a canned document, or caller-supplied JSON text
      passed through byte for byte and never validated. */
  datatype PolicyText = Structured(doc: Document) | Json(text: string)

  /** The listing actions the private template grants on the bucket itself. */
  const BucketActions: seq<string> := ["s3:GetBucketLocation", "s3:ListBucket", "s3:ListBucketMultipartUploads"]

  /** The object actions the private template grants on the bucket's objects. */
  const ObjectActions: seq<string> :=
    ["s3:ListMultipartUploadParts", "s3:PutObject", "s3:AbortMultipartUpload", "s3:DeleteObject", "s3:GetObject"]

  function BucketArn(bucket: string): string
  {
    ArnPrefix + bucket
  }

  function ObjectsArn(bucket: string): string
  {
    ArnPrefix + bucket + "/*"
  }

  function PublicDocument(bucket: string): Document
  {
    Document(PolicyVersion, [Statement(Allow, [AnyPrincipal], [AnyS3Action], [BucketArn(bucket), ObjectsArn(bucket)])])
  }

  function PrivateDocument(bucket: string): Document
  {
    Document(PolicyVersion, [
      Statement(Allow, [AnyPrincipal], BucketActions, [BucketArn(bucket)]),
      Statement(Allow, [AnyPrincipal], ObjectActions, [ObjectsArn(bucket)])
    ])
  }

  /** The document the enum overload of `WithPolicy` stores for a bucket. */
  function Template(kind: BucketPolicy, bucket: string): Document
  {
    match kind
    case Public => PublicDocument(bucket)
    case Private => PrivateDocument(bucket)
  }

  /** IAM-style pattern matching: a trailing `*` matches any suffix, otherwise the
      pattern must equal the value. */
  predicate Matches(pattern: string, value: string)
  {
    if |pattern| > 0 && pattern[|pattern| - 1] == '*' then pattern[..|pattern| - 1] <= value
    else pattern == value
  }

  predicate StatementGrants(st: Statement, action: string, resource: string)
  {
    && st.effect == Allow
    && AnyPrincipal in st.principals
    && (exists p :: p in st.actions && Matches(p, action))
    && (exists q :: q in st.resources && Matches(q, resource))
  }

  /** The document allows an anonymous request for `action` on `resource`. */
  predicate Grants(doc: Document, action: string, resource: string)
  {
    exists st :: st in doc.statements && StatementGrants(st, action, resource)
  }

  predicate IsS3Action(action: string)
  {
    "s3:" <= action
  }

  /** The bucket ARN pattern or the object ARN pattern of `bucket` matches `resource`. */
  predicate OnBucket(bucket: string, resource: string)
  {
    Matches(BucketArn(bucket), resource) || Matches(ObjectsArn(bucket), resource)
  }

  lemma NoWildcardIn(actions: seq<string>, action: string)
    requires actions == BucketActions || actions == ObjectActions
    ensures (exists p :: p in actions && Matches(p, action)) <==> action in actions
  {
    forall p | p in actions
      ensures Matches(p, action) <==> p == action
    {
      assert p[|p| - 1] != '*';
    }
  }

  /** The public template allows exactly the S3 actions, on exactly the bucket and its objects. */
  lemma PublicGrantsExactly(bucket: string, action: string, resource: string)
    ensures Grants(PublicDocument(bucket), action, resource) <==> IsS3Action(action) && OnBucket(bucket, resource)
  {
    var st := PublicDocument(bucket).statements[0];
    assert AnyS3Action[..|AnyS3Action| - 1] == "s3:";
    assert (exists p :: p in st.actions && Matches(p, action)) <==> Matches(AnyS3Action, action);
    if IsS3Action(action) && OnBucket(bucket, resource) {
      if Matches(BucketArn(bucket), resource) {
        assert BucketArn(bucket) in st.resources;
      } else {
        assert ObjectsArn(bucket) in st.resources;
      }
      assert StatementGrants(st, action, resource);
    }
  }

  /** The private template allows the listing actions on the bucket and the object
      actions on its objects, and nothing else. */
  lemma PrivateGrantsExactly(bucket: string, action: string, resource: string)
    ensures Grants(PrivateDocument(bucket), action, resource) <==>
              (action in BucketActions && Matches(BucketArn(bucket), resource))
              || (action in ObjectActions && Matches(ObjectsArn(bucket), resource))
  {
    var doc := PrivateDocument(bucket);
    var s0, s1 := doc.statements[0], doc.statements[1];
    NoWildcardIn(BucketActions, action);
    NoWildcardIn(ObjectActions, action);
    assert StatementGrants(s0, action, resource) <==> action in BucketActions && Matches(BucketArn(bucket), resource) by {
      assert s0.resources == [BucketArn(bucket)];
    }
    assert StatementGrants(s1, action, resource) <==> action in ObjectActions && Matches(ObjectsArn(bucket), resource) by {
      assert s1.resources == [ObjectsArn(bucket)];
    }
    assert Grants(doc, action, resource) <==> StatementGrants(s0, action, resource) || StatementGrants(s1, action, resource);
  }

  /** Whatever the private template allows, the public template allows as well. */
  lemma PrivateWithinPublic(bucket: string, action: string, resource: string)
    requires Grants(PrivateDocument(bucket), action, resource)
    ensures Grants(PublicDocument(bucket), action, resource)
  {
    PrivateGrantsExactly(bucket, action, resource);
    PublicGrantsExactly(bucket, action, resource);
    assert IsS3Action(action) by {
      assert action in BucketActions || action in ObjectActions;
    }
  }

  /** The private template never names the all-actions wildcard, and never allows
      deleting the bucket or rewriting its policy, both of which the public one allows. */
  lemma PrivateIsLeastPrivilege(bucket: string)
    ensures forall st :: st in PrivateDocument(bucket).statements ==> AnyS3Action !in st.actions
    ensures !Grants(PrivateDocument(bucket), "s3:DeleteBucket", BucketArn(bucket))
    ensures !Grants(PrivateDocument(bucket), "s3:PutBucketPolicy", BucketArn(bucket))
    ensures Grants(PublicDocument(bucket), "s3:DeleteBucket", BucketArn(bucket))
    ensures Grants(PublicDocument(bucket), "s3:PutBucketPolicy", BucketArn(bucket))
  {
    PrivateGrantsExactly(bucket, "s3:DeleteBucket", BucketArn(bucket));
    PrivateGrantsExactly(bucket, "s3:PutBucketPolicy", BucketArn(bucket));
    PublicGrantsExactly(bucket, "s3:DeleteBucket", BucketArn(bucket));
    PublicGrantsExactly(bucket, "s3:PutBucketPolicy", BucketArn(bucket));
    assert "s3:" <= "s3:DeleteBucket";
    assert "s3:" <= "s3:PutBucketPolicy";
    var b := BucketArn(bucket);
    assert Matches(b, b) by {
      if |b| > 0 && b[|b| - 1] == '*' {
        assert b[..|b| - 1] <= b;
      }
    }
  }

  /** Each template is determined by the bucket name: distinct buckets get distinct
      documents, and a public document is never a private one. */
  lemma TemplatesDistinguishBuckets(kind: BucketPolicy, other: BucketPolicy, a: string, b: string)
    requires Template(kind, a) == Template(other, b)
    ensures kind == other && a == b
  {
    var sa, sb := Template(kind, a).statements, Template(other, b).statements;
    assert |sa| == |sb|;
    assert sa[0].resources[0] == BucketArn(a) && sb[0].resources[0] == BucketArn(b);
    assert a == BucketArn(a)[|ArnPrefix|..];
    assert b == BucketArn(b)[|ArnPrefix|..];
  }
}
