/**
 * The two image-upload endpoints of the backend: POST /api/upload-image stores the posted
 * file under `uploads/<millis>-<original name>`, and GET /api/upload-image-url hands out a
 * presigned PUT URL for `images/<millis>-<random>`. Both answer with the public URL
 * `<public base>/<key>`. The clock (`Date.now()`), the random text
 * (`Math.random().toString(36)`), the object store and the presigner are parameters.
 */
module BackendUpload {
  import opened Wrappers
  import opened Text
  import opened BackendModel
  import opened BackendAuth

  /** The part of a multer file the handler reads. */
  datatype UploadedFile = UploadedFile(originalName: string, mimeType: string, size: nat)

  /** The `PutObjectCommand` the handler sends. */
  datatype PutObject = PutObject(key: string, contentType: string, size: nat)

  const NoImageFile := Response(400, Message("No image file provided"))
  const BucketNotConfigured := Response(500, Message("R2 bucket name not configured"))
  const UploadToR2Failed := Response(500, Message("Upload to R2 failed"))
  const UploadUrlFailed := Response(500, Failure("Failed to generate upload URL"))

  function UploadKey(millis: nat, name: string): string {
    "uploads/" + NatToString(millis) + "-" + name
  }

  function ImageKey(millis: nat, random36: string): string {
    "images/" + NatToString(millis) + "-" + SubstringFrom(random36, 7)
  }

  function PublicUrl(publicBase: string, key: string): string {
    publicBase + "/" + key
  }

  /** Splits `<prefix><digits>-<rest>` back into the number and the rest. */
  function ParseKey(prefix: string, key: string): Option<(nat, string)> {
    if !StartsWith(key, prefix) then None
    else
      var body := key[|prefix|..];
      var k := LeadingDigits(body);
      if k == 0 || k == |body| || body[k] != '-' then None
      else Some((DigitsValue(body[..k]), body[k + 1..]))
  }

  lemma {:induction false} ParseKeyOf(prefix: string, millis: nat, rest: string)
    ensures ParseKey(prefix, prefix + NatToString(millis) + "-" + rest) == Some((millis, rest))
  {
    var digits := NatToString(millis);
    var key := prefix + digits + "-" + rest;
    assert key[..|prefix|] == prefix;
    var body := key[|prefix|..];
    assert body == digits + ("-" + rest);
    LeadingDigitsOfDigits(digits, "-" + rest);
    assert body[..|digits|] == digits;
    assert body[|digits| + 1..] == rest;
    DigitsValueOfNatToString(millis);
  }

  /** An upload key names the moment and the file it was made from. */
  lemma UploadKeyRoundTrip(millis: nat, name: string)
    ensures ParseKey("uploads/", UploadKey(millis, name)) == Some((millis, name))
  {
    ParseKeyOf("uploads/", millis, name);
  }

  /** Uploads at different moments, or of differently named files, get different keys. */
  lemma UploadKeyInjective(m1: nat, n1: string, m2: nat, n2: string)
    requires UploadKey(m1, n1) == UploadKey(m2, n2)
    ensures m1 == m2 && n1 == n2
  {
    UploadKeyRoundTrip(m1, n1);
    UploadKeyRoundTrip(m2, n2);
  }

  /** An image key keeps the moment and the random text from its eighth character on. */
  lemma ImageKeyRoundTrip(millis: nat, random36: string)
    ensures ParseKey("images/", ImageKey(millis, random36)) == Some((millis, SubstringFrom(random36, 7)))
  {
    ParseKeyOf("images/", millis, SubstringFrom(random36, 7));
  }

  /** The public URL is the base, a slash, and the key, which can be read back off its end. */
  lemma PublicUrlEndsWithKey(publicBase: string, key: string)
    ensures var u := PublicUrl(publicBase, key);
      StartsWith(u, publicBase) && u[|publicBase|] == '/' && u[|publicBase| + 1..] == key
  {
    var u := PublicUrl(publicBase, key);
    assert u[..|publicBase|] == publicBase;
  }

  /**
   * `R2_BUCKET_NAME`: the CLOUDFLARE_R2_BUCKET_NAME variable when it is set and non-empty,
   * otherwise "bucket".
   */
  function BucketName(bucketEnv: Option<string>): string {
    if bucketEnv.Some? && bucketEnv.value != "" then bucketEnv.value else "bucket"
  }

  /** The bucket name is never empty, whatever the environment holds. */
  lemma BucketNameNonEmpty(bucketEnv: Option<string>)
    ensures BucketName(bucketEnv) != ""
    ensures bucketEnv.Some? && bucketEnv.value != "" ==> BucketName(bucketEnv) == bucketEnv.value
  {
  }

  /**
   * POST /api/upload-image after `authenticateToken`: the response and the object sent to
   * the store, if any. `bucketEnv` is the CLOUDFLARE_R2_BUCKET_NAME variable and `stored`
   * whether the store accepted the object.
   */
  function UploadImage(auth: AuthDecision, file: Option<UploadedFile>, bucketEnv: Option<string>,
                       millis: nat, publicBase: string, stored: bool): (Response, Option<PutObject>)
  {
    if auth.Rejected? then (auth.response, None)
    else if file.None? then (NoImageFile, None)
    else if BucketName(bucketEnv) == "" then (BucketNotConfigured, None)
    else
      var key := UploadKey(millis, file.value.originalName);
      var put := PutObject(key, file.value.mimeType, file.value.size);
      if !stored then (UploadToR2Failed, Some(put))
      else (Response(200, ImageLocation(PublicUrl(publicBase, key))), Some(put))
  }

  /**
   * Nothing is sent to the store unless the caller is authenticated and a file is attached;
   * the "not configured" answer never occurs, since the bucket name falls back to "bucket";
   * the sent object carries the file's type; success answers with the public URL of exactly
   * the key that was stored.
   */
  lemma {:induction false} UploadImageSpec(auth: AuthDecision, file: Option<UploadedFile>, bucketEnv: Option<string>,
                                           millis: nat, publicBase: string, stored: bool)
    ensures var (resp, put) := UploadImage(auth, file, bucketEnv, millis, publicBase, stored);
      && (put.Some? <==> auth.Authenticated? && file.Some?)
      && (auth.Authenticated? ==> resp != BucketNotConfigured)
      && (auth.Rejected? ==> resp == auth.response)
      && (auth.Authenticated? && file.None? ==> resp == NoImageFile)
      && (put.Some? ==> put.value.key == UploadKey(millis, file.value.originalName)
                        && put.value.contentType == file.value.mimeType
                        && put.value.size == file.value.size)
      && (auth.Authenticated? ==> (resp.status == 200 <==> put.Some? && stored))
      && (auth.Authenticated? && resp.status == 200 ==>
            resp.payload == ImageLocation(PublicUrl(publicBase, put.value.key)))
  {
    BucketNameNonEmpty(bucketEnv);
  }

  /**
   * GET /api/upload-image-url after `authenticateToken`: `presigned` is what the presigner
   * returned for the key, None when it threw.
   */
  function UploadImageUrl(auth: AuthDecision, millis: nat, random36: string, publicBase: string,
                          presigned: string -> Option<string>): Response
  {
    if auth.Rejected? then auth.response
    else
      var key := ImageKey(millis, random36);
      match presigned(key)
      case None => UploadUrlFailed
      case Some(url) => Response(200, UploadTicket(url, key, PublicUrl(publicBase, key)))
  }

  /** A ticket names the presigned URL for its own key and the public URL of that key. */
  lemma UploadImageUrlSpec(auth: AuthDecision, millis: nat, random36: string, publicBase: string,
                           presigned: string -> Option<string>)
    ensures var resp := UploadImageUrl(auth, millis, random36, publicBase, presigned);
      && (auth.Rejected? ==> resp == auth.response)
      && (auth.Authenticated? ==>
            var key := ImageKey(millis, random36);
            if presigned(key).Some? then
              resp == Response(200, UploadTicket(presigned(key).value, key, PublicUrl(publicBase, key)))
            else resp == UploadUrlFailed)
      && (auth.Authenticated? && resp.payload.UploadTicket? ==>
            ParseKey("images/", resp.payload.key) == Some((millis, SubstringFrom(random36, 7))))
  {
    ImageKeyRoundTrip(millis, random36);
  }
}
