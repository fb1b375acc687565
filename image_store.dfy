/**
 * The two image stores behind the profile image upload: a local directory
 * and an S3 bucket.  Both name an image `<userID>-<filename>`; they differ in
 * where the bytes go and in the URL they hand back.  File-system and S3 calls
 * are outside the model: their outcomes arrive as parameters.
 */
module ImageStores {
  import opened Store
  import opened Strings

  /** The environment variables the stores read. */
  datatype Env = Env(
    imageStore: string,     // IMAGE_STORE
    s3Bucket: string,       // S3_BUCKET
    awsRegion: string,      // AWS_REGION
    awsS3Endpoint: string,  // AWS_S3_ENDPOINT
    localPath: string)      // LOCAL_PATH

  datatype ImageStore =
    | LocalImageStore(basePath: string)
    | S3ImageStore(bucketName: string)

  /**
   * SaveImage's two results: the image URL, or an error with the URL "".
   * Only the fixed part of an error's message is modelled.
   */
  datatype Saved = Saved(url: string, err: Option<string>)

  /**
   * The outcome of the I/O SaveImage performs: whether os.Create succeeds at
   * a path, whether io.Copy succeeds, and whether PutObject succeeds for a
   * (bucket, key).
   */
  datatype SaveIo = SaveIo(canCreate: string -> bool, copyOk: bool, canUpload: (string, string) -> bool)

  /** The name, and object key, of a user's upload: the user id, a dash and the file name, in that order. */
  function ImageName(userID: string, filename: string): (name: string)
    ensures |name| == |userID| + 1 + |filename|
    ensures name[..|userID|] == userID && name[|userID|] == '-'
    ensures name[|userID| + 1..] == filename
  {
    userID + "-" + filename
  }

  /** filepath.Join without its lexical clean-up: an empty base leaves the name alone. */
  function JoinPath(base: string, name: string): (path: string)
    ensures |name| <= |path| && path[|path| - |name|..] == name
    ensures base == "" <==> path == name
    ensures base != "" ==> |path| == |base| + 1 + |name| && path[..|base|] == base && path[|base|] == '/'
  {
    if base == "" then name else base + "/" + name
  }

  // ---------------------------------------------------------------------
  // The local store

  /** LocalImageStore.SaveImage: write the file under the base path; the URL does not mention the base path. */
  function LocalSaveImage(basePath: string, userID: string, filename: string, io: SaveIo): (r: Saved)
    ensures r.err.None? <==> io.canCreate(JoinPath(basePath, ImageName(userID, filename))) && io.copyOk
    ensures r.err.Some? ==> r.url == ""
    ensures r.err.None? ==> r.url == "/images/" + ImageName(userID, filename)
  {
    var imageName := ImageName(userID, filename);
    var imagePath := JoinPath(basePath, imageName);
    if !io.canCreate(imagePath) then Saved("", Some("open " + imagePath))
    else if !io.copyOk then Saved("", Some("copy"))
    else Saved("/images/" + imageName, None)
  }

  /** Two local stores over different directories hand out the same URL for the same upload. */
  lemma LocalUrlIgnoresBasePath(base1: string, base2: string, userID: string, filename: string, io: SaveIo)
    requires LocalSaveImage(base1, userID, filename, io).err.None?
    requires LocalSaveImage(base2, userID, filename, io).err.None?
    ensures LocalSaveImage(base1, userID, filename, io).url == LocalSaveImage(base2, userID, filename, io).url
  {
  }

  /**
   * The naming is not injective: whenever a user id or a file name holds a
   * dash, two different (user, file) pairs share one name and overwrite each
   * other.
   */
  lemma ImageNamesCollide(a: string, b: string, c: string)
    ensures ImageName(a + "-" + b, c) == ImageName(a, b + "-" + c)
  {
  }

  // ---------------------------------------------------------------------
  // The S3 store

  /** The endpoint as the frontend should see it: the first "localstack" becomes "localhost". */
  function PublicEndpoint(endpoint: string): (r: string)
    ensures !Contains(endpoint, "localstack") ==> r == endpoint
    ensures Contains(endpoint, "localstack") ==>
      var i := Find(endpoint, "localstack").value;
      && |r| == |endpoint| - 1
      && r[..i] == endpoint[..i]
      && r[i..i + 9] == "localhost"
      && r[i + 9..] == endpoint[i + 10..]
  {
    if Contains(endpoint, "localstack") then ReplaceFirst(endpoint, "localstack", "localhost") else endpoint
  }

  /**
   * An endpoint whose host is "localstack", such as http://localstack:4566,
   * is handed out with host "localhost" (any scheme free of the letter 'l').
   */
  lemma LocalstackHostBecomesLocalhost(scheme: string, rest: string)
    requires 'l' !in scheme
    ensures PublicEndpoint(scheme + "localstack" + rest) == scheme + "localhost" + rest
  {
    var e := scheme + "localstack" + rest;
    assert OccursAt(e, "localstack", |scheme|);
    forall j | 0 <= j < |scheme|
      ensures !OccursAt(e, "localstack", j)
    {
      assert e[j] == scheme[j];
    }
    assert Find(e, "localstack") == Some(|scheme|);
    var r := PublicEndpoint(e);
    assert r == r[..|scheme|] + r[|scheme|..|scheme| + 9] + r[|scheme| + 9..];
  }

  /** The URL of an uploaded object: path style under a configured endpoint, virtual-host style on AWS otherwise. */
  function S3Url(bucket: string, key: string, endpoint: string, region: string): (url: string)
    ensures |key| < |url| && url[|url| - |key|..] == key
    ensures endpoint != "" ==>
      var prefix := PublicEndpoint(endpoint);
      |prefix| < |url| && url[..|prefix|] == prefix
    ensures endpoint == "" ==> 8 + |bucket| <= |url| && url[..8] == "https://" && url[8..8 + |bucket|] == bucket
  {
    if endpoint != "" then PublicEndpoint(endpoint) + "/" + bucket + "/" + key
    else "https://" + bucket + ".s3." + region + ".amazonaws.com/" + key
  }

  /** S3ImageStore.SaveImage: upload under the image name; only a successful upload yields a URL. */
  function S3SaveImage(bucket: string, userID: string, filename: string, endpoint: string, region: string, io: SaveIo)
    : (r: Saved)
    ensures r.err.None? <==> io.canUpload(bucket, ImageName(userID, filename))
    ensures r.err.Some? ==> r == Saved("", Some("failed to upload image to S3"))
    ensures r.err.None? && endpoint != "" ==>
      r.url == PublicEndpoint(endpoint) + "/" + bucket + "/" + ImageName(userID, filename)
    ensures r.err.None? && endpoint == "" ==>
      r.url == "https://" + bucket + ".s3." + region + ".amazonaws.com/" + ImageName(userID, filename)
  {
    var imageName := ImageName(userID, filename);
    if !io.canUpload(bucket, imageName) then Saved("", Some("failed to upload image to S3"))
    else Saved(S3Url(bucket, imageName, endpoint, region), None)
  }

  /** The image store interface: dispatch on the configured store. */
  function SaveImage(store: ImageStore, userID: string, filename: string, env: Env, io: SaveIo): (r: Saved)
    ensures r.err.Some? ==> r.url == ""
    ensures r.err.None? ==> r.url != ""
    ensures r.err.None? ==>
      var name := ImageName(userID, filename);
      |name| <= |r.url| && r.url[|r.url| - |name|..] == name
  {
    match store
    case LocalImageStore(basePath) =>
      var r := LocalSaveImage(basePath, userID, filename, io);
      assert r.err.None? ==> r.url == "/images/" + ImageName(userID, filename);
      r
    case S3ImageStore(bucket) =>
      var r := S3SaveImage(bucket, userID, filename, env.awsS3Endpoint, env.awsRegion, io);
      assert r.err.None? && env.awsS3Endpoint != "" ==>
        r.url == (PublicEndpoint(env.awsS3Endpoint) + "/" + bucket + "/") + ImageName(userID, filename);
      assert r.err.None? && env.awsS3Endpoint == "" ==>
        r.url == ("https://" + bucket + ".s3." + env.awsRegion + ".amazonaws.com/") + ImageName(userID, filename);
      r
  }

  // ---------------------------------------------------------------------
  // Bucket set-up

  /** The CreateBucket request: the bucket and, optionally, the region constraint. */
  datatype CreateBucketInput = CreateBucketInput(bucket: string, locationConstraint: Option<string>)

  /**
   * The S3 service as the set-up sees it: whether the bucket exists
   * (HeadBucket succeeds exactly then), which CreateBucket requests it
   * accepts, and whether PutBucketCors succeeds.
   */
  datatype S3Service = S3Service(bucketExists: bool, accepts: CreateBucketInput -> bool, corsOk: bool)

  /** The region constraint of a new bucket: only on AWS, and not for the default region. */
  function LocationConstraint(endpoint: string, region: string): (r: Option<string>)
    ensures r.Some? <==> endpoint == "" && region != "" && region != "us-east-1"
    ensures r.Some? ==> r.value == region
  {
    if endpoint == "" && region != "" && region != "us-east-1" then Some(region) else None
  }

  /** What InitBucketAndCORS did: the CreateBucket request it sent, if any, and its error. */
  datatype BucketInit = BucketInit(created: Option<CreateBucketInput>, err: Option<string>)

  /** InitBucketAndCORS: create the bucket when HeadBucket fails, then set the CORS policy. */
  function InitBucketAndCORS(bucket: string, endpoint: string, region: string, s3: S3Service): (r: BucketInit)
    ensures s3.bucketExists ==> r.created.None?
    ensures !s3.bucketExists ==> r.created == Some(CreateBucketInput(bucket, LocationConstraint(endpoint, region)))
    ensures r.err.None? <==> (s3.bucketExists || s3.accepts(r.created.value)) && s3.corsOk
    ensures !s3.bucketExists && !s3.accepts(r.created.value) ==> r.err == Some("unable to create S3 bucket")
    ensures (s3.bucketExists || s3.accepts(r.created.value)) && !s3.corsOk ==>
      r.err == Some("unable to set CORS on S3 bucket")
  {
    var created :=
      if s3.bucketExists then None
      else if endpoint != "" then Some(CreateBucketInput(bucket, None))
      else Some(CreateBucketInput(bucket, if region != "" && region != "us-east-1" then Some(region) else None));
    if created.Some? && !s3.accepts(created.value) then BucketInit(created, Some("unable to create S3 bucket"))
    else if !s3.corsOk then BucketInit(created, Some("unable to set CORS on S3 bucket"))
    else BucketInit(created, None)
  }
}
