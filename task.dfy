/** The `tentacles` task: its options, and the pipeline that runs the
    stages in order (local inventory, remote inventory, reconciliation,
    upload) and settles with success or the first error. */
module Task {
  import opened Wrappers
  import opened Files
  import opened Sequences
  import opened Reconciler
  import opened LocalInventory
  import opened RemoteInventory
  import opened Uploader

  /** The task options; `None` is an option left undefined. */
  datatype Options = Options(
    bucketName: Option<string>,
    accessKeyId: Option<string>,
    secretAccessKey: Option<string>,
    region: Option<string>)

  /** A snapshot of `process.env`. */
  type Environment = map<string, string>

  const DefaultRegion: string := "ap-northeast-1"

  /** `process.env[name]`: undefined when the variable is not set. */
  function Env(env: Environment, name: string): Option<string> {
    if name in env then Some(env[name]) else None
  }

  /** `this.options({ ... })`: an option the task configuration defines wins
      over its default. The bucket name has no default, the keys default to
      the environment, and the region to `AWS_REGION` when that is non-empty,
      else to the fixed default region. */
  function ResolveOptions(given: Options, env: Environment): (o: Options)
    ensures o.bucketName == given.bucketName
    ensures given.accessKeyId.Some? ==> o.accessKeyId == given.accessKeyId
    ensures given.accessKeyId.None? ==> o.accessKeyId == Env(env, "AWS_ACCESS_KEY_ID")
    ensures given.secretAccessKey.Some? ==> o.secretAccessKey == given.secretAccessKey
    ensures given.secretAccessKey.None? ==> o.secretAccessKey == Env(env, "AWS_SECRET_ACCESS_KEY")
    ensures o.region.Some?
    ensures given.region.Some? ==> o.region == given.region
    ensures given.region.None? && Truthy(Env(env, "AWS_REGION")) ==> o.region == Env(env, "AWS_REGION")
    ensures given.region.None? && !Truthy(Env(env, "AWS_REGION")) ==> o.region == Some(DefaultRegion)
  {
    var region := Env(env, "AWS_REGION");
    Options(
      given.bucketName,
      if given.accessKeyId.Some? then given.accessKeyId else Env(env, "AWS_ACCESS_KEY_ID"),
      if given.secretAccessKey.Some? then given.secretAccessKey else Env(env, "AWS_SECRET_ACCESS_KEY"),
      if given.region.Some? then given.region
      else if Truthy(region) then region
      else Some(DefaultRegion))
  }

  /** The body a file is uploaded with hashes to the digest the local
      inventory gave it, so once stored its ETag carries that digest. */
  lemma UploadedBodyHasLocalDigest(host: Host, groups: seq<FileGroup>, bucket: Option<string>, f: LocalFile)
    requires f in LocalFiles(host, groups)
    ensures host.md5Hex(RequestFor(host, bucket, f).body) == f.digest
  {
  }

  /** The task body: the stages in strict sequence. A failed listing, or an
      ETag that does not parse, fails the run before any upload; otherwise
      the upload list is reconciled from the two inventories and uploaded
      one file at a time up to the first failure. */
  method Sync(host: Host, groups: seq<FileGroup>, given: Options, env: Environment,
              backend: Backend, put: PutObject, ghost bound: nat)
    returns (result: Outcome<Error>, pages: seq<Page>, attempted: seq<PutRequest>)
    requires ListingEnds(backend, ResolveOptions(given, env).bucketName, None, bound)
    ensures var bucket := ResolveOptions(given, env).bucketName;
      && Fetched(backend, bucket, pages)
      && (!Complete(backend, bucket, pages) ==>
            result.Fail? && ListingError(backend, bucket, pages, result.error) && attempted == [])
      && (Complete(backend, bucket, pages) && ToRemoteFiles(Objects(pages)).Err? ==>
            result == Fail(ToRemoteFiles(Objects(pages)).error) && attempted == [])
      && (Complete(backend, bucket, pages) && ToRemoteFiles(Objects(pages)).Ok? ==>
            var uploads := UploadFiles(LocalFiles(host, groups), ToRemoteFiles(Objects(pages)).value);
            SettlesAs(put, Requests(host, bucket, uploads), attempted, result))
  {
    var options := ResolveOptions(given, env);
    var localFiles, warnings := GetLocalFiles(host, groups);
    var remoteFiles;
    remoteFiles, pages := GetRemoteFiles(backend, options.bucketName, bound);
    if remoteFiles.Err? {
      return Fail(remoteFiles.error), pages, [];
    }
    var uploadFiles := UploadFiles(localFiles, remoteFiles.value);
    attempted, result := UploadLocalFiles(host, options.bucketName, put, uploadFiles);
  }
}
