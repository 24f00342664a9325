/** The data model of the sync task: the records that flow through the
    pipeline, the errors it can end with, and the host services it calls. */
module Files {
  import opened Wrappers

  newtype byte = x: int | 0 <= x < 256

  /** A local file selected for sync: the object key it is stored under, the
      path it is read from, and the hex digest of its contents. */
  datatype LocalFile = LocalFile(key: string, path: string, digest: string)

  /** An object already in the bucket, with its digest taken from the ETag. */
  datatype RemoteFile = RemoteFile(key: string, digest: string)

  /** One file-selection group handed over by the task runner:
      an optional base directory `cwd` and the keys `src` relative to it. */
  datatype FileGroup = FileGroup(cwd: Option<string>, src: seq<string>)

  /** Why a run ends without success. */
  datatype Error =
    | ServiceError(message: string)   // a failed listObjects or putObject call
    | TruncatedWithoutMarker          // a truncated, empty page with no NextMarker
    | MalformedETag(eTag: string)     // an ETag that is not a plain quoted string

  /** The host and library services the task calls, as fixed functions:
      `grunt.file.isFile`, `path.join`, `fs.readFileSync`, the hex MD5 of
      `crypto` and `mime.lookup`. */
  datatype Host = Host(
    isFile: string -> bool,
    join: (string, string) -> string,
    readFile: string -> seq<byte>,
    md5Hex: seq<byte> -> string,
    mimeLookup: string -> string)

  /** JavaScript truthiness of a possibly undefined string: `undefined` and
      the empty string are both falsy. */
  predicate Truthy(s: Option<string>) {
    s.Some? && s.value != ""
  }

  /** The digest a local file gets: the hex MD5 of the bytes at its path. */
  function ContentDigest(host: Host, path: string): string {
    host.md5Hex(host.readFile(path))
  }
}
