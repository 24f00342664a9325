/** The reconciler (`getUploadFiles`): which local files must be uploaded. */
module Reconciler {
  import opened Files
  import opened Sequences

  /** The test inside `some`: the remote object has the local file's key and
      its digest. */
  predicate SameObject(local: LocalFile, remote: RemoteFile) {
    local.key == remote.key && local.digest == remote.digest
  }

  /** The local file is already in the bucket with the same contents. */
  ghost predicate InBucket(local: LocalFile, remotes: seq<RemoteFile>) {
    exists r :: r in remotes && SameObject(local, r)
  }

  /** `remoteFiles.some(...)`: scans the remote list front to back. */
  function AnyRemoteMatches(local: LocalFile, remotes: seq<RemoteFile>): (b: bool)
    ensures b <==> InBucket(local, remotes)
  {
    if remotes == [] then false
    else if SameObject(local, remotes[0]) then true
    else
      var rest := AnyRemoteMatches(local, remotes[1..]);
      assert forall r :: r in remotes && r != remotes[0] ==> r in remotes[1..];
      rest
  }

  /** The callback given to `filter`: the local file is not yet in the bucket. */
  function NotInBucket(remotes: seq<RemoteFile>): LocalFile -> bool {
    (local: LocalFile) => !AnyRemoteMatches(local, remotes)
  }

  /** `localFiles.filter(local => !remoteFiles.some(...))`: the local files
      that no remote object matches on both key and digest, in local order. */
  function UploadFiles(locals: seq<LocalFile>, remotes: seq<RemoteFile>): (u: seq<LocalFile>)
    ensures forall f :: f in u <==> f in locals && !InBucket(f, remotes)
    ensures forall f :: multiset(u)[f] == if InBucket(f, remotes) then 0 else multiset(locals)[f]
    ensures IsSubsequence(u, locals)
    ensures |u| <= |locals|
  {
    var keep := NotInBucket(remotes);
    FilterIsSubsequence(keep, locals);
    assert forall f :: f in Filter(keep, locals) <==> f in locals && !InBucket(f, remotes) by {
      forall f ensures f in Filter(keep, locals) <==> f in locals && keep(f) {
        FilterMembers(keep, locals, f);
      }
    }
    assert forall f :: multiset(Filter(keep, locals))[f] == if InBucket(f, remotes) then 0 else multiset(locals)[f] by {
      forall f ensures multiset(Filter(keep, locals))[f] == if keep(f) then multiset(locals)[f] else 0 {
        FilterCounts(keep, locals, f);
      }
    }
    Filter(keep, locals)
  }

  /** Idempotence: when every local file is already in the bucket with its
      digest, nothing is uploaded. */
  lemma AllInBucketUploadsNothing(locals: seq<LocalFile>, remotes: seq<RemoteFile>)
    requires forall l :: l in locals ==> InBucket(l, remotes)
    ensures UploadFiles(locals, remotes) == []
  {
  }

  /** A local file whose key is in the bucket only with other digests
      (stale content) is uploaded again. */
  lemma StaleFileIsUploaded(locals: seq<LocalFile>, remotes: seq<RemoteFile>, l: LocalFile)
    requires l in locals
    requires forall r :: r in remotes && r.key == l.key ==> r.digest != l.digest
    ensures l in UploadFiles(locals, remotes)
  {
  }

  /** Conversely, a local file is skipped only when a remote object has its
      key and its digest. */
  lemma SkippedFileIsInBucket(locals: seq<LocalFile>, remotes: seq<RemoteFile>, l: LocalFile)
    requires l in locals && l !in UploadFiles(locals, remotes)
    ensures exists r :: r in remotes && r.key == l.key && r.digest == l.digest
  {
  }

  /** A new file is uploaded and an unchanged one is not. */
  lemma NewFileScenario()
    ensures UploadFiles([LocalFile("a.txt", "a.txt", "d1"), LocalFile("b.txt", "b.txt", "d2")],
                        [RemoteFile("a.txt", "d1")])
         == [LocalFile("b.txt", "b.txt", "d2")]
  {
  }

  /** A file whose key is in the bucket with a different digest is uploaded. */
  lemma ChangedFileScenario()
    ensures UploadFiles([LocalFile("a.txt", "a.txt", "d1")], [RemoteFile("a.txt", "d9")])
         == [LocalFile("a.txt", "a.txt", "d1")]
  {
  }
}
