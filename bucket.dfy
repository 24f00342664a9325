/** The bucket's objects as the reconciler sees them (a digest per key),
    and idempotence: a second run against the bucket the first run left
    behind uploads nothing. */
module Bucket {
  import opened Files
  import opened Reconciler

  /** The digest of each object in the bucket, by key. */
  type Digests = map<string, string>

  /** The bucket after the files have been put in order, each object then
      carrying its file's digest; a later put of a key overwrites. */
  function AfterPuts(b: Digests, files: seq<LocalFile>): Digests
    decreases |files|
  {
    if files == [] then b else AfterPuts(b[files[0].key := files[0].digest], files[1..])
  }

  /** `remotes` is a listing of `b`: every entry agrees with the bucket and
      every object is listed. */
  ghost predicate Lists(remotes: seq<RemoteFile>, b: Digests) {
    && (forall r :: r in remotes ==> r.key in b && b[r.key] == r.digest)
    && (forall k :: k in b ==> exists r :: r in remotes && r.key == k)
  }

  /** No key is selected twice with different contents. */
  ghost predicate KeysAgree(files: seq<LocalFile>) {
    forall f, g :: f in files && g in files && f.key == g.key ==> f.digest == g.digest
  }

  /** A key put with one digest throughout ends up with that digest. */
  lemma {:induction false} AfterPutsStores(b: Digests, files: seq<LocalFile>, key: string, digest: string)
    requires forall g :: g in files && g.key == key ==> g.digest == digest
    requires (key in b && b[key] == digest) || exists g :: g in files && g.key == key
    ensures key in AfterPuts(b, files) && AfterPuts(b, files)[key] == digest
    decreases |files|
  {
    if files != [] {
      var f := files[0];
      var b' := b[f.key := f.digest];
      assert forall g :: g in files[1..] ==> g in files;
      if f.key != key && exists g :: g in files && g.key == key {
        var g :| g in files && g.key == key;
        assert g in files[1..];
      }
      AfterPutsStores(b', files[1..], key, digest);
    }
  }

  /** A key no file is put under keeps its digest. */
  lemma {:induction false} AfterPutsKeeps(b: Digests, files: seq<LocalFile>, key: string)
    requires key in b && forall g :: g in files ==> g.key != key
    ensures key in AfterPuts(b, files) && AfterPuts(b, files)[key] == b[key]
    decreases |files|
  {
    if files != [] {
      assert forall g :: g in files[1..] ==> g in files;
      AfterPutsKeeps(b[files[0].key := files[0].digest], files[1..], key);
    }
  }

  /** Idempotence: list the bucket, upload what differs, list it again, and
      nothing differs any more, provided no key is selected twice with
      different contents. */
  lemma SecondRunUploadsNothing(locals: seq<LocalFile>, remotes: seq<RemoteFile>, b: Digests, remotes': seq<RemoteFile>)
    requires Lists(remotes, b)
    requires KeysAgree(locals)
    requires Lists(remotes', AfterPuts(b, UploadFiles(locals, remotes)))
    ensures UploadFiles(locals, remotes') == []
  {
    var uploads := UploadFiles(locals, remotes);
    var b' := AfterPuts(b, uploads);
    forall l | l in locals ensures InBucket(l, remotes') {
      if l in uploads {
        AfterPutsStores(b, uploads, l.key, l.digest);
      } else {
        var r :| r in remotes && SameObject(l, r);
        if exists g :: g in uploads && g.key == l.key {
          AfterPutsStores(b, uploads, l.key, l.digest);
        } else {
          AfterPutsKeeps(b, uploads, l.key);
        }
      }
      assert l.key in b' && b'[l.key] == l.digest;
      var r' :| r' in remotes' && r'.key == l.key;
      assert SameObject(l, r');
    }
    AllInBucketUploadsNothing(locals, remotes');
  }

  /** Without KeysAgree a run is not idempotent: one key selected from two
      directories with different contents is uploaded twice, the second put
      wins, and the next run uploads the first file again. */
  lemma ConflictingKeysUploadAgain()
    ensures var locals := [LocalFile("k", "a/k", "d1"), LocalFile("k", "b/k", "d2")];
      && UploadFiles(locals, []) == locals
      && AfterPuts(map[], locals) == map["k" := "d2"]
      && UploadFiles(locals, [RemoteFile("k", "d2")]) == [locals[0]]
  {
    var f1, f2 := LocalFile("k", "a/k", "d1"), LocalFile("k", "b/k", "d2");
    var locals := [f1, f2];
    var remotes := [RemoteFile("k", "d2")];
    assert SameObject(f2, remotes[0]) && !SameObject(f1, remotes[0]);
    assert AnyRemoteMatches(f2, remotes) && !AnyRemoteMatches(f1, remotes);
    assert locals[1..] == [f2];
    assert Sequences.Filter(NotInBucket(remotes), [f2]) == [];
    assert Sequences.Filter(NotInBucket([]), [f2]) == [f2];
    assert map[]["k" := "d1"]["k" := "d2"] == map["k" := "d2"];
  }
}
