/** The uploader (`uploadLocalFiles`): one putObject per file, strictly one
    after another in list order, the first failure ending the run. */
module Uploader {
  import opened Wrappers
  import opened Files

  /** The putObject parameters: `Bucket`, `Key`, `Body` and `ContentType`. */
  datatype PutRequest = PutRequest(bucket: Option<string>, key: string, body: seq<byte>, contentType: string)

  /** The storage backend's putObject call, as a fixed function. */
  type PutObject = PutRequest -> Outcome<Error>

  /** The parameters `upload(file)` builds: the file's key, the bytes at its
      path, and the content type looked up from its path. */
  function RequestFor(host: Host, bucket: Option<string>, file: LocalFile): PutRequest {
    PutRequest(bucket, file.key, host.readFile(file.path), host.mimeLookup(file.path))
  }

  /** The requests for a whole list of files, in order. */
  function Requests(host: Host, bucket: Option<string>, files: seq<LocalFile>): (rs: seq<PutRequest>)
    ensures |rs| == |files|
  {
    if files == [] then [] else [RequestFor(host, bucket, files[0])] + Requests(host, bucket, files[1..])
  }

  /** The i-th request is the one for the i-th file. */
  lemma {:induction false} RequestsAt(host: Host, bucket: Option<string>, files: seq<LocalFile>, i: nat)
    requires i < |files|
    ensures Requests(host, bucket, files)[i] == RequestFor(host, bucket, files[i])
  {
    if i > 0 {
      RequestsAt(host, bucket, files[1..], i - 1);
    }
  }

  /** The index of the first request that putObject fails, or the number
      of requests if it fails none. */
  function FirstFailure(put: PutObject, requests: seq<PutRequest>): (k: nat)
    ensures k <= |requests|
    ensures k < |requests| ==> put(requests[k]).Fail?
  {
    if requests == [] then 0
    else if put(requests[0]).Fail? then 0
    else 1 + FirstFailure(put, requests[1..])
  }

  /** Every put before the first failure succeeds. */
  lemma {:induction false} PassesBeforeFirstFailure(put: PutObject, requests: seq<PutRequest>, j: nat)
    requires j < FirstFailure(put, requests)
    ensures put(requests[j]).Pass?
  {
    if j > 0 {
      PassesBeforeFirstFailure(put, requests[1..], j - 1);
    }
  }

  /** How the put chain over `requests` settles: when the k-th put is the
      first to fail, puts 0 to k were attempted and the chain fails with the
      k-th error; when none fails, all were attempted and the chain succeeds. */
  ghost predicate SettlesAs(put: PutObject, requests: seq<PutRequest>, attempted: seq<PutRequest>, result: Outcome<Error>) {
    var k := FirstFailure(put, requests);
    if k < |requests| then attempted == requests[..k + 1] && result == put(requests[k])
    else attempted == requests && result == Pass
  }

  /** A put before the first failure that fails is the first failure, and
      the chain settles with its error after attempting it. */
  lemma SettlesOnFailure(put: PutObject, requests: seq<PutRequest>, i: nat)
    requires i < |requests| && i <= FirstFailure(put, requests) && put(requests[i]).Fail?
    ensures SettlesAs(put, requests, requests[..i + 1], put(requests[i]))
  {
    if i < FirstFailure(put, requests) {
      PassesBeforeFirstFailure(put, requests, i);
    }
  }

  /** A put before the first failure that succeeds leaves the first failure
      further on. */
  lemma ContinuesOnSuccess(put: PutObject, requests: seq<PutRequest>, i: nat)
    requires i < |requests| && i <= FirstFailure(put, requests) && put(requests[i]).Pass?
    ensures i + 1 <= FirstFailure(put, requests)
  {
  }

  /** When no put fails, the chain settles with success after all of them. */
  lemma SettlesOnCompletion(put: PutObject, requests: seq<PutRequest>)
    requires |requests| <= FirstFailure(put, requests)
    ensures SettlesAs(put, requests, requests, Pass)
  {
  }

  /** `files.reduce((promise, file) => promise.then(() => upload(file)), Promise.resolve())`:
      `attempted` are the putObject calls made, in order, and `result` is how
      the chain settles. When the k-th upload fails, uploads 0 to k-1 have
      been put, no later one is attempted and the run fails with that error;
      when none fails, every file has been put and the run succeeds. */
  method UploadLocalFiles(host: Host, bucket: Option<string>, put: PutObject, files: seq<LocalFile>)
    returns (attempted: seq<PutRequest>, result: Outcome<Error>)
    ensures SettlesAs(put, Requests(host, bucket, files), attempted, result)
  {
    ghost var requests := Requests(host, bucket, files);
    attempted := [];
    var i := 0;
    while i < |files|
      invariant 0 <= i <= |files|
      invariant attempted == requests[..i]
      invariant i <= FirstFailure(put, requests)
    {
      var request := RequestFor(host, bucket, files[i]);
      RequestsAt(host, bucket, files, i);
      assert requests[..i + 1] == attempted + [request];
      var outcome := put(request);
      if outcome.Fail? {
        SettlesOnFailure(put, requests, i);
        return attempted + [request], outcome;
      }
      ContinuesOnSuccess(put, requests, i);
      attempted := attempted + [request];
      i := i + 1;
    }
    assert attempted == requests;
    SettlesOnCompletion(put, requests);
    result := Pass;
  }

  /** Three files, and putObject fails the second: the first is put, the
      run fails with the second's error and the third is never attempted. */
  lemma SecondOfThreeFails(put: PutObject, requests: seq<PutRequest>)
    requires |requests| == 3
    requires put(requests[0]).Pass? && put(requests[1]).Fail?
    ensures FirstFailure(put, requests) == 1
    ensures requests[..FirstFailure(put, requests) + 1] == requests[..2]
  {
    assert requests[1..][0] == requests[1];
  }
}
