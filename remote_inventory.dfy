/** The remote inventory (`getRemoteFiles`): every object of the bucket,
    fetched page by page, with its digest read from the quoted ETag. */
module RemoteInventory {
  import opened Wrappers
  import opened Files

  /** One entry of a listObjects response: `Key` and `ETag`. */
  datatype S3Object = S3Object(key: string, eTag: string)

  /** A listObjects response: `Contents`, `IsTruncated` and `NextMarker`. */
  datatype Page = Page(contents: seq<S3Object>, isTruncated: bool, nextMarker: Option<string>)

  /** The listObjects parameters: `Bucket`, and `Marker` after the first page. */
  datatype ListRequest = ListRequest(bucket: Option<string>, marker: Option<string>)

  /** The storage backend's listObjects call, as a fixed function. */
  type Backend = ListRequest -> Result<Page, Error>

  /** `data.NextMarker || contents[contents.length - 1].Key`: an empty
      `NextMarker` is falsy, and the last key of an empty page does not exist
      (reading it throws, which rejects the listing). */
  function NextMarker(p: Page): Result<string, Error> {
    if Truthy(p.nextMarker) then Ok(p.nextMarker.value)
    else if p.contents != [] then Ok(p.contents[|p.contents| - 1].key)
    else Err(TruncatedWithoutMarker)
  }

  /** The `Marker` sent with the request after the first `i` pages. */
  function MarkerAfter(pages: seq<Page>, i: nat): Option<string>
    requires i <= |pages|
  {
    if i == 0 then None
    else match NextMarker(pages[i - 1])
      case Ok(m) => Some(m)
      case Err(_) => None
  }

  /** `pages` are the responses to the first |pages| requests of the
      listing: the first without a marker, each later one with the marker of
      the page before it, which was truncated. */
  ghost predicate Fetched(backend: Backend, bucket: Option<string>, pages: seq<Page>) {
    forall i :: 0 <= i < |pages| ==> FetchedAt(backend, bucket, pages, i)
  }

  /** The `i`-th request went out after a truncated page with a marker (or
      first) and was answered with `pages[i]`. */
  ghost predicate FetchedAt(backend: Backend, bucket: Option<string>, pages: seq<Page>, i: nat)
    requires i < |pages|
  {
    (i > 0 ==> pages[i - 1].isTruncated && NextMarker(pages[i - 1]).Ok?) &&
    backend(ListRequest(bucket, MarkerAfter(pages, i))) == Ok(pages[i])
  }

  /** The listing is over: the last page fetched is not truncated. */
  ghost predicate Complete(backend: Backend, bucket: Option<string>, pages: seq<Page>) {
    Fetched(backend, bucket, pages) && pages != [] && !pages[|pages| - 1].isTruncated
  }

  /** The contents of the pages, in request order. */
  function Objects(pages: seq<Page>): seq<S3Object> {
    if pages == [] then [] else Objects(pages[..|pages| - 1]) + pages[|pages| - 1].contents
  }

  /** Listing page after page gives the same objects as listing the pages
      in two runs: the result does not depend on where pages are cut. */
  lemma {:induction false} ObjectsAppend(p: seq<Page>, q: seq<Page>)
    ensures Objects(p + q) == Objects(p) + Objects(q)
    decreases |q|
  {
    if q == [] {
      assert p + q == p;
    } else {
      var init, last := q[..|q| - 1], q[|q| - 1];
      assert q == init + [last];
      assert p + q == (p + init) + [last];
      ObjectsAppend(p, init);
      ObjectsSnoc(p + init, last);
      ObjectsSnoc(init, last);
    }
  }

  /** Within `n` requests from `marker` the backend fails, returns an
      untruncated page, or returns a page the next marker cannot be taken
      from: the listing does not go on for ever. */
  ghost predicate ListingEnds(backend: Backend, bucket: Option<string>, marker: Option<string>, n: nat)
    decreases n
  {
    n > 0 &&
    match backend(ListRequest(bucket, marker))
    case Err(_) => true
    case Ok(p) =>
      !p.isTruncated || NextMarker(p).Err? ||
      ListingEnds(backend, bucket, Some(NextMarker(p).value), n - 1)
  }

  /** Continuation: every request after the first is sent after a truncated
      page, with that page's `NextMarker` when it is non-empty and otherwise
      with the key of its last object, which then exists. */
  lemma ContinuationMarker(backend: Backend, bucket: Option<string>, pages: seq<Page>, i: nat)
    requires Fetched(backend, bucket, pages) && 0 < i < |pages|
    ensures pages[i - 1].isTruncated
    ensures Truthy(pages[i - 1].nextMarker) ==>
      backend(ListRequest(bucket, pages[i - 1].nextMarker)) == Ok(pages[i])
    ensures !Truthy(pages[i - 1].nextMarker) ==>
      var contents := pages[i - 1].contents;
      contents != [] && backend(ListRequest(bucket, Some(contents[|contents| - 1].key))) == Ok(pages[i])
  {
    assert FetchedAt(backend, bucket, pages, i);
  }

  /** The marker for a request depends only on the pages before it. */
  lemma MarkerAfterPrefix(pages: seq<Page>, more: seq<Page>, i: nat)
    requires i <= |pages|
    ensures MarkerAfter(pages + more, i) == MarkerAfter(pages, i)
  {
  }

  /** Answering the next request extends a fetch by one page. */
  lemma {:induction false} FetchedExtend(backend: Backend, bucket: Option<string>, pages: seq<Page>, page: Page)
    requires Fetched(backend, bucket, pages)
    requires pages != [] ==> pages[|pages| - 1].isTruncated && NextMarker(pages[|pages| - 1]).Ok?
    requires backend(ListRequest(bucket, MarkerAfter(pages, |pages|))) == Ok(page)
    ensures Fetched(backend, bucket, pages + [page])
  {
    var next := pages + [page];
    forall i | 0 <= i < |next| ensures FetchedAt(backend, bucket, next, i) {
      MarkerAfterPrefix(pages, [page], i);
      if i < |pages| {
        assert FetchedAt(backend, bucket, pages, i);
        assert next[i] == pages[i];
        if i > 0 { assert next[i - 1] == pages[i - 1]; }
      } else {
        assert next[i] == page;
        if i > 0 { assert next[i - 1] == pages[i - 1]; }
      }
    }
  }

  /** Two fetches from the same backend agree on every page both made:
      the listing is determined by the backend. */
  lemma {:induction false} FetchedAgree(backend: Backend, bucket: Option<string>, p: seq<Page>, q: seq<Page>, i: nat)
    requires Fetched(backend, bucket, p) && Fetched(backend, bucket, q)
    requires i < |p| && i < |q|
    ensures forall j :: 0 <= j <= i ==> p[j] == q[j]
    ensures i + 1 < |p| ==> p[i].isTruncated
    ensures i + 1 < |q| ==> q[i].isTruncated
  {
    assert FetchedAt(backend, bucket, p, i) && FetchedAt(backend, bucket, q, i);
    if i + 1 < |p| { assert FetchedAt(backend, bucket, p, i + 1); }
    if i + 1 < |q| { assert FetchedAt(backend, bucket, q, i + 1); }
    if i > 0 {
      FetchedAgree(backend, bucket, p, q, i - 1);
      assert MarkerAfter(p, i) == MarkerAfter(q, i) by {
        assert p[i - 1] == q[i - 1];
      }
    }
  }

  /** Fetching stops exactly at the first untruncated page: a backend has a
      single complete listing. */
  lemma CompleteListingUnique(backend: Backend, bucket: Option<string>, p: seq<Page>, q: seq<Page>)
    requires Complete(backend, bucket, p) && Complete(backend, bucket, q)
    ensures p == q
  {
    if |p| < |q| {
      FetchedAgree(backend, bucket, p, q, |p| - 1);
      assert false;
    } else if |q| < |p| {
      FetchedAgree(backend, bucket, p, q, |q| - 1);
      assert false;
    } else {
      FetchedAgree(backend, bucket, p, q, |p| - 1);
    }
  }

  /** Appending a page appends its contents to the objects. */
  lemma ObjectsSnoc(pages: seq<Page>, page: Page)
    ensures Objects(pages + [page]) == Objects(pages) + page.contents
  {
    assert (pages + [page])[..|pages|] == pages;
  }

  /** The marker after a new page is taken from that page. */
  lemma MarkerAfterSnoc(pages: seq<Page>, page: Page)
    requires NextMarker(page).Ok?
    ensures MarkerAfter(pages + [page], |pages| + 1) == Some(NextMarker(page).value)
  {
    assert (pages + [page])[|pages|] == page;
  }

  /** A listing that ends within `fuel` requests and is continued after a
      truncated page ends within one request fewer from there. */
  lemma ListingEndsStep(backend: Backend, bucket: Option<string>, marker: Option<string>, page: Page, fuel: nat)
    requires ListingEnds(backend, bucket, marker, fuel)
    requires backend(ListRequest(bucket, marker)) == Ok(page)
    requires page.isTruncated && NextMarker(page).Ok?
    ensures fuel > 1 && ListingEnds(backend, bucket, Some(NextMarker(page).value), fuel - 1)
  {
  }

  /** The error a listing that stopped after `pages` rejects with: the
      TypeError of a truncated last page with no marker to continue from,
      else the backend's own rejection of the next request. */
  ghost predicate ListingError(backend: Backend, bucket: Option<string>, pages: seq<Page>, e: Error) {
    if pages != [] && NextMarker(pages[|pages| - 1]).Err? then e == TruncatedWithoutMarker
    else backend(ListRequest(bucket, MarkerAfter(pages, |pages|))) == Err(e)
  }

  /** `listAllObjects`: request pages, appending each page's contents to the
      result, until a page is not truncated; a failed request, or a truncated
      page with no marker to continue from, rejects the whole listing. */
  method ListAllObjects(backend: Backend, bucket: Option<string>, ghost bound: nat)
    returns (result: Result<seq<S3Object>, Error>, pages: seq<Page>)
    requires ListingEnds(backend, bucket, None, bound)
    ensures Fetched(backend, bucket, pages)
    ensures result.Ok? <==> Complete(backend, bucket, pages)
    ensures result.Ok? ==> result.value == Objects(pages)
    ensures result.Err? ==>
      && (pages != [] ==> pages[|pages| - 1].isTruncated)
      && ListingError(backend, bucket, pages, result.error)
  {
    pages := [];
    var objects: seq<S3Object> := [];
    var marker: Option<string> := None;
    ghost var fuel := bound;
    while true
      invariant Fetched(backend, bucket, pages)
      invariant marker == MarkerAfter(pages, |pages|)
      invariant pages != [] ==> pages[|pages| - 1].isTruncated && NextMarker(pages[|pages| - 1]).Ok?
      invariant objects == Objects(pages)
      invariant ListingEnds(backend, bucket, marker, fuel)
      decreases fuel
    {
      var response := backend(ListRequest(bucket, marker));
      if response.Err? {
        return Err(response.error), pages;
      }
      var page := response.value;
      FetchedExtend(backend, bucket, pages, page);
      ObjectsSnoc(pages, page);
      pages := pages + [page];
      objects := objects + page.contents;
      if !page.isTruncated {
        return Ok(objects), pages;
      }
      var next := NextMarker(page);
      if next.Err? {
        return Err(next.error), pages;
      }
      ListingEndsStep(backend, bucket, marker, page, fuel);
      MarkerAfterSnoc(pages[..|pages| - 1], page);
      assert pages[..|pages| - 1] + [page] == pages;
      marker := Some(next.value);
      fuel := fuel - 1;
    }
  }

  /** JSON.parse restricted to string literals without escapes: a character
      that may stand unescaped inside one. */
  predicate PlainChar(c: char) {
    c != '"' && c != '\\' && c >= ' '
  }

  /** `JSON.parse(r.ETag)` for an ETag that is a quoted literal: the text
      between the quotes. */
  function ParseETag(eTag: string): Result<string, Error> {
    if |eTag| >= 2 && eTag[0] == '"' && eTag[|eTag| - 1] == '"' &&
       forall i :: 1 <= i < |eTag| - 1 ==> PlainChar(eTag[i])
    then Ok(eTag[1..|eTag| - 1])
    else Err(MalformedETag(eTag))
  }

  /** How the backend reports a digest: inside double quotes. */
  function Quote(digest: string): string {
    "\"" + digest + "\""
  }

  /** Stripping the quotes recovers the digest of a plain quoted ETag... */
  lemma ParseQuote(digest: string)
    requires forall i :: 0 <= i < |digest| ==> PlainChar(digest[i])
    ensures ParseETag(Quote(digest)) == Ok(digest)
  {
  }

  /** ... and every ETag that parses is the quoted form of what it parses to. */
  lemma QuoteParse(eTag: string)
    requires ParseETag(eTag).Ok?
    ensures Quote(ParseETag(eTag).value) == eTag
    ensures forall i :: 0 <= i < |ParseETag(eTag).value| ==> PlainChar(ParseETag(eTag).value[i])
  {
  }

  /** Object `i` is the first whose ETag does not parse. */
  predicate FirstBadETag(objects: seq<S3Object>, i: nat)
    requires i < |objects|
  {
    ParseETag(objects[i].eTag).Err? && forall j :: 0 <= j < i ==> ParseETag(objects[j].eTag).Ok?
  }

  /** `result.map(r => ({ key: r.Key, digest: JSON.parse(r.ETag) }))`: one
      remote file per listed object, in order; the first ETag that does not
      parse rejects the listing. */
  function ToRemoteFiles(objects: seq<S3Object>): (r: Result<seq<RemoteFile>, Error>)
    ensures r.Ok? <==> forall i :: 0 <= i < |objects| ==> ParseETag(objects[i].eTag).Ok?
    ensures r.Ok? ==>
      && |r.value| == |objects|
      && forall i :: 0 <= i < |objects| ==>
           r.value[i] == RemoteFile(objects[i].key, ParseETag(objects[i].eTag).value)
    ensures r.Err? ==>
      exists i :: 0 <= i < |objects| && FirstBadETag(objects, i) && ParseETag(objects[i].eTag) == Err(r.error)
  {
    if objects == [] then Ok([])
    else
      var head := ParseETag(objects[0].eTag);
      if head.Err? then Err(head.error)
      else
        var rest := ToRemoteFiles(objects[1..]);
        if rest.Err? then
          assert exists i :: 0 <= i < |objects| && FirstBadETag(objects, i) && ParseETag(objects[i].eTag) == Err(rest.error) by {
            var i :| 0 <= i < |objects[1..]| && FirstBadETag(objects[1..], i) && ParseETag(objects[1..][i].eTag) == Err(rest.error);
            assert objects[i + 1] == objects[1..][i];
            forall j | 0 <= j < i + 1 ensures ParseETag(objects[j].eTag).Ok? {
              if j > 0 { assert objects[j] == objects[1..][j - 1]; }
            }
            assert FirstBadETag(objects, i + 1);
          }
          Err(rest.error)
        else
          assert forall i :: 1 <= i < |objects| ==> objects[i] == objects[1..][i - 1];
          Ok([RemoteFile(objects[0].key, head.value)] + rest.value)
  }

  /** `getRemoteFiles`: list the bucket `Bucket: bucketName`, then map each
      object to its key and digest. */
  method GetRemoteFiles(backend: Backend, bucket: Option<string>, ghost bound: nat)
    returns (result: Result<seq<RemoteFile>, Error>, pages: seq<Page>)
    requires ListingEnds(backend, bucket, None, bound)
    ensures Fetched(backend, bucket, pages)
    ensures result.Ok? <==> Complete(backend, bucket, pages) && ToRemoteFiles(Objects(pages)).Ok?
    ensures Complete(backend, bucket, pages) ==> result == ToRemoteFiles(Objects(pages))
    ensures !Complete(backend, bucket, pages) ==> result.Err? && ListingError(backend, bucket, pages, result.error)
  {
    var listing;
    listing, pages := ListAllObjects(backend, bucket, bound);
    if listing.Err? {
      return Err(listing.error), pages;
    }
    result := ToRemoteFiles(listing.value);
  }
}
