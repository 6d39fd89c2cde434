/** The command line's HTTP access: which redirects it follows, and how much of a body it takes. */
module CliHttp {
  import opened Common

  const MAX_REDIRECTS: nat := 3

  datatype Url = Url(scheme: string, host: Option<string>, username: string, password: Option<string>, rest: string)

  predicate SameParty(a: Url, b: Url)
  {
    a.host == b.host && a.username == b.username && a.password == b.password
  }

  /** Whether a redirect to `next` is followed after the URLs in `previous`. */
  predicate RedirectAllowed(next: Url, previous: seq<Url>)
  {
    && |previous| <= MAX_REDIRECTS && previous != []
    && SameParty(next, previous[0])
    && (next.scheme == "https" || (next.scheme == "http" && !exists url | url in previous :: url.scheme == "https"))
  }

  /** A sequence of URLs that was followed: each one but the first was allowed after those before it. */
  predicate IsFollowed(urls: seq<Url>)
  {
    urls != [] && forall k | 1 <= k < |urls| :: RedirectAllowed(urls[k], urls[..k])
  }

  /** The same over the whole chain: its length, its party, its schemes. */
  predicate IsSafeChain(urls: seq<Url>)
  {
    && 1 <= |urls| <= MAX_REDIRECTS + 1
    && (forall k | 0 <= k < |urls| :: SameParty(urls[k], urls[0]))
    && (forall k | 1 <= k < |urls| :: urls[k].scheme == "http" || urls[k].scheme == "https")
    && (forall i, k | 0 <= i < k < |urls| :: urls[i].scheme == "https" ==> urls[k].scheme != "http")
  }

  /** The chains that are followed are exactly the safe ones. */
  lemma FollowedIsSafe(urls: seq<Url>)
    ensures IsFollowed(urls) <==> IsSafeChain(urls)
  {
    assert "http"[..] != "https";
    if IsFollowed(urls) {
      FollowedShort(urls);
      forall i, k | 0 <= i < k < |urls|
        ensures urls[i].scheme == "https" ==> urls[k].scheme != "http"
      {
        assert RedirectAllowed(urls[k], urls[..k]);
        assert urls[i] in urls[..k];
      }
      forall k | 0 <= k < |urls|
        ensures SameParty(urls[k], urls[0])
      {
        assert k > 0 ==> RedirectAllowed(urls[k], urls[..k]);
      }
    }
    if IsSafeChain(urls) {
      forall k | 1 <= k < |urls|
        ensures RedirectAllowed(urls[k], urls[..k])
      {
        assert forall url | url in urls[..k] :: exists i | 0 <= i < k :: urls[i] == url;
      }
    }
  }

  lemma FollowedShort(urls: seq<Url>)
    requires IsFollowed(urls)
    ensures |urls| <= MAX_REDIRECTS + 1
  {
    assert |urls| <= MAX_REDIRECTS + 1 || RedirectAllowed(urls[MAX_REDIRECTS + 1], urls[..MAX_REDIRECTS + 1]);
  }

  // ---- the body ----

  const U64_MAX: nat := 0xFFFF_FFFF_FFFF_FFFF

  /** One read of the body: some bytes, or a failure. */
  datatype Chunk = Data(bytes: seq<byte>) | Broken

  datatype Body = Whole(bytes: seq<byte>) | TooLarge | Unreadable

  function DataOf(chunks: seq<Chunk>): seq<byte>
  {
    if chunks == [] then [] else (if chunks[0].Data? then chunks[0].bytes else []) + DataOf(chunks[1..])
  }

  /** The body is readable up to the first chunk that breaks or exceeds the limit. */
  predicate FitsUpTo(chunks: seq<Chunk>, k: nat, limit: nat)
    requires k <= |chunks|
  {
    (forall i | 0 <= i < k :: chunks[i].Data?) && |DataOf(chunks[..k])| <= limit
  }

  lemma {:induction false} DataSnoc(chunks: seq<Chunk>, c: Chunk)
    ensures DataOf(chunks + [c]) == DataOf(chunks) + (if c.Data? then c.bytes else [])
  {
    if chunks == [] {
      assert chunks + [c] == [c] && [c][1..] == [];
    } else {
      assert (chunks + [c])[1..] == chunks[1..] + [c];
      DataSnoc(chunks[1..], c);
    }
  }

  lemma PrefixFits(chunks: seq<Chunk>, k: nat, limit: nat)
    requires k < |chunks|
    ensures |DataOf(chunks[..k])| <= |DataOf(chunks[..k + 1])|
    ensures chunks[k].Data? ==> DataOf(chunks[..k + 1]) == DataOf(chunks[..k]) + chunks[k].bytes
  {
    assert chunks[..k + 1] == chunks[..k] + [chunks[k]];
    DataSnoc(chunks[..k], chunks[k]);
  }

  /**
   * A body that is whole has all its bytes, within the limit; one that is not
   * stopped at the first chunk that broke or went over it.
   */
  method Get(limit: Option<nat>, contentLength: Option<nat>, chunks: seq<Chunk>) returns (r: Body)
    requires limit.Some? ==> limit.value <= U64_MAX
    ensures var most := if limit.Some? then limit.value else U64_MAX;
      var announced := if contentLength.Some? then contentLength.value else 0;
      if announced > most then r == TooLarge
      else
        && (r.Whole? <==> FitsUpTo(chunks, |chunks|, most))
        && (r.Whole? ==> r.bytes == DataOf(chunks))
        && (r.TooLarge? ==> exists k | 0 <= k < |chunks| ::
              FitsUpTo(chunks, k, most) && chunks[k].Data? && !FitsUpTo(chunks, k + 1, most))
        && (r.Unreadable? ==> exists k | 0 <= k < |chunks| :: FitsUpTo(chunks, k, most) && chunks[k].Broken?)
  {
    var left := if limit.Some? then limit.value else U64_MAX;
    ghost var most := left;
    var announced := if contentLength.Some? then contentLength.value else 0;
    if announced > left {
      return TooLarge;
    }
    var bytes: seq<byte> := [];
    var i := 0;
    while i < |chunks|
      invariant 0 <= i <= |chunks| && 0 <= left
      invariant bytes == DataOf(chunks[..i]) && left + |bytes| == most && FitsUpTo(chunks, i, most)
    {
      PrefixFits(chunks, i, most);
      if chunks[i].Broken? {
        StopsAt(chunks, i, most);
        return Unreadable;
      }
      if |chunks[i].bytes| > left {
        StopsAt(chunks, i, most);
        return TooLarge;
      }
      left := left - |chunks[i].bytes|;
      bytes := bytes + chunks[i].bytes;
      i := i + 1;
    }
    assert chunks[..i] == chunks;
    return Whole(bytes);
  }

  lemma StopsAt(chunks: seq<Chunk>, k: nat, most: nat)
    requires k < |chunks| && !FitsUpTo(chunks, k + 1, most)
    ensures !FitsUpTo(chunks, |chunks|, most)
    decreases |chunks| - k
  {
    if k + 1 < |chunks| {
      PrefixFits(chunks, k + 1, most);
      StopsAt(chunks, k + 1, most);
    }
  }
}
