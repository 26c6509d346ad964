/**
 * The result filters of src/parser/filters.rs: substring matching of a url
 * against a pattern, and de-duplication of endpoints by url with the first
 * occurrence kept.
 */
module Filters {
  import opened Strings
  import opened Seqs
  import opened Types

  /** `EndpointFilter::matches`: plain substring containment (Strings.ContainsIff gives the positional reading). */
  function Matches(url: string, pattern: string): bool {
    Contains(url, pattern)
  }

  /** The empty pattern matches every url, and every url matches itself and each of its slices. */
  lemma MatchesSlices(url: string, i: nat, j: nat)
    requires i <= j <= |url|
    ensures Matches(url, "") && Matches(url, url) && Matches(url, url[i..j])
  {
    assert OccursAt(url, url[i..j], i);
    ContainsIff(url, url[i..j]);
    assert StartsWith(url, "");
    assert StartsWith(url, url);
  }

  /** A pattern longer than the url never matches. */
  lemma MatchesLonger(url: string, pattern: string)
    requires |pattern| > |url|
    ensures !Matches(url, pattern)
  {
    ContainsIff(url, pattern);
  }

  /** The key `deduplicate` remembers. */
  function Url(e: Endpoint): string {
    e.url
  }

  /**
   * `EndpointFilter::deduplicate`: `retain` keeps an endpoint exactly when
   * inserting its url into `seen` adds something new.
   */
  method Deduplicate(endpoints: seq<Endpoint>) returns (kept: seq<Endpoint>)
    ensures kept == DedupBy(endpoints, Url)
  {
    var seen: set<string> := {};
    kept := [];
    var i := 0;
    while i < |endpoints|
      invariant 0 <= i <= |endpoints|
      invariant seen == Keys(endpoints[..i], Url)
      invariant kept == DedupBy(endpoints[..i], Url)
    {
      DedupSnoc(endpoints, Url, i);
      KeysAppend(endpoints[..i], endpoints[i], Url);
      assert endpoints[..i + 1] == endpoints[..i] + [endpoints[i]];
      var inserted := endpoints[i].url !in seen;
      seen := seen + {endpoints[i].url};
      if inserted {
        kept := kept + [endpoints[i]];
      }
      i := i + 1;
    }
    assert endpoints[..i] == endpoints;
  }

  /**
   * What `deduplicate` leaves: no url twice, the endpoints in their original
   * order, every url of the input still present, each one carried by its first
   * endpoint, and nothing removed exactly when the urls were already distinct.
   */
  lemma DeduplicateSpec(endpoints: seq<Endpoint>)
    ensures var r := DedupBy(endpoints, Url);
      (forall i, j :: 0 <= i < j < |r| ==> r[i].url != r[j].url)
      && IsSubsequence(r, endpoints)
      && (forall u :: u in Keys(r, Url) <==> u in Keys(endpoints, Url))
      && (forall i :: 0 <= i < |r| ==> r[i] == FirstWithKey(endpoints, Url, r[i].url))
      && (|r| == |endpoints| <==> forall i, j :: 0 <= i < j < |endpoints| ==> endpoints[i].url != endpoints[j].url)
  {
    var r := DedupBy(endpoints, Url);
    DedupDistinct(endpoints, Url);
    forall i, j | 0 <= i < j < |r| ensures r[i].url != r[j].url {
      assert Url(r[i]) != Url(r[j]);
    }
    DedupSubsequence(endpoints, Url);
    DedupKeys(endpoints, Url);
    DedupKeepsFirst(endpoints, Url);
    DedupLengthIff(endpoints, Url);
    if |r| == |endpoints| {
      forall i, j | 0 <= i < j < |endpoints| ensures endpoints[i].url != endpoints[j].url {
        assert Url(endpoints[i]) != Url(endpoints[j]);
      }
    } else {
      assert !DistinctKeys(endpoints, Url);
      var i, j :| 0 <= i < j < |endpoints| && Url(endpoints[i]) == Url(endpoints[j]);
      assert endpoints[i].url == endpoints[j].url;
    }
  }

  /** De-duplicating twice is de-duplicating once. */
  lemma DeduplicateIdempotent(endpoints: seq<Endpoint>)
    ensures DedupBy(DedupBy(endpoints, Url), Url) == DedupBy(endpoints, Url)
  {
    DedupIdempotent(endpoints, Url);
  }
}
