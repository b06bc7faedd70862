/** `extractVideoId` (netlify/functions/info.js, lines 4-8): the first match of
    the regular expression `[?&]v=([^&]+)` in a URL, and its capture group. */
module VideoId {
  import opened Wrappers

  /** The regular expression matches at position i: `?v=` or `&v=` there,
      followed by at least one character that is not `&`. */
  predicate QueryVAt(url: string, i: int) {
    0 <= i && i + 3 < |url| &&
    (url[i] == '?' || url[i] == '&') && url[i + 1] == 'v' && url[i + 2] == '=' &&
    url[i + 3] != '&'
  }

  /** The leftmost match: no position before i matches. */
  predicate LeftmostQueryV(url: string, i: int) {
    QueryVAt(url, i) && forall j :: 0 <= j < i ==> !QueryVAt(url, j)
  }

  /** id is what the capture group `([^&]+)` takes when the leftmost match starts
      at i: all of the non-`&` characters after `v=`, up to the next `&` or the end. */
  predicate IsVideoIdAt(url: string, i: int, id: string) {
    LeftmostQueryV(url, i) &&
    i + 3 + |id| <= |url| && url[i + 3..i + 3 + |id|] == id &&
    '&' !in id &&
    (i + 3 + |id| == |url| || url[i + 3 + |id|] == '&')
  }

  /** The first position at or after `from` where the expression matches. */
  function FirstQueryV(url: string, from: nat): (r: Option<nat>)
    ensures r.Some? ==> from <= r.value && QueryVAt(url, r.value)
    ensures r.Some? ==> forall j :: from <= j < r.value ==> !QueryVAt(url, j)
    ensures r.None? ==> forall j :: from <= j ==> !QueryVAt(url, j)
    decreases |url| - from
  {
    if from + 3 >= |url| then None
    else if QueryVAt(url, from) then Some(from)
    else FirstQueryV(url, from + 1)
  }

  /** Where the greedy run `[^&]+` that starts at k ends. */
  function RunEnd(url: string, k: nat): (e: nat)
    requires k <= |url|
    ensures k <= e <= |url|
    ensures forall j :: k <= j < e ==> url[j] != '&'
    ensures e == |url| || url[e] == '&'
    decreases |url| - k
  {
    if k == |url| || url[k] == '&' then k else RunEnd(url, k + 1)
  }

  /** `extractVideoId(url)`: the capture group of the leftmost match, or `null`. */
  function ExtractVideoId(url: string): (r: Option<string>)
    ensures r.Some? <==> exists i :: QueryVAt(url, i)
    ensures r.Some? ==> |r.value| > 0 && exists i :: IsVideoIdAt(url, i, r.value)
  {
    match FirstQueryV(url, 0)
    case None => None
    case Some(i) =>
      var id := url[i + 3..RunEnd(url, i + 3)];
      assert IsVideoIdAt(url, i, id);
      Some(id)
  }

  /** A leftmost match is the first match FirstQueryV finds. */
  lemma LeftmostIsFirst(url: string, i: int)
    requires LeftmostQueryV(url, i)
    ensures FirstQueryV(url, 0) == Some(i)
  {
  }

  /** A run of non-`&` characters closed by `&` or the end is the greedy run. */
  lemma {:induction false} RunEndUnique(url: string, k: nat, e: nat)
    requires k <= e <= |url|
    requires forall j :: k <= j < e ==> url[j] != '&'
    requires e == |url| || url[e] == '&'
    ensures RunEnd(url, k) == e
    decreases e - k
  {
    if k < e {
      RunEndUnique(url, k + 1, e);
    }
  }

  /** Completeness: whatever id the regular expression captures is what
      ExtractVideoId returns, so the contract of ExtractVideoId determines it. */
  lemma ExtractVideoIdComplete(url: string, i: int, id: string)
    requires IsVideoIdAt(url, i, id)
    ensures ExtractVideoId(url) == Some(id)
  {
    LeftmostIsFirst(url, i);
    forall j | i + 3 <= j < i + 3 + |id| ensures url[j] != '&' {
      assert url[j] == id[j - (i + 3)];
    }
    RunEndUnique(url, i + 3, i + 3 + |id|);
  }

  /** A watch URL `base?v=ID` followed by nothing or by further `&` parameters
      yields ID, when the base has no query characters of its own. */
  lemma WatchUrlGivesId(base: string, id: string, rest: string)
    requires '?' !in base && '&' !in base
    requires |id| > 0 && '&' !in id
    requires rest == [] || rest[0] == '&'
    ensures ExtractVideoId(base + "?v=" + id + rest) == Some(id)
  {
    var url := base + "?v=" + id + rest;
    var i := |base|;
    forall j | 0 <= j < i ensures !QueryVAt(url, j) {
      assert url[j] == base[j];
    }
    assert url[i + 3..i + 3 + |id|] == id;
    assert IsVideoIdAt(url, i, id);
    ExtractVideoIdComplete(url, i, id);
  }

  /** A URL without `?` or `&` (a `youtu.be/ID` short link, say) yields no id. */
  lemma ShortLinkHasNoId(url: string)
    requires '?' !in url && '&' !in url
    ensures ExtractVideoId(url) == None
  {
  }

  /** `v=` must start a parameter: a `v=` ending another parameter's name does not count. */
  lemma SuffixVIgnored()
    ensures ExtractVideoId("/watch?dev=1") == None
  {
  }

  /** An empty `v=` is skipped: the next `&v=` is the leftmost match. */
  lemma EmptyValueSkipped()
    ensures ExtractVideoId("/watch?v=&v=abc") == Some("abc")
  {
    var url := "/watch?v=&v=abc";
    forall j | 0 <= j < 9 ensures !QueryVAt(url, j) {}
    assert url[12..15] == "abc";
    ExtractVideoIdComplete(url, 9, "abc");
  }
}
