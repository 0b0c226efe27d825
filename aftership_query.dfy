/**
 * The status table and the trackings query of lambda/aftership.js: a spoken
 * keyword becomes a courier-slug, status-tag or free-keyword filter.
 */
module AftershipQuery {
  import opened Wrappers
  import opened Strings
  import opened Tracking

  /** `TRACKING_STATUS`, in declaration order. */
  const TrackingStatus: StatusTable := [
    ("InfoReceived", "waiting to be received by the carrier"),
    ("InTransit", "in transit"),
    ("AvailableForPickup", "available for pickup"),
    ("OutForDelivery", "out for delivery"),
    ("AttemptFail", "failed to be delivered by the carrier"),
    ("Delivered", "delivered"),
    ("Exception", "undelivered, returned to sender, or in custom hold"),
    ("Pending", "pending tracking information being available"),
    ("ExpectedDelivery", "on the way"),
    ("ExpectedPresent", "should arrive"),
    ("ExpectedPast", "should have arrived")
  ]

  /** The courier names object: slug keys with display names, in key order. */
  type Couriers = seq<(string, string)>

  /** The one filter parameter the query spreads in, if any. */
  datatype Filter = NoFilter | SlugFilter(slug: string) | TagFilter(tag: string) | KeywordFilter(keyword: string)

  /** `this.query`: the keyword as `string` and the filter of `parameters`. */
  datatype Query = Query(text: Option<string>, filter: Filter)

  /** The leading `\s` characters removed. */
  function DropSpaces(s: string): (r: string)
    ensures |r| <= |s| && r == s[|s| - |r|..]
    ensures r == [] || !IsSpace(r[0])
    ensures forall i :: 0 <= i < |s| - |r| ==> IsSpace(s[i])
  {
    if |s| > 0 && IsSpace(s[0]) then DropSpaces(s[1..]) else s
  }

  /** The length of the `from` or `for` that `/^(?:from|for)\s+/i` matches at the start, or 0. */
  function PrepositionLength(s: string): nat {
    if |s| > 4 && ToLower(s[..4]) == "from" && IsSpace(s[4]) then 4
    else if |s| > 3 && ToLower(s[..3]) == "for" && IsSpace(s[3]) then 3
    else 0
  }

  /** `keyword.replace(/^(?:from|for)\s+/i, '')`. */
  function StripPreposition(s: string): (r: string)
    ensures |r| <= |s| && r == s[|s| - |r|..]
    ensures r == s <==> PrepositionLength(s) == 0
    ensures PrepositionLength(s) > 0 ==>
      (r == [] || !IsSpace(r[0]))
      && |s| - |r| > PrepositionLength(s)
      && forall i :: PrepositionLength(s) <= i < |s| - |r| ==> IsSpace(s[i])
  {
    var n := PrepositionLength(s);
    if n == 0 then s
    else
      var r := DropSpaces(s[n..]);
      assert forall i :: n <= i < |s| - |r| ==> s[i] == s[n..][i - n];
      r
  }

  /** The slugs, in key order, of the couriers whose name equals the keyword case-insensitively. */
  function MatchingSlugs(couriers: Couriers, keyword: string): (r: seq<string>)
    ensures |r| <= |couriers|
    ensures forall x :: x in r <==> exists c :: c in couriers && c.0 == x && ToLower(c.1) == ToLower(keyword)
  {
    if |couriers| == 0 then []
    else
      var rest := MatchingSlugs(couriers[1..], keyword);
      assert forall c :: c in couriers <==> c == couriers[0] || c in couriers[1..];
      (if ToLower(couriers[0].1) == ToLower(keyword) then [couriers[0].0] else []) + rest
  }

  /** Matching distributes over the courier list, so the slugs come out in key order. */
  lemma {:induction false} MatchingSlugsAppend(a: Couriers, b: Couriers, keyword: string)
    ensures MatchingSlugs(a + b, keyword) == MatchingSlugs(a, keyword) + MatchingSlugs(b, keyword)
    decreases |a|
  {
    if |a| > 0 {
      assert (a + b)[1..] == a[1..] + b;
      assert (a + b)[0] == a[0];
      MatchingSlugsAppend(a[1..], b, keyword);
    } else {
      assert a + b == b;
    }
  }

  /** The first status key, in declaration order, whose phrase starts with `word`. */
  function FindTag(table: StatusTable, word: string): (r: Option<string>)
    ensures r.None? <==> forall i :: 0 <= i < |table| ==> !StartsWith(table[i].1, word)
    ensures r.Some? ==> exists i :: (0 <= i < |table| && table[i].0 == r.value && StartsWith(table[i].1, word)
                                     && forall j :: 0 <= j < i ==> !StartsWith(table[j].1, word))
  {
    if |table| == 0 then None
    else if StartsWith(table[0].1, word) then Some(table[0].0)
    else
      var r := FindTag(table[1..], word);
      assert r.Some? ==> exists i :: (1 <= i < |table| && table[i].0 == r.value && StartsWith(table[i].1, word)
                                      && forall j :: 0 <= j < i ==> !StartsWith(table[j].1, word)) by {
        if r.Some? {
          var i :| 0 <= i < |table[1..]| && table[1..][i].0 == r.value && StartsWith(table[1..][i].1, word)
            && forall j :: 0 <= j < i ==> !StartsWith(table[1..][j].1, word);
          assert forall j :: 1 <= j < i + 1 ==> table[j] == table[1..][j - 1];
        }
      }
      assert r.None? ==> forall i :: 0 <= i < |table| ==> !StartsWith(table[i].1, word) by {
        if r.None? {
          forall i | 0 <= i < |table| ensures !StartsWith(table[i].1, word) {
            if i > 0 {
              assert table[i] == table[1..][i - 1];
            }
          }
        }
      }
      r
  }

  /** `getTrackingsQuery(keyword, couriers)`; a keyword that is not a string is `None`. */
  function BuildQuery(keyword: Option<string>, couriers: Couriers): Query {
    var k := if keyword.Some? then Some(StripPreposition(keyword.value)) else None;
    if !Truthy(k) then Query(k, NoFilter)
    else
      var slug := Join(",", MatchingSlugs(couriers, k.value));
      if slug != "" then Query(k, SlugFilter(slug))
      else match FindTag(TrackingStatus, ToLower(k.value))
        case Some(tag) => Query(k, TagFilter(tag))
        case None => Query(k, KeywordFilter(k.value))
  }

  /** Every status key is a non-empty string. */
  lemma StatusKeysNonEmpty()
    ensures forall i :: 0 <= i < |TrackingStatus| ==> TrackingStatus[i].0 != ""
  {
  }

  /**
   * The filter precedence: no filter for a falsy keyword; then the joined
   * matching slugs when not empty; then the first status whose phrase starts
   * with the lower-cased keyword; then the keyword itself.
   */
  lemma QueryPrecedence(keyword: Option<string>, couriers: Couriers)
    ensures var q := BuildQuery(keyword, couriers);
      var k := if keyword.Some? then Some(StripPreposition(keyword.value)) else None;
      q.text == k
      && (q.filter.NoFilter? <==> !Truthy(k))
      && (q.filter.SlugFilter? <==> Truthy(k) && MatchingSlugs(couriers, k.value) != [] && Join(",", MatchingSlugs(couriers, k.value)) != "")
      && (q.filter.TagFilter? <==>
            Truthy(k) && Join(",", MatchingSlugs(couriers, k.value)) == "" && FindTag(TrackingStatus, ToLower(k.value)).Some?)
      && (q.filter.KeywordFilter? <==>
            Truthy(k) && Join(",", MatchingSlugs(couriers, k.value)) == "" && FindTag(TrackingStatus, ToLower(k.value)).None?)
  {
    var k := if keyword.Some? then Some(StripPreposition(keyword.value)) else None;
    if Truthy(k) {
      var slugs := MatchingSlugs(couriers, k.value);
      if slugs == [] {
        assert Join(",", slugs) == "";
      }
    }
  }

  /** A tag filter names a status whose phrase starts with the lower-cased keyword, and no earlier status's does. */
  lemma TagFilterIsFirstMatch(keyword: Option<string>, couriers: Couriers)
    requires BuildQuery(keyword, couriers).filter.TagFilter?
    ensures var q := BuildQuery(keyword, couriers);
      exists i :: (0 <= i < |TrackingStatus| && TrackingStatus[i].0 == q.filter.tag
                   && StartsWith(TrackingStatus[i].1, ToLower(q.text.value))
                   && forall j :: 0 <= j < i ==> !StartsWith(TrackingStatus[j].1, ToLower(q.text.value)))
  {
  }

  /** A keyword or slug filter keeps the stripped keyword, which is not empty. */
  lemma FilteredQueryHasText(keyword: Option<string>, couriers: Couriers)
    requires !BuildQuery(keyword, couriers).filter.NoFilter?
    ensures BuildQuery(keyword, couriers).text.Some? && BuildQuery(keyword, couriers).text.value != ""
    ensures BuildQuery(keyword, couriers).filter.KeywordFilter? ==>
      BuildQuery(keyword, couriers).filter.keyword == BuildQuery(keyword, couriers).text.value
  {
  }
}
