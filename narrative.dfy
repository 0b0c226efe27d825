/**
 * The spoken list both variants assemble: the per-status summary dictionary,
 * its Oxford-comma sentence, the per-package detail sentences and the `<p>`
 * paragraphs with the optional footnote block.
 */
module Narrative {
  import opened Wrappers
  import opened Strings
  import opened Tracking

  /** The `summary` object: status keys with package counts, in insertion order. */
  type Summary = seq<(string, nat)>

  function Keys(s: Summary): (r: seq<string>)
    ensures |r| == |s| && forall i :: 0 <= i < |s| ==> r[i] == s[i].0
  {
    seq(|s|, i requires 0 <= i < |s| => s[i].0)
  }

  predicate DistinctKeys(s: Summary) {
    forall i, j :: 0 <= i < j < |s| ==> s[i].0 != s[j].0
  }

  /** The position of `key` in the object, or -1. */
  function KeyIndex(s: Summary, key: string): (r: int)
    ensures -1 <= r < |s|
    ensures r >= 0 ==> s[r].0 == key
    ensures r == -1 <==> forall i :: 0 <= i < |s| ==> s[i].0 != key
  {
    if |s| == 0 then -1
    else if s[0].0 == key then 0
    else var t := KeyIndex(s[1..], key); if t == -1 then -1 else t + 1
  }

  /** `summary[key] || 0`. */
  function Get(s: Summary, key: string): nat {
    var i := KeyIndex(s, key);
    if i >= 0 then s[i].1 else 0
  }

  /** `summary[key] = (summary[key] || 0) + n`: an existing key keeps its place, a new one goes last. */
  function AddCount(s: Summary, key: string, n: nat): (r: Summary)
    ensures KeyIndex(s, key) >= 0 ==> Keys(r) == Keys(s)
    ensures KeyIndex(s, key) < 0 ==> Keys(r) == Keys(s) + [key]
    ensures DistinctKeys(s) ==> DistinctKeys(r)
    ensures DistinctKeys(s) ==> forall k :: Get(r, k) == Get(s, k) + (if k == key then n else 0)
  {
    var i := KeyIndex(s, key);
    var r := if i >= 0 then s[i := (key, s[i].1 + n)] else s + [(key, n)];
    assert DistinctKeys(s) ==> forall k :: Get(r, k) == Get(s, k) + (if k == key then n else 0) by {
      if DistinctKeys(s) {
        forall k
          ensures Get(r, k) == Get(s, k) + (if k == key then n else 0)
        {
          var ir, i0 := KeyIndex(r, k), KeyIndex(s, k);
          if i0 >= 0 {
            assert r[i0].0 == k;
            assert ir >= 0 && r[ir].0 == k;
            assert ir < |s| ==> s[ir].0 == k;
          } else if k == key {
            assert r[|s|].0 == key;
          }
        }
      }
    }
    r
  }

  /** The summary after adding each `(status, count)` pair in order. */
  function Tally(pairs: seq<(string, nat)>): Summary
    decreases |pairs|
  {
    if |pairs| == 0 then [] else
    var last := pairs[|pairs| - 1];
    AddCount(Tally(pairs[..|pairs| - 1]), last.0, last.1)
  }

  /** The total of the counts paired with `key`. */
  function SumFor(pairs: seq<(string, nat)>, key: string): nat
    decreases |pairs|
  {
    if |pairs| == 0 then 0
    else SumFor(pairs[..|pairs| - 1], key) + (if pairs[|pairs| - 1].0 == key then pairs[|pairs| - 1].1 else 0)
  }

  /** The first position of `key` among the pairs. */
  function FirstIndex(pairs: seq<(string, nat)>, key: string): (r: nat)
    ensures r <= |pairs|
    ensures r < |pairs| ==> pairs[r].0 == key
    ensures forall j :: 0 <= j < r ==> pairs[j].0 != key
  {
    if |pairs| == 0 then 0
    else if pairs[0].0 == key then 0
    else FirstIndex(pairs[1..], key) + 1
  }

  /** The tally's keys are distinct. */
  lemma {:induction false} TallyDistinct(pairs: seq<(string, nat)>)
    ensures DistinctKeys(Tally(pairs))
    decreases |pairs|
  {
    if |pairs| > 0 {
      TallyDistinct(pairs[..|pairs| - 1]);
    }
  }

  /** Each status holds the sum of the counts paired with it (0 for a status that never occurs). */
  lemma {:induction false} TallySums(pairs: seq<(string, nat)>)
    ensures forall k :: Get(Tally(pairs), k) == SumFor(pairs, k)
    decreases |pairs|
  {
    if |pairs| > 0 {
      TallySums(pairs[..|pairs| - 1]);
      TallyDistinct(pairs[..|pairs| - 1]);
    }
  }

  /** The tally has a key exactly for each status that occurs. */
  lemma {:induction false} TallyKeys(pairs: seq<(string, nat)>)
    ensures forall k :: k in Keys(Tally(pairs)) <==> exists j :: 0 <= j < |pairs| && pairs[j].0 == k
    decreases |pairs|
  {
    if |pairs| > 0 {
      var init := pairs[..|pairs| - 1];
      TallyKeys(init);
      forall k
        ensures k in Keys(Tally(pairs)) <==> exists j :: 0 <= j < |pairs| && pairs[j].0 == k
      {
        if exists j :: 0 <= j < |init| && init[j].0 == k {
          var j :| 0 <= j < |init| && init[j].0 == k;
          assert pairs[j].0 == k;
        }
        if exists j :: 0 <= j < |pairs| && pairs[j].0 == k {
          var j :| 0 <= j < |pairs| && pairs[j].0 == k;
          if j < |init| {
            assert init[j].0 == k;
          }
        }
      }
    }
  }

  /** The tally's keys come in the order the statuses first occur. */
  lemma {:induction false} TallyFirstSeenOrder(pairs: seq<(string, nat)>)
    ensures forall i, j :: 0 <= i < j < |Tally(pairs)| ==>
      FirstIndex(pairs, Tally(pairs)[i].0) < FirstIndex(pairs, Tally(pairs)[j].0) < |pairs|
    decreases |pairs|
  {
    if |pairs| > 0 {
      TallyFirstSeenOrder(pairs[..|pairs| - 1]);
      forall i, j | 0 <= i < j < |Tally(pairs)|
        ensures FirstIndex(pairs, Tally(pairs)[i].0) < FirstIndex(pairs, Tally(pairs)[j].0) < |pairs|
      {
        TallyOrderStep(pairs, i, j);
      }
    }
  }

  /** The tally's keys come in the order the statuses first occur among `pairs`. */
  ghost predicate FirstSeenOrder(pairs: seq<(string, nat)>) {
    forall i, j :: 0 <= i < j < |Tally(pairs)| ==>
      FirstIndex(pairs, Tally(pairs)[i].0) < FirstIndex(pairs, Tally(pairs)[j].0) < |pairs|
  }

  /** One more pair keeps the first-seen order of every two keys of the tally. */
  lemma TallyOrderStep(pairs: seq<(string, nat)>, i: nat, j: nat)
    requires |pairs| > 0
    requires FirstSeenOrder(pairs[..|pairs| - 1])
    requires i < j < |Tally(pairs)|
    ensures FirstIndex(pairs, Tally(pairs)[i].0) < FirstIndex(pairs, Tally(pairs)[j].0) < |pairs|
  {
    var init, last := pairs[..|pairs| - 1], pairs[|pairs| - 1];
    var t0, t := Tally(init), Tally(pairs);
    assert t == AddCount(t0, last.0, last.1);
    assert Keys(t)[i] == t[i].0 && Keys(t)[j] == t[j].0;
    assert t[i].0 == Keys(t0)[i];
    KeyFirstIndex(init, t[i].0);
    FirstIndexPrefix(pairs, t[i].0);
    FirstIndexPrefix(pairs, t[j].0);
    if j < |t0| {
      assert t[j].0 == Keys(t0)[j];
      KeyFirstIndex(init, t[j].0);
    } else {
      assert t[j].0 == last.0 && KeyIndex(t0, last.0) < 0;
      assert last.0 !in Keys(t0);
      KeyFirstIndex(init, last.0);
    }
  }

  /** A status is a key of the tally exactly when it occurs among the pairs. */
  lemma KeyFirstIndex(pairs: seq<(string, nat)>, k: string)
    ensures k in Keys(Tally(pairs)) <==> FirstIndex(pairs, k) < |pairs|
  {
    TallyKeys(pairs);
    if k in Keys(Tally(pairs)) {
      var j :| 0 <= j < |pairs| && pairs[j].0 == k;
      assert FirstIndex(pairs, k) <= j;
    }
  }

  lemma {:induction false} FirstIndexPrefix(pairs: seq<(string, nat)>, k: string)
    requires |pairs| > 0
    ensures var init := pairs[..|pairs| - 1];
      FirstIndex(pairs, k) == if FirstIndex(init, k) < |init| then FirstIndex(init, k)
        else if pairs[|pairs| - 1].0 == k then |init| else |pairs|
  {
    var init := pairs[..|pairs| - 1];
    var f, g := FirstIndex(pairs, k), FirstIndex(init, k);
    assert f < |init| ==> pairs[f] == init[f];
    if g < |init| {
      assert pairs[g] == init[g];
    } else {
      assert forall j :: 0 <= j < |init| ==> pairs[j].0 != k by {
        forall j | 0 <= j < |init| ensures pairs[j].0 != k {
          assert pairs[j] == init[j];
        }
      }
    }
  }

  /** The `(key, count)` pair of every element, in order. */
  function Pairs<T>(xs: seq<T>, key: T -> string, count: T -> nat): (r: seq<(string, nat)>)
    ensures |r| == |xs| && forall i :: 0 <= i < |xs| ==> r[i] == (key(xs[i]), count(xs[i]))
  {
    seq(|xs|, i requires 0 <= i < |xs| => (key(xs[i]), count(xs[i])))
  }

  /**
   * A `forEach` that adds each element's count to the summary under its key
   * and then replaces the element by `update` of it.
   */
  method CountAndUpdate<T>(a: array<T>, key: T -> string, count: T -> nat, update: T -> T) returns (summary: Summary)
    modifies a
    ensures summary == Tally(Pairs(old(a[..]), key, count))
    ensures forall i :: 0 <= i < a.Length ==> a[i] == update(old(a[i]))
  {
    summary := [];
    ghost var before := a[..];
    var index := 0;
    while index < a.Length
      invariant 0 <= index <= a.Length
      invariant summary == Tally(Pairs(before[..index], key, count))
      invariant forall i :: 0 <= i < index ==> a[i] == update(before[i])
      invariant forall i :: index <= i < a.Length ==> a[i] == before[i]
    {
      var x := a[index];
      assert Pairs(before[..index + 1], key, count)[..index] == Pairs(before[..index], key, count);
      summary := AddCount(summary, key(x), count(x));
      a[index] := update(x);
      index := index + 1;
    }
    assert before[..index] == before;
  }

  // ---------------------------------------------------------------------------
  // The summary sentence

  /** One summary item: "{count} package(s) {phrase}". */
  function Item(table: StatusTable, key: string, n: nat): string {
    NatToString(n) + (if n > 1 then " packages " else " package ") + Phrase(table, key)
  }

  function Items(table: StatusTable, s: Summary): (r: seq<string>)
    ensures |r| == |s|
  {
    seq(|s|, i requires 0 <= i < |s| => Item(table, s[i].0, s[i].1))
  }

  /** The connective the `reduce` callback puts before item `idx` of `n`. */
  function Sep(idx: nat, n: nat): string {
    if idx > 0 then (if idx != n - 1 then ", " else ", and ") else ""
  }

  /** The `reduce` over the summary keys after its first `k` steps. */
  function ReducePrefix(table: StatusTable, s: Summary, k: nat): string
    requires k <= |s|
  {
    if k == 0 then ""
    else ReducePrefix(table, s, k - 1) + Sep(k - 1, |s|) + Item(table, s[k - 1].0, s[k - 1].1)
  }

  function SummaryBody(table: StatusTable, s: Summary): string {
    ReducePrefix(table, s, |s|)
  }

  lemma {:induction false} ReducePrefixJoin(table: StatusTable, s: Summary, k: nat)
    requires 1 <= k < |s|
    ensures ReducePrefix(table, s, k) == Join(", ", Items(table, s)[..k])
  {
    var items := Items(table, s);
    if k == 1 {
      assert items[..1] == [items[0]];
    } else {
      ReducePrefixJoin(table, s, k - 1);
      assert items[k - 1] == Item(table, s[k - 1].0, s[k - 1].1);
      assert Sep(k - 1, |s|) == ", ";
      JoinPrefix(", ", items, k - 1);
    }
  }

  /**
   * The summary items read as an English list: nothing before the first,
   * ", " between, and ", and " before the last.
   */
  lemma SummaryOxford(table: StatusTable, s: Summary)
    ensures var items, body := Items(table, s), SummaryBody(table, s);
      (|s| == 0 ==> body == "")
      && (|s| == 1 ==> body == items[0])
      && (|s| >= 2 ==> body == Join(", ", items[..|s| - 1]) + ", and " + items[|s| - 1])
  {
    if |s| == 1 {
      assert ReducePrefix(table, s, 1) == "" + "" + Items(table, s)[0];
    } else if |s| >= 2 {
      ReducePrefixJoin(table, s, |s| - 1);
    }
  }

  /** The body is empty exactly when there is no status to report. */
  lemma SummaryBodyEmptyIff(table: StatusTable, s: Summary)
    ensures SummaryBody(table, s) == "" <==> |s| == 0
  {
    if |s| > 0 {
      var n := |s|;
      assert |Item(table, s[n - 1].0, s[n - 1].1)| > 0;
    }
  }

  /** `'Currently, you have '.concat(body || fallback, from, ':' or '.')`. */
  function SummarySentence(table: StatusTable, s: Summary, fallback: string, from: string): string {
    var body := SummaryBody(table, s);
    "Currently, you have " + (if body != "" then body else fallback) + from + (if |s| > 0 then ":" else ".")
  }

  /** Without statuses the sentence is the fallback and ends with "."; with them it ends with ":". */
  lemma SummarySentenceShape(table: StatusTable, s: Summary, fallback: string, from: string)
    ensures |s| == 0 ==> SummarySentence(table, s, fallback, from) == "Currently, you have " + fallback + from + "."
    ensures |s| > 0 ==> SummarySentence(table, s, fallback, from) == "Currently, you have " + SummaryBody(table, s) + from + ":"
  {
    SummaryBodyEmptyIff(table, s);
  }

  // ---------------------------------------------------------------------------
  // Details and paragraphs

  /** `words.filter((word) => word !== '')`. */
  function NonEmptyWords(words: seq<string>): (r: seq<string>)
    ensures forall i :: 0 <= i < |r| ==> r[i] != ""
    ensures forall w :: w in r <==> w in words && w != ""
    ensures |r| <= |words|
  {
    if |words| == 0 then []
    else (if words[0] != "" then [words[0]] else []) + NonEmptyWords(words[1..])
  }

  /** A single word is kept exactly when it is not empty. */
  lemma NonEmptyWordsOne(w: string)
    ensures NonEmptyWords([w]) == (if w != "" then [w] else [])
  {
    assert [w][1..] == [];
  }

  /** Filtering distributes over concatenation, so order and repetitions are kept. */
  lemma {:induction false} NonEmptyWordsAppend(a: seq<string>, b: seq<string>)
    ensures NonEmptyWords(a + b) == NonEmptyWords(a) + NonEmptyWords(b)
    decreases |a|
  {
    if |a| > 0 {
      assert (a + b)[1..] == a[1..] + b;
      NonEmptyWordsAppend(a[1..], b);
    } else {
      assert a + b == b;
    }
  }

  /** A detail sentence: the message words joined by spaces, then ".". */
  function Detail(message: seq<string>): string {
    Join(" ", message) + "."
  }

  const FootnoteBreak := "\n<break time=\"1s\"/>\n<p>"

  /** The footnote block: only for a non-empty footnote array. */
  function Footnotes(footnotes: Option<seq<string>>): string {
    if footnotes.Some? && |footnotes.value| > 0 then FootnoteBreak + Join("\n", footnotes.value) + "</p>" else ""
  }

  /** The speech output: summary and details, the lone detail, or the lone summary; then the footnotes. */
  function Compose(summary: string, details: seq<string>, footnotes: Option<seq<string>>): string {
    "<p>"
    + (if |details| > 1 then summary + "</p>\n<p>" + Join("\n", details)
       else if |details| == 1 then details[0]
       else summary)
    + "</p>" + Footnotes(footnotes)
  }

  /** Without details the output is the summary paragraph. */
  lemma ComposeNoDetails(summary: string, footnotes: Option<seq<string>>)
    ensures Compose(summary, [], footnotes) == "<p>" + summary + "</p>" + Footnotes(footnotes)
  {
  }

  /** With one detail the output is that detail alone: the summary is not spoken. */
  lemma ComposeOneDetail(summary: string, detail: string, footnotes: Option<seq<string>>)
    ensures Compose(summary, [detail], footnotes) == "<p>" + detail + "</p>" + Footnotes(footnotes)
  {
  }

  /** With several details the summary paragraph is followed by a paragraph of the details, one per line. */
  lemma ComposeManyDetails(summary: string, details: seq<string>, footnotes: Option<seq<string>>)
    requires |details| >= 2
    ensures Compose(summary, details, footnotes)
      == "<p>" + summary + "</p>\n<p>" + Join("\n", details) + "</p>" + Footnotes(footnotes)
  {
  }

  /** A missing or empty footnote array adds nothing. */
  lemma NoFootnotes(footnotes: Option<seq<string>>)
    requires footnotes.None? || footnotes.value == []
    ensures Footnotes(footnotes) == ""
  {
  }
}
