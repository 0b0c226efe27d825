/**
 * The status table and `formatTrackingsQuery` of lambda/custom/aftership.js:
 * the older query builder, which PascalCases the keyword and takes it as a
 * tag only when the result is a status key.
 */
module LegacyQuery {
  import opened Wrappers
  import opened Strings
  import opened Tracking
  import opened AftershipQuery

  /** `trackingStatus`, in declaration order; it has no AvailableForPickup. */
  const LegacyStatus: StatusTable := [
    ("InfoReceived", "waiting to be received by the carrier"),
    ("InTransit", "in transit"),
    ("OutForDelivery", "out for delivery"),
    ("AttemptFail", "failed to be delivered by the carrier"),
    ("Delivered", "delivered"),
    ("Exception", "undelivered, returned to sender, or in custom hold"),
    ("Pending", "pending tracking information being available"),
    ("ExpectedDelivery", "on the way"),
    ("ExpectedPresent", "should arrive"),
    ("ExpectedPast", "should have arrived")
  ]

  /** The one filter `Object.assign` adds to the options; the keyword filter may hold `null`. */
  datatype LegacyOptions = SlugOption(slug: string) | TagOption(tag: string) | KeywordOption(keyword: Option<string>)

  /** The query object: `string` and the filter of `options`. */
  datatype LegacyQuery = LegacyQuery(text: Option<string>, options: LegacyOptions)

  /**
   * `s.replace(/\s(.)/g, m => m.toUpperCase())`: a white-space character and
   * the character after it (unless that ends a line) are upper-cased
   * together, and the scan resumes after the pair.
   */
  function UpcaseAfterSpace(s: string): (r: string)
    ensures |r| == |s|
    decreases |s|
  {
    if |s| == 0 then []
    else if |s| >= 2 && IsSpace(s[0]) && !IsLineTerminator(s[1]) then [s[0], UpperChar(s[1])] + UpcaseAfterSpace(s[2..])
    else [s[0]] + UpcaseAfterSpace(s[1..])
  }

  /** `s.replace(/\s/g, '')`. */
  function DropAllSpaces(s: string): (r: string)
    ensures |r| <= |s|
    ensures forall i :: 0 <= i < |r| ==> !IsSpace(r[i])
  {
    if |s| == 0 then []
    else (if IsSpace(s[0]) then [] else [s[0]]) + DropAllSpaces(s[1..])
  }

  /** `s.replace(/^(.)/, m => m.toUpperCase())`. */
  function UpcaseFirst(s: string): (r: string)
    ensures |r| == |s| && (|s| > 0 ==> r[1..] == s[1..])
    ensures |s| > 0 && !IsLineTerminator(s[0]) ==> r[0] == UpperChar(s[0])
  {
    if |s| > 0 && !IsLineTerminator(s[0]) then [UpperChar(s[0])] + s[1..] else s
  }

  /** The keyword converted to the CamelCase of a status key. */
  function PascalCase(s: string): string {
    UpcaseFirst(DropAllSpaces(UpcaseAfterSpace(ToLower(s))))
  }

  /** `formatTrackingsQuery(keyword, couriers)`. */
  function FormatTrackingsQuery(keyword: Option<string>, couriers: Couriers): LegacyQuery {
    var k := if Truthy(keyword) then Some(StripPreposition(keyword.value)) else None;
    var slugs := if Truthy(k) then MatchingSlugs(couriers, k.value) else [];
    var tag := if Truthy(k) then PascalCase(k.value) else "";
    LegacyQuery(k,
      if |slugs| > 0 then SlugOption(Join(",", slugs))
      else if HasKey(LegacyStatus, tag) then TagOption(tag)
      else KeywordOption(k))
  }

  /** Every status key is a non-empty string. */
  lemma LegacyKeysNonEmpty()
    ensures !HasKey(LegacyStatus, "")
  {
  }

  /** The PascalCased keyword holds no white space. */
  lemma PascalCaseHasNoSpaces(s: string)
    ensures forall i :: 0 <= i < |PascalCase(s)| ==> !IsSpace(PascalCase(s)[i])
  {
    var d := DropAllSpaces(UpcaseAfterSpace(ToLower(s)));
    if |d| > 0 {
      assert !IsSpace(d[0]);
      assert !IsSpace(UpperChar(d[0]));
    }
    assert forall i :: 1 <= i < |d| ==> PascalCase(s)[i] == d[i];
  }

  /**
   * The filter precedence: the joined matching slugs when there are any;
   * else the PascalCased keyword when it is a status key; else the keyword,
   * which is `null` for a falsy keyword.
   */
  lemma LegacyQueryPrecedence(keyword: Option<string>, couriers: Couriers)
    ensures var q := FormatTrackingsQuery(keyword, couriers);
      var k := if Truthy(keyword) then Some(StripPreposition(keyword.value)) else None;
      q.text == k
      && (q.options.SlugOption? <==> Truthy(k) && MatchingSlugs(couriers, k.value) != [])
      && (q.options.TagOption? <==>
            Truthy(k) && MatchingSlugs(couriers, k.value) == [] && HasKey(LegacyStatus, PascalCase(k.value)))
      && (q.options.TagOption? ==> q.options.tag == PascalCase(k.value))
      && (q.options.KeywordOption? ==> q.options.keyword == k)
      && (!Truthy(k) ==> q.options == KeywordOption(k))
  {
    LegacyKeysNonEmpty();
  }

  // ---------------------------------------------------------------------------
  // The PascalCase of space-separated words

  /** A word: at least one character and no white space. */
  predicate Word(w: string) {
    |w| > 0 && forall i :: 0 <= i < |w| ==> !IsSpace(w[i])
  }

  predicate Words(ws: seq<string>) {
    forall i :: 0 <= i < |ws| ==> Word(ws[i])
  }

  /** The word with its first character upper-cased. */
  function Capitalized(w: string): string {
    if |w| == 0 then w else [UpperChar(w[0])] + w[1..]
  }

  function CapitalizedAll(ws: seq<string>): (r: seq<string>)
    ensures |r| == |ws| && forall i :: 0 <= i < |ws| ==> r[i] == Capitalized(ws[i])
  {
    seq(|ws|, i requires 0 <= i < |ws| => Capitalized(ws[i]))
  }

  function LoweredAll(ws: seq<string>): (r: seq<string>)
    ensures |r| == |ws| && forall i :: 0 <= i < |ws| ==> r[i] == ToLower(ws[i])
  {
    seq(|ws|, i requires 0 <= i < |ws| => ToLower(ws[i]))
  }

  /** The words one after the other. */
  function Concat(ws: seq<string>): string {
    if |ws| == 0 then "" else ws[0] + Concat(ws[1..])
  }

  lemma ToLowerAppend(a: string, b: string)
    ensures ToLower(a + b) == ToLower(a) + ToLower(b)
  {
    assert forall i :: 0 <= i < |a + b| ==> ToLower(a + b)[i] == (ToLower(a) + ToLower(b))[i];
  }

  /** Lower-casing the spoken words keeps them words. */
  lemma LoweredWords(ws: seq<string>)
    requires Words(ws)
    ensures Words(LoweredAll(ws))
  {
    forall i | 0 <= i < |ws| ensures Word(LoweredAll(ws)[i]) {
      var w := ws[i];
      assert forall j :: 0 <= j < |w| ==> ToLower(w)[j] == LowerChar(w[j]);
    }
  }

  lemma {:induction false} ToLowerJoin(ws: seq<string>)
    requires |ws| >= 1
    ensures ToLower(Join(" ", ws)) == Join(" ", LoweredAll(ws))
  {
    if |ws| > 1 {
      ToLowerJoin(ws[1..]);
      assert LoweredAll(ws)[1..] == LoweredAll(ws[1..]);
      ToLowerAppend(ws[0], " " + Join(" ", ws[1..]));
      ToLowerAppend(" ", Join(" ", ws[1..]));
      assert ToLower(" ") == " ";
      assert Join(" ", ws) == ws[0] + (" " + Join(" ", ws[1..]));
      assert Join(" ", LoweredAll(ws)) == LoweredAll(ws)[0] + (" " + Join(" ", LoweredAll(ws)[1..]));
    }
  }

  /** Characters that are not white space pass the upper-casing scan unchanged. */
  lemma {:induction false} UpcaseSkip(u: string, rest: string)
    requires forall i :: 0 <= i < |u| ==> !IsSpace(u[i])
    ensures UpcaseAfterSpace(u + rest) == u + UpcaseAfterSpace(rest)
    decreases |u|
  {
    if u == [] {
      assert u + rest == rest;
    } else {
      var s := u + rest;
      assert s[0] == u[0];
      UpcaseStep(s);
      assert s[1..] == u[1..] + rest;
      UpcaseSkip(u[1..], rest);
      ConsSplit(u, UpcaseAfterSpace(rest));
    }
  }

  /** A character that is not white space is copied and the scan moves on. */
  lemma UpcaseStep(s: string)
    requires |s| > 0 && !IsSpace(s[0])
    ensures UpcaseAfterSpace(s) == [s[0]] + UpcaseAfterSpace(s[1..])
  {
  }

  /** After a space, each word starts upper-case. */
  lemma {:induction false} UpcaseSpaceJoin(ws: seq<string>)
    requires |ws| >= 1 && Words(ws)
    ensures UpcaseAfterSpace(Spaced(ws)) == Spaced(CapitalizedAll(ws))
  {
    var w := ws[0];
    var tail := Spaced(ws[1..]);
    JoinFirst(ws);
    var s := " " + (w + tail);
    assert Spaced(ws) == s;
    assert s[0] == ' ' && s[1] == w[0] && s[2..] == w[1..] + tail;
    assert !IsSpace(w[0]);
    UpcasePair(s);
    UpcaseSkip(w[1..], tail);
    var cs := CapitalizedAll(ws);
    JoinFirst(cs);
    assert cs[1..] == CapitalizedAll(ws[1..]);
    if |ws| > 1 {
      UpcaseSpaceJoin(ws[1..]);
    }
    PairSplit(' ', UpperChar(w[0]), w[1..], UpcaseAfterSpace(tail));
  }

  /** A space and the character after it are upper-cased together. */
  lemma UpcasePair(s: string)
    requires |s| >= 2 && IsSpace(s[0]) && !IsSpace(s[1])
    ensures UpcaseAfterSpace(s) == [s[0], UpperChar(s[1])] + UpcaseAfterSpace(s[2..])
  {
    assert !IsLineTerminator(s[1]);
  }

  lemma PairSplit<T>(c: T, d: T, v: seq<T>, x: seq<T>)
    ensures [c, d] + (v + x) == [c] + (([d] + v) + x)
  {
  }

  /** Words joined by spaces: the first word, then each later one after a space. */
  lemma JoinFirst(ws: seq<string>)
    requires |ws| >= 1
    ensures Join(" ", ws) == ws[0] + Spaced(ws[1..])
  {
  }

  /** The first word keeps its case; every later word starts upper-case. */
  lemma UpcaseJoin(ws: seq<string>)
    requires |ws| >= 1 && Words(ws)
    ensures UpcaseAfterSpace(Join(" ", ws)) == ws[0] + Spaced(CapitalizedAll(ws[1..]))
  {
    JoinFirst(ws);
    UpcaseSkip(ws[0], Spaced(ws[1..]));
    if |ws| > 1 {
      UpcaseSpaceJoin(ws[1..]);
    }
  }

  /** Each of the words after a space. */
  function Spaced(ws: seq<string>): string {
    if |ws| == 0 then "" else " " + Join(" ", ws)
  }

  /** A leading white-space character is dropped. */
  lemma DropSpaceStep(s: string)
    requires |s| > 0 && IsSpace(s[0])
    ensures DropAllSpaces(s) == DropAllSpaces(s[1..])
  {
  }

  /** A leading character that is not white space is kept. */
  lemma DropKeepStep(s: string)
    requires |s| > 0 && !IsSpace(s[0])
    ensures DropAllSpaces(s) == [s[0]] + DropAllSpaces(s[1..])
  {
  }

  /** Dropping distributes over concatenation, so the kept characters stay in order. */
  lemma {:induction false} DropAppend(a: string, b: string)
    ensures DropAllSpaces(a + b) == DropAllSpaces(a) + DropAllSpaces(b)
  {
    if a != [] {
      var s := a + b;
      assert s[0] == a[0] && s[1..] == a[1..] + b;
      DropAppend(a[1..], b);
      if IsSpace(a[0]) {
        DropSpaceStep(s);
        DropSpaceStep(a);
      } else {
        DropKeepStep(s);
        DropKeepStep(a);
        ConsAssoc(a[0], DropAllSpaces(a[1..]), DropAllSpaces(b));
      }
    } else {
      assert a + b == b;
    }
  }

  lemma ConsAssoc<T>(c: T, v: seq<T>, x: seq<T>)
    ensures [c] + (v + x) == ([c] + v) + x
  {
  }

  lemma {:induction false} DropWord(w: string)
    requires forall i :: 0 <= i < |w| ==> !IsSpace(w[i])
    ensures DropAllSpaces(w) == w
  {
    if w != [] {
      DropKeepStep(w);
      DropWord(w[1..]);
    }
  }

  /** Removing the spaces of words joined by spaces leaves the words run together. */
  lemma {:induction false} DropJoin(ws: seq<string>)
    requires Words(ws)
    ensures DropAllSpaces(Spaced(ws)) == Concat(ws)
  {
    if |ws| > 0 {
      var w := ws[0];
      var tail := Spaced(ws[1..]);
      JoinFirst(ws);
      var s := " " + (w + tail);
      assert Spaced(ws) == s && s[1..] == w + tail;
      DropSpaceStep(s);
      DropAppend(w, tail);
      DropWord(w);
      DropJoin(ws[1..]);
    }
  }

  /**
   * A keyword of space-separated words becomes the words, lower-cased and
   * capitalised, run together: "out for delivery" is "OutForDelivery".
   */
  lemma PascalCaseWords(ws: seq<string>)
    requires |ws| >= 1 && Words(ws)
    ensures PascalCase(Join(" ", ws)) == Concat(CapitalizedAll(LoweredAll(ws)))
  {
    var ls := LoweredAll(ws);
    ToLowerJoin(ws);
    LoweredWords(ws);
    RunTogether(ls);
    var rest := CapitalizedAll(ls[1..]);
    UpcaseFirstWord(ls[0], Concat(rest));
    CapitalizedTail(ls);
  }

  /** The upper-casing scan and the space removal leave the first word, then the others capitalised. */
  lemma RunTogether(ls: seq<string>)
    requires |ls| >= 1 && Words(ls)
    ensures DropAllSpaces(UpcaseAfterSpace(Join(" ", ls))) == ls[0] + Concat(CapitalizedAll(ls[1..]))
  {
    var rest := CapitalizedAll(ls[1..]);
    UpcaseJoin(ls);
    assert Words(rest) by {
      forall i | 0 <= i < |rest| ensures Word(rest[i]) {
        CapitalizedWord(ls[1..][i]);
      }
    }
    DropAppend(ls[0], Spaced(rest));
    DropWord(ls[0]);
    DropJoin(rest);
  }

  lemma CapitalizedTail(ls: seq<string>)
    requires |ls| >= 1
    ensures Concat(CapitalizedAll(ls)) == Capitalized(ls[0]) + Concat(CapitalizedAll(ls[1..]))
  {
    var cs := CapitalizedAll(ls);
    assert cs[1..] == CapitalizedAll(ls[1..]);
  }

  lemma CapitalizedWord(w: string)
    requires Word(w)
    ensures Word(Capitalized(w))
  {
    assert !IsSpace(UpperChar(w[0]));
    assert forall i :: 1 <= i < |w| ==> Capitalized(w)[i] == w[i];
  }

  lemma UpcaseFirstWord(w: string, t: string)
    requires Word(w)
    ensures UpcaseFirst(w + t) == Capitalized(w) + t
  {
    assert !IsLineTerminator(w[0]);
    assert (w + t)[1..] == w[1..] + t;
  }
}
