/**
 * The speech-markup helpers of lambda/utils.js: say-as wrapping, entity
 * encoding and decoding, tag stripping, and the encoding step of title formatting.
 */
module Speech {
  import opened Strings

  /** The `interpret-as` names the say-as wrapper accepts, in declaration order. */
  const SupportedSayAs: seq<string> := [
    "characters", "spell-out", "cardinal", "number", "ordinal", "digits", "fraction",
    "unit", "date", "time", "telephone", "address", "interjection", "expletive"
  ]

  /** `decodeSpeechMarkup`: the five entity replacements, `&amp;` first. */
  function Decode(text: string): string {
    ReplaceAll(ReplaceAll(ReplaceAll(ReplaceAll(ReplaceAll(
      text, "&amp;", "&"), "&lt;", "<"), "&gt;", ">"), "&quot;", "\""), "&apos;", "'")
  }

  /** `encodeSpeechMarkup`: the five character replacements, `&` first. */
  function Encode(text: string): string {
    ReplaceChar(ReplaceChar(ReplaceChar(ReplaceChar(ReplaceChar(
      text, '&', "&amp;"), '<', "&lt;"), '>', "&gt;"), '"', "&quot;"), '\'', "&apos;")
  }

  predicate DigitFree(s: string) {
    forall i :: 0 <= i < |s| ==> !IsDigit(s[i])
  }

  /**
   * `formatSpeechMarkup`: the encoded text, then the cardinal, fraction and
   * unit tagging. Each of those three patterns needs a digit to match, so the
   * tagging (given as `numberTagging`) only acts on text that has one.
   */
  function Format(text: string, numberTagging: string -> string): string {
    var encoded := Encode(text);
    if DigitFree(encoded) then encoded else numberTagging(encoded)
  }

  /** `sayAsSpeechMarkup`: wraps `text` only for a supported `interpret-as` name. */
  function SayAs(text: string, interpretAs: string): string {
    if interpretAs in SupportedSayAs
    then "<say-as interpret-as=\"" + interpretAs + "\">" + text + "</say-as>"
    else text
  }

  /** The first index at or after `from` holding `c`, or `|s|`. */
  function IndexOfFrom(s: string, c: char, from: nat): (r: nat)
    requires from <= |s|
    ensures from <= r <= |s|
    ensures r < |s| ==> s[r] == c
    ensures forall j :: from <= j < r ==> s[j] != c
    decreases |s| - from
  {
    if from == |s| then |s| else if s[from] == c then from else IndexOfFrom(s, c, from + 1)
  }

  /**
   * `s.replace(/<[^>]+>/g, '')`: a `<` followed by at least one character
   * before the next `>` starts a tag that is removed through that `>`.
   */
  function RemoveTags(s: string): string
    decreases |s|
  {
    if s == [] then []
    else if s[0] == '<' && 2 <= IndexOfFrom(s, '>', 1) < |s| then RemoveTags(s[IndexOfFrom(s, '>', 1) + 1..])
    else [s[0]] + RemoveTags(s[1..])
  }

  /** `stripSpeechMarkup`: remove the tags, then decode the entities. */
  function Strip(text: string): string {
    Decode(RemoveTags(text))
  }

  // ---------------------------------------------------------------------------
  // Encoding, character by character

  /** The position of a markup character in the encoding order, or -1. */
  function MarkIndex(c: char): int {
    if c == '&' then 0 else if c == '<' then 1 else if c == '>' then 2
    else if c == '"' then 3 else if c == '\'' then 4 else -1
  }

  const Marks: seq<char> := ['&', '<', '>', '"', '\'']
  const Entities: seq<string> := ["&amp;", "&lt;", "&gt;", "&quot;", "&apos;"]

  /**
   * One character with the markup characters whose position in the order lies
   * in `[lo, hi)` written as their entities: `Escaped(s, 0, 0)` and
   * `Escaped(s, 5, 5)` are `s` itself, `Escaped(s, 0, 5)` its encoding.
   */
  function Piece(c: char, lo: nat, hi: nat): string {
    var j := MarkIndex(c);
    if 0 <= j && lo <= j < hi then Entities[j] else [c]
  }

  function Escaped(s: string, lo: nat, hi: nat): string {
    if s == [] then [] else Piece(s[0], lo, hi) + Escaped(s[1..], lo, hi)
  }

  lemma {:induction false} EscapedNone(s: string, k: nat)
    ensures Escaped(s, k, k) == s
  {
    if s != [] {
      EscapedNone(s[1..], k);
    }
  }

  lemma ReplaceCharAbsent(s: string, c: char, r: string)
    requires c !in s
    ensures ReplaceChar(s, c, r) == s
  {
  }

  lemma ReplaceCharOne(c: char, d: char, r: string)
    ensures ReplaceChar([c], d, r) == if c == d then r else [c]
  {
    assert [c][1..] == [];
  }

  /** Only `&` occurs in an entity among the markup characters. */
  lemma EntitiesHaveNoLaterMarks(j: nat, k: nat)
    requires j < 5 && 1 <= k < 5
    ensures Marks[k] !in Entities[j]
  {
    if j == 0 {
    } else if j == 1 {
    } else if j == 2 {
    } else if j == 3 {
    } else {
    }
  }

  /** Encode step `k` writes character `k` as its entity and leaves the earlier entities alone. */
  lemma {:induction false} EncodeStep(s: string, k: nat)
    requires k < 5
    ensures ReplaceChar(Escaped(s, 0, k), Marks[k], Entities[k]) == Escaped(s, 0, k + 1)
  {
    if s != [] {
      var c := s[0];
      var j := MarkIndex(c);
      var piece, rest := Piece(c, 0, k), Escaped(s[1..], 0, k);
      ReplaceCharAppend(piece, rest, Marks[k], Entities[k]);
      EncodeStep(s[1..], k);
      if 0 <= j < k {
        EntitiesHaveNoLaterMarks(j, k);
        ReplaceCharAbsent(piece, Marks[k], Entities[k]);
      } else {
        ReplaceCharOne(c, Marks[k], Entities[k]);
        assert c == Marks[k] <==> j == k;
      }
    }
  }

  /**
   * Encoding works character by character: because `&` is replaced first, the
   * entities written by the later replacements are never escaped again.
   */
  lemma EncodeCharwise(s: string)
    ensures Encode(s) == Escaped(s, 0, 5)
  {
    EscapedNone(s, 0);
    var s1 := ReplaceChar(s, '&', "&amp;");
    EncodeStep(s, 0);
    assert s1 == Escaped(s, 0, 1);
    var s2 := ReplaceChar(s1, '<', "&lt;");
    EncodeStep(s, 1);
    assert s2 == Escaped(s, 0, 2);
    var s3 := ReplaceChar(s2, '>', "&gt;");
    EncodeStep(s, 2);
    assert s3 == Escaped(s, 0, 3);
    var s4 := ReplaceChar(s3, '"', "&quot;");
    EncodeStep(s, 3);
    assert s4 == Escaped(s, 0, 4);
    EncodeStep(s, 4);
  }

  /** The encoded text contains none of the characters `<`, `>`, `"` and `'`. */
  lemma EncodeNoMarkupChars(s: string)
    ensures '<' !in Encode(s) && '>' !in Encode(s) && '"' !in Encode(s) && '\'' !in Encode(s)
  {
    var s1 := ReplaceChar(s, '&', "&amp;");
    var s2 := ReplaceChar(s1, '<', "&lt;");
    var s3 := ReplaceChar(s2, '>', "&gt;");
    var s4 := ReplaceChar(s3, '"', "&quot;");
    var s5 := ReplaceChar(s4, '\'', "&apos;");
    ReplaceCharRemoves(s1, '<', "&lt;", '<');
    ReplaceCharRemoves(s2, '>', "&gt;", '<');
    ReplaceCharRemoves(s3, '"', "&quot;", '<');
    ReplaceCharRemoves(s4, '\'', "&apos;", '<');
    ReplaceCharRemoves(s2, '>', "&gt;", '>');
    ReplaceCharRemoves(s3, '"', "&quot;", '>');
    ReplaceCharRemoves(s4, '\'', "&apos;", '>');
    ReplaceCharRemoves(s3, '"', "&quot;", '"');
    ReplaceCharRemoves(s4, '\'', "&apos;", '"');
    ReplaceCharRemoves(s4, '\'', "&apos;", '\'');
  }

  // ---------------------------------------------------------------------------
  // Decoding an encoding

  /** Two different entities differ at a position both have. */
  function DiffAt(j: nat, k: nat): nat {
    if (j == 0 && k == 4) || (j == 4 && k == 0) then 2 else 1
  }

  lemma EntityShape(j: nat, k: nat)
    requires j < 5 && k < 5 && j != k
    ensures DiffAt(j, k) < |Entities[j]| && DiffAt(j, k) < |Entities[k]|
    ensures Entities[j][DiffAt(j, k)] != Entities[k][DiffAt(j, k)]
    ensures Entities[k][0] == '&'
    ensures forall i :: 1 <= i < |Entities[j]| ==> Entities[j][i] != '&'
  {
    if j == 0 {
    } else if j == 1 {
    } else if j == 2 {
    } else if j == 3 {
    } else {
    }
  }

  /** Decode step `k` turns entity `k` back into its character and leaves the rest alone. */
  lemma {:induction false} DecodeStep(s: string, k: nat)
    requires k < 5
    requires '&' !in s
    ensures ReplaceAll(Escaped(s, k, 5), Entities[k], [Marks[k]]) == Escaped(s, k + 1, 5)
  {
    var p, r := Entities[k], [Marks[k]];
    if s == [] {
    } else {
      var c, rest := s[0], Escaped(s[1..], k, 5);
      var j := MarkIndex(c);
      assert s[1..] == s[1..] && '&' !in s[1..] by { assert forall x :: x in s[1..] ==> x in s; }
      DecodeStep(s[1..], k);
      if j == k {
        ReplaceAllHit(rest, p, r);
      } else if 0 <= j && k < j {
        EntityShape(j, k);
        ReplaceAllMiss(Entities[j], rest, p, r, DiffAt(j, k));
      } else {
        assert c != '&';
        ReplaceAllSkip([c], rest, p, r);
      }
    }
  }

  /** Decoding undoes encoding on text without `&`. */
  lemma DecodeEncode(s: string)
    requires '&' !in s
    ensures Decode(Encode(s)) == s
  {
    EncodeCharwise(s);
    DecodeStep(s, 0);
    DecodeStep(s, 1);
    DecodeStep(s, 2);
    DecodeStep(s, 3);
    DecodeStep(s, 4);
    EscapedNone(s, 5);
  }

  lemma AmpersandSample()
    ensures Escaped("&lt;", 0, 5) == "&amp;lt;" && Decode("&amp;lt;") == "<"
  {
  }

  /** With an `&` the round trip can fail: `&amp;` is decoded first, so "&lt;" comes back as "<". */
  lemma DecodeEncodeAmpersand()
    ensures Encode("&lt;") == "&amp;lt;"
    ensures Decode(Encode("&lt;")) == "<"
  {
    EncodeCharwise("&lt;");
    AmpersandSample();
  }

  // ---------------------------------------------------------------------------
  // Stripping and wrapping

  lemma {:induction false} RemoveTagsSkip(u: string, rest: string)
    requires '<' !in u
    ensures RemoveTags(u + rest) == u + RemoveTags(rest)
  {
    if u != [] {
      assert (u + rest)[0] == u[0];
      assert (u + rest)[1..] == u[1..] + rest;
      RemoveTagsSkip(u[1..], rest);
    } else {
      assert u + rest == rest;
    }
  }

  lemma RemoveTagsTag(tag: string, rest: string)
    requires 3 <= |tag| && tag[0] == '<' && tag[|tag| - 1] == '>'
    requires forall j :: 1 <= j < |tag| - 1 ==> tag[j] != '>'
    ensures RemoveTags(tag + rest) == RemoveTags(rest)
  {
    var s := tag + rest;
    var e := IndexOfFrom(s, '>', 1);
    assert s[|tag| - 1] == '>';
    assert e == |tag| - 1;
    assert s[e + 1..] == rest;
  }

  lemma SupportedHaveNoAngles()
    ensures forall k :: k in SupportedSayAs ==> '>' !in k
  {
  }

  const OpenPrefix := "<say-as interpret-as=\""
  const CloseTag := "</say-as>"

  lemma OpenTagIsTag(k: string)
    requires '>' !in k
    ensures var open := OpenPrefix + k + "\">";
      3 <= |open| && open[0] == '<' && open[|open| - 1] == '>'
      && forall j :: 1 <= j < |open| - 1 ==> open[j] != '>'
  {
    var open := OpenPrefix + k + "\">";
    assert |OpenPrefix| == 22;
    assert '>' !in OpenPrefix;
    forall j | 1 <= j < |open| - 1
      ensures open[j] != '>'
    {
      if j < 22 {
        assert open[j] == OpenPrefix[j];
      } else if j < 22 + |k| {
        assert open[j] == k[j - 22];
      } else {
        assert open[j] == '"';
      }
    }
  }

  /** Stripping a say-as wrapping of text without `<` gives back the decoded text. */
  lemma StripSayAs(t: string, k: string)
    requires '<' !in t
    ensures Strip(SayAs(t, k)) == Decode(t)
  {
    if k in SupportedSayAs {
      SupportedHaveNoAngles();
      var open := OpenPrefix + k + "\">";
      assert SayAs(t, k) == open + (t + CloseTag);
      OpenTagIsTag(k);
      RemoveTagsTag(open, t + CloseTag);
      RemoveTagsSkip(t, CloseTag);
      assert CloseTag == CloseTag + [];
      RemoveTagsTag(CloseTag, []);
      assert t + [] == t;
    } else {
      assert t == t + [];
      RemoveTagsSkip(t, []);
    }
  }

  /** The wrapper changes the text exactly when the name is supported. */
  lemma SayAsUnchangedIff(t: string, k: string)
    ensures SayAs(t, k) == t <==> k !in SupportedSayAs
  {
    if k in SupportedSayAs {
      assert |SayAs(t, k)| > |t|;
    }
  }

  // ---------------------------------------------------------------------------
  // Formatting

  lemma {:induction false} ReplaceCharDigitFree(s: string, c: char, r: string)
    requires DigitFree(s) && DigitFree(r)
    ensures DigitFree(ReplaceChar(s, c, r))
  {
    if s != [] {
      ReplaceCharDigitFree(s[1..], c, r);
      var head := if s[0] == c then r else [s[0]];
      var tail := ReplaceChar(s[1..], c, r);
      assert forall i :: 0 <= i < |head + tail| ==> (head + tail)[i] == if i < |head| then head[i] else tail[i - |head|];
    }
  }

  lemma EncodeDigitFree(s: string)
    requires DigitFree(s)
    ensures DigitFree(Encode(s))
  {
    var s1 := ReplaceChar(s, '&', "&amp;");
    var s2 := ReplaceChar(s1, '<', "&lt;");
    var s3 := ReplaceChar(s2, '>', "&gt;");
    var s4 := ReplaceChar(s3, '"', "&quot;");
    ReplaceCharDigitFree(s, '&', "&amp;");
    ReplaceCharDigitFree(s1, '<', "&lt;");
    ReplaceCharDigitFree(s2, '>', "&gt;");
    ReplaceCharDigitFree(s3, '"', "&quot;");
    ReplaceCharDigitFree(s4, '\'', "&apos;");
  }

  /** On text with no digit, formatting is exactly the encoding. */
  lemma FormatDigitFree(text: string, numberTagging: string -> string)
    requires DigitFree(text)
    ensures Format(text, numberTagging) == Encode(text)
  {
    EncodeDigitFree(text);
  }
}
