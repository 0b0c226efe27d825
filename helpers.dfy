/**
 * The CommonJS copy of the speech-markup helpers in lambda/custom/helpers.js.
 * Its replacement chains are those of lambda/utils.js, so encoding, decoding,
 * stripping and the encoding step of formatting are the ones of `Speech`;
 * the say-as wrapper tests membership with `indexOf` instead of `includes`.
 */
module Helpers {
  import opened Strings
  import Speech

  /** The supported `interpret-as` names, the same fourteen in the same order. */
  const SupportedSayAs: seq<string> := [
    "characters", "spell-out",
    "cardinal", "number",
    "ordinal", "digits",
    "fraction", "unit",
    "date", "time",
    "telephone", "address",
    "interjection", "expletive"
  ]

  function Decode(text: string): string {
    Speech.Decode(text)
  }

  function Encode(text: string): string {
    Speech.Encode(text)
  }

  function Format(text: string, numberTagging: string -> string): string {
    Speech.Format(text, numberTagging)
  }

  /** `sayAsSpeechMarkup`: wraps `text` when `indexOf` finds the name. */
  function SayAs(text: string, interpretAs: string): string {
    if IndexOf(SupportedSayAs, interpretAs) > -1
    then "<say-as interpret-as=\"" + interpretAs + "\">" + text + "</say-as>"
    else text
  }

  function Strip(text: string): string {
    Speech.Strip(text)
  }

  /** The `indexOf` test accepts exactly the names of the `includes` test. */
  lemma SayAsAgrees(t: string, k: string)
    ensures SayAs(t, k) == Speech.SayAs(t, k)
    ensures SayAs(t, k) == t <==> k !in SupportedSayAs
  {
    assert SupportedSayAs == Speech.SupportedSayAs;
    Speech.SayAsUnchangedIff(t, k);
  }

  /** A supported name gives exactly the say-as element around the text. */
  lemma SayAsWraps(t: string, k: string)
    requires k in SupportedSayAs
    ensures SayAs(t, k) == "<say-as interpret-as=\"" + k + "\">" + t + "</say-as>"
  {
  }

  lemma EncodeNoMarkupChars(s: string)
    ensures '<' !in Encode(s) && '>' !in Encode(s) && '"' !in Encode(s) && '\'' !in Encode(s)
  {
    Speech.EncodeNoMarkupChars(s);
  }

  lemma DecodeEncode(s: string)
    requires '&' !in s
    ensures Decode(Encode(s)) == s
  {
    Speech.DecodeEncode(s);
  }

  lemma StripSayAs(t: string, k: string)
    requires '<' !in t
    ensures Strip(SayAs(t, k)) == Decode(t)
  {
    SayAsAgrees(t, k);
    Speech.StripSayAs(t, k);
  }

  lemma FormatDigitFree(text: string, numberTagging: string -> string)
    requires Speech.DigitFree(text)
    ensures Format(text, numberTagging) == Encode(text)
  {
    Speech.FormatDigitFree(text, numberTagging);
  }
}
