/** The mock rewrite endpoint: a canned text for the requested tone, followed by a sentence
    chosen by the length of the submitted text. */
module Rewrite {
  import opened Wrappers
  import opened Text

  /** The decoded request body; a field the client left out is `None`. */
  datatype Request = Request(text: Option<string>, tone: Option<string>, targetAudience: Option<string>)

  datatype Metadata = Metadata(model: string, generatedAt: string, originalLength: nat, newLength: nat)

  datatype Response =
    | Rewritten(originalText: string, rewrittenText: string, tone: string, targetAudience: string, metadata: Metadata)
    | Failed(status: int, error: string)

  const DefaultTone := "neutral"
  const DefaultAudience := "general"
  const MockModel := "mock-ai-v1"
  /** Texts longer than this get the expanded sentence. */
  const LongTextThreshold := 100

  const NeutralText := "This is a neutral version of the content with clear, direct language and factual presentation."
  const FriendlyText := "Hey there! This is a more conversational take on the same content - warmer, more personal, and easier to connect with."
  const ProfessionalText := "This represents the professional iteration of the content, utilizing formal language structures and industry-appropriate terminology."

  /** The tones that have a canned text. */
  predicate KnownTone(tone: string) {
    tone == "neutral" || tone == "friendly" || tone == "professional"
  }

  /** `mockRewriteResponses[tone] || mockRewriteResponses.neutral`. */
  function BaseText(tone: string): (r: string)
    ensures tone == "friendly" ==> r == FriendlyText
    ensures tone == "professional" ==> r == ProfessionalText
    ensures tone != "friendly" && tone != "professional" ==> r == NeutralText
  {
    if tone == "friendly" then FriendlyText
    else if tone == "professional" then ProfessionalText
    else NeutralText
  }

  /** The sentence for a long text, around the tone's name, and the one for a short text. */
  const ExpandedOpen := " Here's an expanded version that builds upon your original ideas while maintaining the "
  const ExpandedClose := " voice you requested."
  const ConciseSentence := " This concise version captures the essence of your message."

  /** The sentence appended to the canned text. */
  function Suffix(text: string, tone: string): string {
    if |text| > LongTextThreshold then ExpandedOpen + tone + ExpandedClose else ConciseSentence
  }

  /** The reply for a body `body` (`None`: it could not be decoded) at the clock reading
      `now`. */
  function Post(body: Option<Request>, now: string): (r: Response)
    ensures body == None ==> r == Failed(500, "Failed to rewrite text")
    ensures body.Some? && !Truthy(body.value.text) ==> r == Failed(400, "Text is required")
    ensures r.Rewritten? <==> body.Some? && Truthy(body.value.text)
    ensures r.Rewritten? ==> (
      && r.originalText == body.value.text.value
      && r.tone == body.value.tone.GetOr(DefaultTone)
      && r.targetAudience == body.value.targetAudience.GetOr(DefaultAudience)
      && r.metadata.model == MockModel && r.metadata.generatedAt == now
      && r.metadata.originalLength == |r.originalText|
      && r.metadata.newLength == |r.rewrittenText|
      && r.rewrittenText == BaseText(r.tone) + Suffix(r.originalText, r.tone))
  {
    match body
    case None => Failed(500, "Failed to rewrite text")
    case Some(req) =>
      if !Truthy(req.text) then Failed(400, "Text is required")
      else
        var text := req.text.value;
        var tone := req.tone.GetOr(DefaultTone);
        var rewritten := BaseText(tone) + Suffix(text, tone);
        Rewritten(text, rewritten, tone, req.targetAudience.GetOr(DefaultAudience),
          Metadata(MockModel, now, |text|, |rewritten|))
  }

  /** The rewritten text always opens with the canned text of the tone it echoes; a tone
      without a canned text, and a missing one, open with the neutral text. */
  lemma OpensWithBaseText(body: Option<Request>, now: string)
    ensures var r := Post(body, now);
      r.Rewritten? ==> (
        && StartsWith(r.rewrittenText, BaseText(r.tone))
        && (!KnownTone(r.tone) ==> StartsWith(r.rewrittenText, NeutralText))
        && (body.value.tone == None ==> r.tone == "neutral" && StartsWith(r.rewrittenText, NeutralText)))
  {
    var r := Post(body, now);
    if r.Rewritten? {
      var b := BaseText(r.tone);
      assert r.rewrittenText[..|b|] == b;
    }
  }

  /** The rewrite depends on the submitted text only through whether it is longer than
      100 characters: two texts on the same side of that bound get the same rewrite. */
  lemma OnlyLengthClassMatters(t1: string, t2: string, tone: Option<string>, audience: Option<string>, now: string)
    requires t1 != "" && t2 != ""
    requires |t1| > LongTextThreshold <==> |t2| > LongTextThreshold
    ensures Post(Some(Request(Some(t1), tone, audience)), now).rewrittenText
         == Post(Some(Request(Some(t2), tone, audience)), now).rewrittenText
  {
  }
}
