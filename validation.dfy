/** The checks `handleGeneratePost` runs on the request before anything is generated. */
module Validation {
  import opened Outcomes
  import opened Text
  import opened Content

  const TopicRequired := "Please enter a topic for your post."
  const UrlAndTopicRequired := "Please enter a URL and a prompt to analyze."
  const KeyTipRequired := "Please enter a key tip or call-to-action for the guided post."
  const ProductAndAudienceRequired := "Please describe your product/service and target audience."
  const ScenarioRequired := "Please describe a scenario for the voice dialog."

  /** The fields each post type needs before generation starts each hold a character other than white space. */
  predicate RequiredFieldsPresent(p: GenerateParams) {
    match p.postType
    case TextType | GroundedText | Video | Image | VideoGeneration => !AllSpace(p.topic)
    case Analysis => !AllSpace(p.url) && !AllSpace(p.topic)
    case Guided => !AllSpace(p.guidedInput.keyTip)
    case Ad => !AllSpace(p.adCreativeInput.productOrService) && !AllSpace(p.adCreativeInput.targetAudience)
    case VoiceDialog => !AllSpace(p.voiceDialogInput.scenario)
    case _ => true
  }

  /** The message shown when a post type's required fields are missing. */
  function MissingFieldsMessage(t: PostType): string {
    match t
    case Analysis => UrlAndTopicRequired
    case Guided => KeyTipRequired
    case Ad => ProductAndAudienceRequired
    case VoiceDialog => ScenarioRequired
    case _ => TopicRequired
  }

  /**
   * The validation prelude: the message of the first failing check, or `None`
   * when generation may start. It fails exactly when a required field is
   * blank, with that post type's message.
   */
  function Validate(p: GenerateParams): (failure: Option<string>)
    ensures failure.None? <==> RequiredFieldsPresent(p)
    ensures failure.Some? ==> failure.value == MissingFieldsMessage(p.postType)
  {
    var ad := p.adCreativeInput;
    BlankIffAllSpace(p.topic);
    BlankIffAllSpace(p.url);
    BlankIffAllSpace(p.guidedInput.keyTip);
    BlankIffAllSpace(ad.productOrService);
    BlankIffAllSpace(ad.targetAudience);
    BlankIffAllSpace(p.voiceDialogInput.scenario);
    if p.postType in {TextType, GroundedText, Video, Image, VideoGeneration} && IsBlank(p.topic) then Some(TopicRequired)
    else if p.postType == Analysis && (IsBlank(p.url) || IsBlank(p.topic)) then Some(UrlAndTopicRequired)
    else if p.postType == Guided && IsBlank(p.guidedInput.keyTip) then Some(KeyTipRequired)
    else if p.postType == Ad && (IsBlank(ad.productOrService) || IsBlank(ad.targetAudience)) then Some(ProductAndAudienceRequired)
    else if p.postType == VoiceDialog && IsBlank(p.voiceDialogInput.scenario) then Some(ScenarioRequired)
    else None
  }
}
