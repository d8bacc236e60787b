/**
 * The values the hook works on: the post types, the user's inputs, the AI
 * service's replies and the generated post variants (`GeneratedContent`).
 */
module Content {
  import opened Outcomes
  import opened Text

  datatype PostType =
    | TextType | Guided | Ad | GroundedText | Video | Image | Analysis | Strategy | VoiceDialog
    | Gantt | VideoGeneration | SkillsDashboard | ProfessionalDashboard | AllTools

  datatype GuidedPostInput = GuidedPostInput(monetizationFeature: string, targetAudience: string, keyTip: string)

  datatype AdCreativeInput = AdCreativeInput(
    productOrService: string, targetAudience: string, callToAction: string,
    requiredKeywords: string, bannedWords: string)

  datatype VoiceDialogInput = VoiceDialogInput(dialogType: string, scenario: string)

  /** The optional image the user attaches to a video-generation request. */
  datatype InputImage = InputImage(data: string, mimeType: string)

  /** `GeneratePostsParams`; the number of variations is the number of replies the service gives. */
  datatype GenerateParams = GenerateParams(
    postType: PostType, topic: string, url: string,
    guidedInput: GuidedPostInput, adCreativeInput: AdCreativeInput, voiceDialogInput: VoiceDialogInput,
    videoInputImage: Option<InputImage>)

  /** A grounding chunk the search tool attached to a reply. */
  datatype Source = Source(uri: string, title: string)

  /** A value produced by `JSON.parse`. */
  datatype Json =
    | JsonNull
    | JsonPrimitive(literal: string)
    | JsonArray(items: seq<Json>)
    | JsonObject(members: map<string, Json>)

  /** One reply of `generateContent`: its `text` (empty when absent) and grounding chunks, or a thrown error. */
  datatype Reply =
    | Reply(text: string, groundingChunks: Option<seq<Source>>)
    | ReplyFailed(message: string)

  /**
   * The long-running video operation as the service reports it: whether it is
   * done, its progress percentage, its error message and the URI of the first
   * generated video.
   */
  datatype Operation = Operation(
    done: bool, progressPercentage: Option<int>, failure: Option<string>, videoUri: Option<string>)

  /** The `status` of a video-generation post: 'generating', 'polling', 'success', 'error'. */
  datatype VideoStatus = Generating | Polling | Success | Error

  /** `GeneratedContent`: one post variant. Text and guided requests both yield a `TextPost`. */
  datatype Post =
    | TextPost(content: string, hashtags: seq<string>)
    | AdPost(headline: string, primaryText: string, callToAction: string, hashtags: seq<string>)
    | GroundedTextPost(content: string, hashtags: seq<string>, sources: seq<Source>)
    | AnalysisPost(content: string, hashtags: seq<string>, sourceUrl: string)
    | VideoPost(title: string, message: string, hashtags: seq<string>)
    | ImagePost(caption: string, hashtags: seq<string>, imagePrompt: string, imageUrl: string)
    | StrategyPost(strategy: Json)
    | VoiceDialogPost(dialogType: string, scenario: string, dialog: Option<Json>)
    | VideoGenerationPost(
        prompt: string, inputImageUrl: Option<string>, operation: Option<Operation>,
        videoUrl: Option<string>, status: VideoStatus, pollingMessage: string, progress: int)

  /** The variants that carry a hashtag list. */
  predicate HasHashtags(post: Post) {
    post.TextPost? || post.AdPost? || post.GroundedTextPost? || post.AnalysisPost?
    || post.VideoPost? || post.ImagePost?
  }

  /** A token the parser keeps as a hashtag: it starts with `#` and holds no whitespace. */
  predicate IsHashtag(t: string) {
    StartsWith(t, "#") && NoSpace(t)
  }

  const PromptReady := "prompt_ready"
  const LoadingImage := "loading_image"
  const JpegDataPrefix := "data:image/jpeg;base64,"

  /** The three forms an image post's `imageUrl` takes. */
  predicate IsImageUrl(u: string) {
    u == PromptReady || u == LoadingImage || StartsWith(u, JpegDataPrefix)
  }

  /** What every post the hook holds satisfies. */
  predicate WellFormed(post: Post) {
    && (HasHashtags(post) ==> forall k :: 0 <= k < |post.hashtags| ==> IsHashtag(post.hashtags[k]))
    && (post.ImagePost? ==> IsImageUrl(post.imageUrl))
    && (post.VideoGenerationPost? && post.status == Success ==> post.videoUrl.Some?)
  }
}
