/**
 * `useContentGenerator`: the hook's state and the handlers that change it.
 * Each `await` splits a handler into the part before it and the part after
 * it, and every `setContentVariations(prev => ...)` becomes an update of the
 * `variations` field that copies the list and replaces one entry.
 */
module Generator {
  import opened Outcomes
  import opened Text
  import opened Content
  import opened ResponseParser
  import opened Guardrail
  import opened Validation
  import opened VideoJob

  /** The request `handleFinalImageGeneration` sends: the variation index it captured and the prompt. */
  datatype ImageRequest = ImageRequest(index: int, prompt: string)

  /** The variation at `index` exists and is a video-generation post. */
  predicate IsVideoAt(variations: seq<Post>, index: int) {
    0 <= index < |variations| && variations[index].VideoGenerationPost?
  }

  /** The variation at `index` exists and is an image post. */
  predicate IsImageAt(variations: seq<Post>, index: int) {
    0 <= index < |variations| && variations[index].ImagePost?
  }

  /**
   * `Promise.all` over one `generateAndParseSinglePost` per reply: every
   * variation in order, or the error of the first reply that fails.
   */
  function ParseAll(p: GenerateParams, replies: seq<Reply>, parseJson: string -> Option<Json>): (r: Result<seq<Post>>)
    ensures r.Ok? ==> |r.value| == |replies|
    ensures r.Ok? ==> forall k :: 0 <= k < |replies| ==> GenerateSinglePost(p, replies[k], parseJson) == Ok(r.value[k])
    ensures r.Ok? ==> forall x :: x in r.value ==> WellFormed(x)
    ensures r.Err? ==> exists k :: 0 <= k < |replies| && GenerateSinglePost(p, replies[k], parseJson) == Err(r.message)
    ensures r.Err? <==> exists k :: 0 <= k < |replies| && GenerateSinglePost(p, replies[k], parseJson).Err?
    decreases |replies|
  {
    if replies == [] then Ok([])
    else
      var first := GenerateSinglePost(p, replies[0], parseJson);
      ParsedPostShape(p, replies[0], parseJson);
      assert forall k :: 1 <= k < |replies| ==> replies[k] == replies[1..][k - 1];
      match first
      case Err(message) => Err(message)
      case Ok(post) =>
        match ParseAll(p, replies[1..], parseJson)
        case Err(message) => Err(message)
        case Ok(posts) => Ok([post] + posts)
  }

  /** The variations the text flow installs: every reply parsed, then the ad guardrail when it applies. */
  function GenerateVariations(p: GenerateParams, replies: seq<Reply>, parseJson: string -> Option<Json>): (r: Result<seq<Post>>)
    ensures r.Ok? ==> forall x :: x in r.value ==> WellFormed(x)
    ensures ParseAll(p, replies, parseJson).Err? || !GuardrailApplies(p) ==> r == ParseAll(p, replies, parseJson)
    ensures ParseAll(p, replies, parseJson).Ok? && GuardrailApplies(p) ==>
      r == FilterByKeywords(p.adCreativeInput, ParseAll(p, replies, parseJson).value)
  {
    var parsed := ParseAll(p, replies, parseJson);
    if parsed.Err? || !GuardrailApplies(p) then parsed
    else
      var r := FilterByKeywords(p.adCreativeInput, parsed.value);
      GuardrailKeepsMatchingAds(p.adCreativeInput, parsed.value);
      r
  }

  class ContentGenerator {
    var variations: seq<Post>
    var currentIndex: int
    var isLoading: bool
    var isGeneratingImage: bool
    var error: Option<string>

    /** Every variation the hook holds is well formed. */
    predicate Valid()
      reads this
    {
      forall k :: 0 <= k < |variations| ==> WellFormed(variations[k])
    }

    /** The hook's initial state. */
    constructor ()
      ensures Valid()
      ensures variations == [] && currentIndex == 0 && !isLoading && !isGeneratingImage && error == None
    {
      variations := [];
      currentIndex := 0;
      isLoading := false;
      isGeneratingImage := false;
      error := None;
    }

    /** `setCurrentVariationIndex`. */
    method SetCurrentVariationIndex(index: int)
      modifies this`currentIndex
      ensures currentIndex == index
    {
      currentIndex := index;
    }

    /**
     * `handleGeneratePost` up to its `await`: clear the error, validate, and on
     * failure record the message and return without touching the variations;
     * otherwise start loading and install the empty list, or for a video
     * request the initial generating post.
     */
    method StartGeneration(p: GenerateParams) returns (proceed: bool)
      requires Valid()
      modifies this
      ensures Valid()
      ensures proceed <==> RequiredFieldsPresent(p)
      ensures isGeneratingImage == old(isGeneratingImage)
      ensures !proceed ==>
        && error == Some(MissingFieldsMessage(p.postType))
        && variations == old(variations) && currentIndex == old(currentIndex) && isLoading == old(isLoading)
      ensures proceed ==>
        && error == None && isLoading && currentIndex == 0
        && variations == if p.postType == VideoGeneration then [InitialVideoPost(p)] else []
    {
      error := None;
      var failure := Validate(p);
      if failure.Some? {
        error := failure;
        return false;
      }
      isLoading := true;
      variations := [];
      currentIndex := 0;
      if p.postType == VideoGeneration {
        variations := [InitialVideoPost(p)];
      }
      proceed := true;
    }

    /**
     * `handleGeneratePost` after its `await`. A video request moves the post
     * at index 0 to polling and asks for index 0 to be polled, or on failure
     * records the error and clears the list (leaving `isLoading` set, as the
     * `finally` block skips video requests). Any other request installs the
     * parsed and filtered variations, or records the error and clears the list.
     */
    method CompleteGeneration(p: GenerateParams, replies: seq<Reply>, parseJson: string -> Option<Json>, videoJob: Result<Operation>)
      returns (pollIndex: Option<int>)
      requires Valid()
      modifies this
      ensures Valid()
      ensures currentIndex == old(currentIndex) && isGeneratingImage == old(isGeneratingImage)
      ensures p.postType == VideoGeneration ==>
        match videoJob
        case Ok(op) =>
          && pollIndex == Some(0) && !isLoading && error == old(error)
          && variations == if IsVideoAt(old(variations), 0) then old(variations)[0 := MarkPolling(old(variations)[0], op)] else old(variations)
        case Err(message) =>
          pollIndex == None && isLoading == old(isLoading) && error == Some(message) && variations == []
      ensures p.postType != VideoGeneration ==>
        && pollIndex == None && !isLoading
        && match GenerateVariations(p, replies, parseJson)
           case Ok(posts) => variations == posts && error == old(error)
           case Err(message) => variations == [] && error == Some(message)
    {
      if p.postType == VideoGeneration {
        pollIndex := CompleteVideoJob(videoJob);
      } else {
        InstallVariations(GenerateVariations(p, replies, parseJson));
        pollIndex := None;
      }
    }

    /**
     * The video branch after `generateVideos`: an accepted job moves the video
     * post at index 0 to polling and stops loading; a refused one records the
     * error and clears the list, and loading stays set.
     */
    method CompleteVideoJob(videoJob: Result<Operation>) returns (pollIndex: Option<int>)
      requires Valid()
      modifies this
      ensures Valid()
      ensures currentIndex == old(currentIndex) && isGeneratingImage == old(isGeneratingImage)
      ensures match videoJob
        case Ok(op) =>
          && pollIndex == Some(0) && !isLoading && error == old(error)
          && variations == if IsVideoAt(old(variations), 0) then old(variations)[0 := MarkPolling(old(variations)[0], op)] else old(variations)
        case Err(message) =>
          pollIndex == None && isLoading == old(isLoading) && error == Some(message) && variations == []
    {
      match videoJob {
        case Ok(op) =>
          var next := variations;
          if IsVideoAt(next, 0) {
            next := next[0 := MarkPolling(next[0], op)];
          }
          variations := next;
          isLoading := false;
          pollIndex := Some(0);
        case Err(message) =>
          error := Some(message);
          variations := [];
          pollIndex := None;
      }
    }

    /**
     * The text branch after `Promise.all`: install the generated variations, or
     * record the error and clear the list; loading stops either way.
     */
    method InstallVariations(generated: Result<seq<Post>>)
      requires Valid()
      requires generated.Ok? ==> forall x :: x in generated.value ==> WellFormed(x)
      modifies this
      ensures Valid()
      ensures currentIndex == old(currentIndex) && isGeneratingImage == old(isGeneratingImage) && !isLoading
      ensures match generated
        case Ok(posts) => variations == posts && error == old(error)
        case Err(message) => variations == [] && error == Some(message)
    {
      match generated {
        case Ok(posts) =>
          assert forall k :: 0 <= k < |posts| ==> posts[k] in posts;
          variations := posts;
        case Err(message) =>
          error := Some(message);
          variations := [];
      }
      isLoading := false;
    }

    /**
     * One tick of `pollVideoStatus` for the post at `index`: record the
     * fetched operation and its progress, then mark the post succeeded or
     * failed when the verdict says so; `keepPolling` is false once the
     * interval is cleared.
     */
    method PollTick(index: int, tick: Tick, apiKey: string) returns (keepPolling: bool)
      requires Valid()
      modifies this
      ensures Valid()
      ensures keepPolling <==> VerdictOf(tick).KeepPolling?
      ensures variations ==
        if IsVideoAt(old(variations), index) then old(variations)[index := AfterTick(old(variations)[index], tick, apiKey)]
        else old(variations)
      ensures error == if VerdictOf(tick).Aborted? then Some(VerdictOf(tick).message) else old(error)
      ensures currentIndex == old(currentIndex) && isLoading == old(isLoading) && isGeneratingImage == old(isGeneratingImage)
    {
      if tick.Fetched? {
        var next := variations;
        if IsVideoAt(next, index) {
          next := next[index := WithProgress(next[index], tick.op)];
        }
        variations := next;
      }
      match VerdictOf(tick) {
        case KeepPolling =>
          keepPolling := true;
        case Finished(uri) =>
          var next := variations;
          if IsVideoAt(next, index) {
            next := next[index := next[index].(status := Success, videoUrl := Some(uri + "&key=" + apiKey),
                                              pollingMessage := CompleteMessage, progress := 100)];
          }
          variations := next;
          keepPolling := false;
        case Aborted(message) =>
          error := Some(message);
          var next := variations;
          if IsVideoAt(next, index) {
            next := next[index := next[index].(status := Error, pollingMessage := "Error: " + message)];
          }
          variations := next;
          keepPolling := false;
      }
    }

    /** `handleImagePromptChange`: replace the prompt of the current variation when it is an image post. */
    method ChangeImagePrompt(newPrompt: string)
      requires Valid()
      modifies this`variations
      ensures Valid()
      ensures variations ==
        if IsImageAt(old(variations), currentIndex) then old(variations)[currentIndex := old(variations)[currentIndex].(imagePrompt := newPrompt)]
        else old(variations)
    {
      var next := variations;
      if IsImageAt(next, currentIndex) {
        next := next[currentIndex := next[currentIndex].(imagePrompt := newPrompt)];
      }
      variations := next;
    }

    /**
     * `handleFinalImageGeneration` up to its `await`: only an image post with a
     * non-empty prompt starts; it clears the error, sets the generating flag and
     * marks the post's image as loading, and the request captures the index.
     */
    method BeginImageGeneration() returns (request: Option<ImageRequest>)
      requires Valid()
      modifies this
      ensures Valid()
      ensures request.Some? <==> IsImageAt(old(variations), currentIndex) && old(variations)[currentIndex].imagePrompt != ""
      ensures currentIndex == old(currentIndex) && isLoading == old(isLoading)
      ensures request.None? ==>
        variations == old(variations) && error == old(error) && isGeneratingImage == old(isGeneratingImage)
      ensures request.Some? ==>
        && request.value == ImageRequest(currentIndex, old(variations)[currentIndex].imagePrompt)
        && isGeneratingImage && error == None
        && variations == old(variations)[currentIndex := old(variations)[currentIndex].(imageUrl := LoadingImage)]
    {
      if !IsImageAt(variations, currentIndex) || variations[currentIndex].imagePrompt == "" {
        return None;
      }
      isGeneratingImage := true;
      error := None;
      var next := variations;
      next := next[currentIndex := next[currentIndex].(imageUrl := LoadingImage)];
      variations := next;
      request := Some(ImageRequest(currentIndex, variations[currentIndex].imagePrompt));
    }

    /**
     * `handleFinalImageGeneration` after its `await`: the image post at the
     * captured index gets the JPEG data URL, or on failure the error is
     * recorded and the post goes back to `prompt_ready`; the generating flag
     * is cleared either way.
     */
    method FinishImageGeneration(request: ImageRequest, image: Result<string>)
      requires Valid()
      modifies this
      ensures Valid()
      ensures !isGeneratingImage && currentIndex == old(currentIndex) && isLoading == old(isLoading)
      ensures var url := if image.Ok? then JpegDataPrefix + image.value else PromptReady;
        variations ==
          if IsImageAt(old(variations), request.index) then old(variations)[request.index := old(variations)[request.index].(imageUrl := url)]
          else old(variations)
      ensures error == if image.Err? then Some(image.message) else old(error)
    {
      var url;
      match image {
        case Ok(data) => url := JpegDataPrefix + data;
        case Err(message) =>
          error := Some(message);
          url := PromptReady;
      }
      var next := variations;
      if IsImageAt(next, request.index) {
        next := next[request.index := next[request.index].(imageUrl := url)];
      }
      variations := next;
      isGeneratingImage := false;
    }
  }
}
