/**
 * The video-generation post and how one poll of the service moves it:
 * generating, then polling, then success (progress 100, URL set) or error.
 */
module VideoJob {
  import opened Outcomes
  import opened Text
  import opened Content

  const InitializingMessage := "Initializing video generation..."
  const StartedMessage := "Video processing started. This can take several minutes..."
  const FinalizingMessage := "Finalizing video..."
  const CompleteMessage := "Video generation complete!"
  const NoVideoUrlError := "Video generation finished but no video URL was returned."

  /** The post `handleGeneratePost` installs before asking the service for a video. */
  function InitialVideoPost(p: GenerateParams): Post {
    var image := match p.videoInputImage case Some(img) => Some(img.data) case None => None;
    VideoGenerationPost(p.topic, image, None, None, Generating, InitializingMessage, 0)
  }

  /** The post once the service has accepted the job and returned its operation. */
  function MarkPolling(post: Post, op: Operation): Post
    requires post.VideoGenerationPost?
  {
    post.(operation := Some(op), status := Polling, pollingMessage := StartedMessage)
  }

  /** What one interval tick learns: the refreshed operation, or the error `getVideosOperation` threw. */
  datatype Tick = Fetched(op: Operation) | FetchFailed(message: string)

  /** What a tick decides: poll again, finish with a download link, or fail with a message. */
  datatype Verdict = KeepPolling | Finished(uri: string) | Aborted(message: string)

  /**
   * An unfinished operation is polled again; a finished one fails with its own
   * error, succeeds with a non-empty video URI, and otherwise fails for want
   * of a URL; a failed fetch fails with its message.
   */
  function VerdictOf(tick: Tick): Verdict {
    match tick
    case FetchFailed(message) => Aborted(message)
    case Fetched(op) =>
      if !op.done then KeepPolling
      else if op.failure.Some? then Aborted(op.failure.value)
      else if op.videoUri.Some? && op.videoUri.value != "" then Finished(op.videoUri.value)
      else Aborted(NoVideoUrlError)
  }

  /** `updatedOperation.metadata?.progressPercentage || post.progress || 0`. */
  function ProgressOf(post: Post, op: Operation): int
    requires post.VideoGenerationPost?
  {
    match op.progressPercentage
    case Some(n) => if n != 0 then n else post.progress
    case None => post.progress
  }

  /** The polling message for a progress percentage. */
  function ProgressMessage(progress: int): string {
    if progress < 100 then "Processing video... (" + IntToString(progress) + "% complete). Please wait."
    else FinalizingMessage
  }

  /** The first update of a tick that fetched the operation. */
  function WithProgress(post: Post, op: Operation): Post
    requires post.VideoGenerationPost?
  {
    var progress := ProgressOf(post, op);
    post.(operation := Some(op), pollingMessage := ProgressMessage(progress), progress := progress)
  }

  /**
   * The post after one tick: the progress update when the operation was
   * fetched, followed by the success or error update the verdict calls for.
   */
  function AfterTick(post: Post, tick: Tick, apiKey: string): (next: Post)
    requires post.VideoGenerationPost?
    ensures next.VideoGenerationPost? && next.prompt == post.prompt && next.inputImageUrl == post.inputImageUrl
    ensures next.status == match VerdictOf(tick)
      case KeepPolling => post.status
      case Finished(_) => Success
      case Aborted(_) => Error
    ensures VerdictOf(tick).Finished? ==>
      next.videoUrl == Some(VerdictOf(tick).uri + "&key=" + apiKey) && next.progress == 100
      && next.pollingMessage == CompleteMessage
    ensures !VerdictOf(tick).Finished? ==> next.videoUrl == post.videoUrl
    ensures VerdictOf(tick).Aborted? ==> next.pollingMessage == "Error: " + VerdictOf(tick).message
    ensures tick.Fetched? ==> next.operation == Some(tick.op)
    ensures tick.FetchFailed? ==> next.operation == post.operation && next.progress == post.progress
    ensures tick.Fetched? && !VerdictOf(tick).Finished? ==> next.progress == ProgressOf(post, tick.op)
    ensures VerdictOf(tick).KeepPolling? ==> next.pollingMessage == ProgressMessage(next.progress)
  {
    var fetched := if tick.Fetched? then WithProgress(post, tick.op) else post;
    match VerdictOf(tick)
    case KeepPolling => fetched
    case Finished(uri) =>
      fetched.(status := Success, videoUrl := Some(uri + "&key=" + apiKey), pollingMessage := CompleteMessage, progress := 100)
    case Aborted(message) =>
      fetched.(status := Error, pollingMessage := "Error: " + message)
  }

  /** The post after a sequence of ticks, applied in order. */
  function RunTicks(post: Post, ticks: seq<Tick>, apiKey: string): (last: Post)
    requires post.VideoGenerationPost?
    ensures last.VideoGenerationPost?
    decreases |ticks|
  {
    if ticks == [] then post
    else AfterTick(RunTicks(post, ticks[..|ticks| - 1], apiKey), ticks[|ticks| - 1], apiKey)
  }

  /** Ticks that all say "poll again" leave a polling post polling. */
  lemma {:induction false} PollingContinues(post: Post, ticks: seq<Tick>, apiKey: string)
    requires post.VideoGenerationPost? && post.status == Polling
    requires forall k :: 0 <= k < |ticks| ==> VerdictOf(ticks[k]).KeepPolling?
    ensures RunTicks(post, ticks, apiKey).status == Polling
    decreases |ticks|
  {
    if ticks != [] {
      var init := ticks[..|ticks| - 1];
      assert forall k :: 0 <= k < |init| ==> init[k] == ticks[k];
      PollingContinues(post, init, apiKey);
    }
  }

  /**
   * The life of one job whose poller stops at its first finished or failed
   * tick: the post starts generating at progress 0, moves to polling when the
   * service accepts the job, stays polling through every earlier tick, and ends
   * in success (progress 100, URL set) exactly when the last tick finished, in
   * error exactly when it failed.
   */
  lemma VideoJobLifecycle(p: GenerateParams, op: Operation, ticks: seq<Tick>, apiKey: string)
    requires |ticks| >= 1
    requires forall k :: 0 <= k < |ticks| - 1 ==> VerdictOf(ticks[k]).KeepPolling?
    requires !VerdictOf(ticks[|ticks| - 1]).KeepPolling?
    ensures InitialVideoPost(p).status == Generating && InitialVideoPost(p).progress == 0
    ensures MarkPolling(InitialVideoPost(p), op).status == Polling
    ensures forall n :: 0 <= n < |ticks| ==> RunTicks(MarkPolling(InitialVideoPost(p), op), ticks[..n], apiKey).status == Polling
    ensures var last := RunTicks(MarkPolling(InitialVideoPost(p), op), ticks, apiKey);
      var verdict := VerdictOf(ticks[|ticks| - 1]);
      && (last.status == Success <==> verdict.Finished?)
      && (last.status == Error <==> verdict.Aborted?)
      && (verdict.Finished? ==> last.progress == 100 && last.videoUrl == Some(verdict.uri + "&key=" + apiKey))
  {
    var polling := MarkPolling(InitialVideoPost(p), op);
    forall n | 0 <= n < |ticks|
      ensures RunTicks(polling, ticks[..n], apiKey).status == Polling
    {
      assert forall k :: 0 <= k < n ==> ticks[..n][k] == ticks[k];
      PollingContinues(polling, ticks[..n], apiKey);
    }
    assert ticks[..|ticks|][..|ticks| - 1] == ticks[..|ticks| - 1];
    assert ticks[..|ticks|] == ticks;
  }
}
