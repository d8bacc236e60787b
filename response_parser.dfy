/**
 * `generateAndParseSinglePost`: the post types the text flow refuses, the
 * empty-reply check, and the delimiter-based parsing of the AI service's reply
 * into a typed post variant. The service itself is the `Reply` value and
 * `JSON.parse` is the `parseJson` oracle.
 */
module ResponseParser {
  import opened Outcomes
  import opened Text
  import opened Content
  import opened Sequences

  const HashtagsMarker := "###HASHTAGS###"
  const PrimaryTextMarker := "###PRIMARYTEXT###"
  const MessageMarker := "###MESSAGE###"
  const ImagePromptMarker := "###IMAGEPROMPT###"

  const UnsupportedTypeError := "This post type does not use the standard text generation flow."
  const EmptyResponseError := "The AI returned an empty response. Please try again."
  const MissingImagePromptError := "The AI failed to generate a valid image prompt."
  const InvalidStrategyJsonError := "The AI returned an invalid JSON format for the strategy plan."
  const InvalidVoiceDialogJsonError := "The AI returned an invalid JSON format for the voice dialog."

  /** The post types that go through the prompt-and-parse flow; the others throw before any call. */
  predicate UsesTextFlow(t: PostType) {
    t !in {Gantt, VideoGeneration, SkillsDashboard, ProfessionalDashboard, AllTools}
  }

  /** The `GeneratedContent` variant each post type yields. */
  predicate IsVariantFor(t: PostType, post: Post) {
    match t
    case TextType | Guided => post.TextPost?
    case Ad => post.AdPost?
    case GroundedText => post.GroundedTextPost?
    case Analysis => post.AnalysisPost?
    case Video => post.VideoPost?
    case Image => post.ImagePost?
    case Strategy => post.StrategyPost?
    case VoiceDialog => post.VoiceDialogPost?
    case _ => false
  }

  // ------------------------------------------------------------ hashtags

  /** `.filter(h => h.startsWith('#'))` over whitespace-free words (`KeepHashtagsExactly` says which are kept). */
  function KeepHashtags(words: seq<string>): (tags: seq<string>)
    requires forall k :: 0 <= k < |words| ==> NoSpace(words[k])
    ensures forall k :: 0 <= k < |tags| ==> IsHashtag(tags[k])
  {
    if words == [] then []
    else (if StartsWith(words[0], "#") then [words[0]] else []) + KeepHashtags(words[1..])
  }

  /**
   * The filter keeps the words that start with `#`, in order, each as often
   * as in the input, and no other word.
   */
  lemma {:induction false} KeepHashtagsExactly(words: seq<string>)
    requires forall k :: 0 <= k < |words| ==> NoSpace(words[k])
    ensures IsSubsequence(KeepHashtags(words), words)
    ensures forall w :: multiset(KeepHashtags(words))[w] == if StartsWith(w, "#") then multiset(words)[w] else 0
  {
    if words != [] {
      var rest := KeepHashtags(words[1..]);
      KeepHashtagsExactly(words[1..]);
      var tags := if StartsWith(words[0], "#") then [words[0]] + rest else rest;
      KeepHashtagsCons(words);
      assert [] + rest == rest;
      assert KeepHashtags(words) == tags;
      KeepHashtagsStepCounts(words, rest, tags);
      KeepHashtagsStepOrder(words, rest, tags);
    }
  }

  /** The multiplicity step of `KeepHashtagsExactly`. */
  lemma KeepHashtagsStepCounts(words: seq<string>, rest: seq<string>, tags: seq<string>)
    requires words != []
    requires forall w :: multiset(rest)[w] == if StartsWith(w, "#") then multiset(words[1..])[w] else 0
    requires tags == if StartsWith(words[0], "#") then [words[0]] + rest else rest
    ensures forall w :: multiset(tags)[w] == if StartsWith(w, "#") then multiset(words)[w] else 0
  {
    assert words == [words[0]] + words[1..];
  }

  /** The order step of `KeepHashtagsExactly`. */
  lemma KeepHashtagsStepOrder(words: seq<string>, rest: seq<string>, tags: seq<string>)
    requires words != [] && IsSubsequence(rest, words[1..])
    requires tags == if StartsWith(words[0], "#") then [words[0]] + rest else rest
    ensures IsSubsequence(tags, words)
  {
    if StartsWith(words[0], "#") {
      assert tags[0] == words[0] && tags[1..] == rest;
    }
  }

  /** `(raw || '').trim().split(/\s+/).filter(h => h.startsWith('#'))` (`HashtagsExactly` says which are kept). */
  function Hashtags(raw: string): (tags: seq<string>)
    ensures forall k :: 0 <= k < |tags| ==> IsHashtag(tags[k])
    ensures IsBlank(raw) ==> tags == []
  {
    var tags := KeepHashtags(SplitOnSpaceRuns(Trim(raw)));
    assert IsBlank(raw) ==> tags == [] by {
      if IsBlank(raw) {
        BlankIffTrimEmpty(raw);
        NoHashtagsInEmptyPiece();
      }
    }
    tags
  }

  /**
   * The hashtags of a piece are the words of the trimmed piece that start
   * with `#`, in order, each as often as in the piece, and no other word.
   */
  lemma HashtagsExactly(raw: string)
    ensures var words := SplitOnSpaceRuns(Trim(raw));
      && IsSubsequence(Hashtags(raw), words)
      && forall w :: multiset(Hashtags(raw))[w] == if StartsWith(w, "#") then multiset(words)[w] else 0
  {
    KeepHashtagsExactly(SplitOnSpaceRuns(Trim(raw)));
  }

  /** An empty piece splits into one empty word, which is no hashtag. */
  lemma NoHashtagsInEmptyPiece()
    ensures SplitOnSpaceRuns([]) == [""] && KeepHashtags([""]) == []
  {
    assert !StartsWith("", "#") && [""][1..] == [];
  }

  /**
   * A plain word between two hashtags, separated by any white-space runs
   * (spaces, tabs, line breaks), is dropped and the hashtags are kept in order.
   */
  lemma HashtagsSkipPlainWord(h1: string, r1: string, w: string, r2: string, h2: string)
    requires IsHashtag(h1) && IsHashtag(h2)
    requires w != [] && NoSpace(w) && !StartsWith(w, "#")
    requires r1 != [] && AllSpace(r1) && r2 != [] && AllSpace(r2)
    ensures Hashtags(h1 + r1 + w + r2 + h2) == [h1, h2]
  {
    var line := h1 + r1 + w + r2 + h2;
    assert line[0] == h1[0] && line[|line| - 1] == h2[|h2| - 1];
    TrimOfTrimmed(line);
    SplitThreeWords(h1, r1, w, r2, h2);
    KeepHashtagsOfThree(h1, w, h2);
  }

  /** Three white-space-free words separated by white-space runs split into those words. */
  lemma SplitThreeWords(h1: string, r1: string, w: string, r2: string, h2: string)
    requires NoSpace(h1) && NoSpace(w) && NoSpace(h2) && w != [] && h2 != []
    requires r1 != [] && AllSpace(r1) && r2 != [] && AllSpace(r2)
    requires !IsSpace(w[0]) && !IsSpace(h2[0])
    ensures SplitOnSpaceRuns(h1 + r1 + w + r2 + h2) == [h1, w, h2]
  {
    var line := h1 + r1 + w + r2 + h2;
    ThreeWordsCollapse(h1, r1, w, r2, h2);
    SplitOnSpaceRunsCollapse(line);
    JoinInjective(SplitOnSpaceRuns(line), [h1, w, h2]);
  }

  /** Of a hashtag, a plain word and a hashtag, the filter keeps the two hashtags. */
  lemma KeepHashtagsOfThree(h1: string, w: string, h2: string)
    requires IsHashtag(h1) && IsHashtag(h2) && NoSpace(w) && !StartsWith(w, "#")
    ensures KeepHashtags([h1, w, h2]) == [h1, h2]
  {
    calc {
      KeepHashtags([h1, w, h2]);
      { KeepHashtagsCons([h1, w, h2]); assert [h1, w, h2][1..] == [w, h2]; }
      [h1] + KeepHashtags([w, h2]);
      { KeepHashtagsCons([w, h2]); assert [w, h2][1..] == [h2]; }
      [h1] + KeepHashtags([h2]);
      { KeepHashtagsCons([h2]); assert [h2][1..] == []; }
      [h1] + ([h2] + KeepHashtags([]));
      [h1, h2];
    }
  }

  /** `KeepHashtags` on a non-empty list: the first word if it is a hashtag, then the rest's hashtags. */
  lemma KeepHashtagsCons(words: seq<string>)
    requires words != [] && forall k :: 0 <= k < |words| ==> NoSpace(words[k])
    ensures KeepHashtags(words) == (if StartsWith(words[0], "#") then [words[0]] else []) + KeepHashtags(words[1..])
  {
  }

  /** Three white-space-free words separated by white-space runs collapse to their single-space join. */
  lemma ThreeWordsCollapse(h1: string, r1: string, w: string, r2: string, h2: string)
    requires NoSpace(h1) && NoSpace(w) && NoSpace(h2) && w != [] && h2 != []
    requires r1 != [] && AllSpace(r1) && r2 != [] && AllSpace(r2)
    requires !IsSpace(w[0]) && !IsSpace(h2[0])
    ensures CollapseSpaceRuns(h1 + r1 + w + r2 + h2) == Join([h1, w, h2], " ")
  {
    var tail := r2 + h2;
    calc {
      CollapseSpaceRuns(h1 + r1 + w + r2 + h2);
      { RegroupWords(h1, r1, w, r2, h2); }
      CollapseSpaceRuns(h1 + (r1 + (w + tail)));
      { CollapseWordThenRun(h1, r1, w + tail); }
      h1 + (" " + CollapseSpaceRuns(w + tail));
      { CollapseWordThenRun(w, r2, h2); }
      h1 + (" " + (w + (" " + CollapseSpaceRuns(h2))));
      { CollapseWord(h2, []); assert h2 + [] == h2; }
      h1 + (" " + (w + (" " + h2)));
      { JoinOfThree(h1, w, h2); }
      Join([h1, w, h2], " ");
    }
  }

  /** Regrouping five parts to the right. */
  lemma RegroupWords(a: string, b: string, c: string, d: string, e: string)
    ensures a + b + c + d + e == a + (b + (c + (d + e)))
  {
  }

  /** A word and a white-space run before a non-space collapse to the word and one space. */
  lemma CollapseWordThenRun(w: string, run: string, t: string)
    requires NoSpace(w) && run != [] && AllSpace(run) && t != [] && !IsSpace(t[0])
    ensures CollapseSpaceRuns(w + (run + t)) == w + (" " + CollapseSpaceRuns(t))
  {
    CollapseWord(w, run + t);
    CollapseRun(run, t);
  }

  /** Three words joined with single spaces. */
  lemma JoinOfThree(a: string, b: string, c: string)
    ensures Join([a, b, c], " ") == a + (" " + (b + (" " + c)))
  {
    JoinCons(b, [c], " ");
    JoinCons(a, [b, c], " ");
    assert [a] + [b, c] == [a, b, c] && [b] + [c] == [b, c];
  }

  /** A line of hashtags separated by single spaces parses back into the same hashtags. */
  lemma HashtagLineRoundTrip(tags: seq<string>)
    requires forall k :: 0 <= k < |tags| ==> IsHashtag(tags[k])
    ensures Hashtags(HashtagLine(tags)) == tags
  {
    if tags == [] {
      assert IsBlank("");
    } else {
      var line := Join(tags, " ");
      JoinStartsWith(tags);
      TrimOfTrimmed(line);
      SplitOnSpaceRunsOfJoin(tags);
      KeepHashtagsKeepsTags(tags);
    }
  }

  /** The hashtag line the prompts ask for: the tags separated by single spaces. */
  function HashtagLine(tags: seq<string>): (line: string)
    ensures tags != [] ==> line == Join(tags, " ")
    ensures tags == [] ==> line == ""
  {
    if tags == [] then "" else Join(tags, " ")
  }

  /** A string with no white space at either end trims to itself. */
  lemma TrimOfTrimmed(s: string)
    requires s != [] && !IsSpace(s[0]) && !IsSpace(s[|s| - 1])
    ensures Trim(s) == s
  {
    assert LeadingSpaces(s) == 0;
  }

  /** A list made only of hashtags passes the filter unchanged. */
  lemma {:induction false} KeepHashtagsKeepsTags(tags: seq<string>)
    requires forall k :: 0 <= k < |tags| ==> StartsWith(tags[k], "#") && NoSpace(tags[k])
    ensures KeepHashtags(tags) == tags
  {
    if tags != [] {
      KeepHashtagsKeepsTags(tags[1..]);
    }
  }

  // -------------------------------------------------------------- parsing

  /** `const [first, second] = s.split(sep)` with `second || ''`: the text before the first marker and the text between the first and the second. */
  function FirstTwo(s: string, sep: string): (r: (string, string))
    requires sep != []
    ensures r.0 == Before(s, sep)
    ensures r.1 == if Contains(s, sep) then Before(After(s, sep), sep) else ""
  {
    var pieces := Split(s, sep);
    (pieces[0], if |pieces| >= 2 then pieces[1] else "")
  }

  /** The fields of a reply laid out as `content ###HASHTAGS### hashtags`. */
  datatype TwoFields = TwoFields(content: string, hashtags: seq<string>)

  /**
   * The content is the trimmed text before the first `###HASHTAGS###`; the
   * hashtags come from the text between the first and any second marker
   * (whatever follows a second marker is dropped); without a marker there are
   * no hashtags.
   */
  function SplitContent(text: string): (f: TwoFields)
    ensures f.content == Trim(Before(text, HashtagsMarker))
    ensures f.hashtags ==
      if Contains(text, HashtagsMarker) then Hashtags(Before(After(text, HashtagsMarker), HashtagsMarker)) else []
    ensures forall k :: 0 <= k < |f.hashtags| ==> IsHashtag(f.hashtags[k])
  {
    var (content, tags) := FirstTwo(text, HashtagsMarker);
    assert IsBlank("");
    TwoFields(Trim(content), Hashtags(tags))
  }

  /** The fields of a reply laid out as `first <marker> middle ###HASHTAGS### hashtags`; `middle` untrimmed. */
  datatype ThreeFields = ThreeFields(first: string, middle: string, hashtags: seq<string>)

  /**
   * The fields in marker order: the trimmed text before the first `marker`;
   * the middle field and the hashtags from the text between the first and any
   * second `marker`, split again at `###HASHTAGS###`. Without `marker` the
   * middle field is empty and there are no hashtags.
   */
  function SplitThree(text: string, marker: string): (f: ThreeFields)
    requires marker != []
    ensures f.first == Trim(Before(text, marker))
    ensures !Contains(text, marker) ==> f.middle == [] && f.hashtags == []
    ensures Contains(text, marker) ==>
      var rest := Before(After(text, marker), marker);
      && f.middle == Before(rest, HashtagsMarker)
      && f.hashtags ==
           if Contains(rest, HashtagsMarker) then Hashtags(Before(After(rest, HashtagsMarker), HashtagsMarker)) else []
    ensures forall k :: 0 <= k < |f.hashtags| ==> IsHashtag(f.hashtags[k])
  {
    var (first, rest) := FirstTwo(text, marker);
    var (middle, tags) := FirstTwo(rest, HashtagsMarker);
    assert IsBlank("");
    assert rest == "" ==> middle == "" && tags == "";
    ThreeFields(Trim(first), middle, Hashtags(tags))
  }

  /**
   * A reply laid out as `content ###HASHTAGS### hashtag-line` parses back into
   * its content and hashtags, when the content is trimmed and no
   * `###HASHTAGS###` starts inside it (a `#` elsewhere in the text is fine).
   */
  lemma TwoFieldRoundTrip(content: string, tags: seq<string>)
    requires Trim(content) == content && EndsBeforeSeparator(content, HashtagsMarker)
    requires forall k :: 0 <= k < |tags| ==> IsHashtag(tags[k])
    requires !Contains(HashtagLine(tags), HashtagsMarker)
    ensures SplitContent(content + HashtagsMarker + HashtagLine(tags)) == TwoFields(content, tags)
  {
    SplitAtFirst(content, HashtagsMarker, HashtagLine(tags));
    HashtagLineRoundTrip(tags);
  }

  /**
   * A reply laid out as `first <marker> middle ###HASHTAGS### hashtag-line`
   * parses back into its three fields, when the first field is trimmed, no
   * marker starts inside the first or the middle field, and the middle marker
   * does not come back later.
   */
  lemma ThreeFieldRoundTrip(t: PostType, first: string, middle: string, tags: seq<string>)
    requires t in {Ad, Video, Image}
    requires Trim(first) == first && EndsBeforeSeparator(first, MiddleMarker(t))
    requires EndsBeforeSeparator(middle, HashtagsMarker)
    requires forall k :: 0 <= k < |tags| ==> IsHashtag(tags[k])
    requires !Contains(HashtagLine(tags), HashtagsMarker)
    requires !Contains(middle + HashtagsMarker + HashtagLine(tags), MiddleMarker(t))
    ensures SplitThree(first + MiddleMarker(t) + middle + HashtagsMarker + HashtagLine(tags), MiddleMarker(t))
      == ThreeFields(first, middle, tags)
  {
    var marker, line := MiddleMarker(t), HashtagLine(tags);
    calc {
      SplitThree(first + marker + middle + HashtagsMarker + line, marker);
      { RegroupFields(first, marker, middle, HashtagsMarker, line); }
      SplitThree(first + marker + (middle + HashtagsMarker + line), marker);
      { SplitAtMarkers(first, marker, middle, line); }
      ThreeFields(first, middle, Hashtags(line));
      { HashtagLineRoundTrip(tags); }
      ThreeFields(first, middle, tags);
    }
  }

  /** Regrouping a reply's five parts (kept apart from the markers' literal text). */
  lemma RegroupFields(a: string, b: string, c: string, d: string, e: string)
    ensures a + b + c + d + e == a + b + (c + d + e)
  {
  }

  /** The splitting half of `ThreeFieldRoundTrip`, for any middle marker. */
  lemma SplitAtMarkers(first: string, marker: string, middle: string, line: string)
    requires marker != []
    requires Trim(first) == first && EndsBeforeSeparator(first, marker)
    requires EndsBeforeSeparator(middle, HashtagsMarker)
    requires !Contains(line, HashtagsMarker)
    requires !Contains(middle + HashtagsMarker + line, marker)
    ensures SplitThree(first + marker + (middle + HashtagsMarker + line), marker)
      == ThreeFields(first, middle, Hashtags(line))
  {
    var rest := middle + HashtagsMarker + line;
    var text := first + marker + rest;
    SplitAtFirst(first, marker, rest);
    assert Contains(text, marker) && Before(text, marker) == first && After(text, marker) == rest;
    assert Before(rest, marker) == rest;
    SplitAtFirst(middle, HashtagsMarker, line);
    assert Contains(rest, HashtagsMarker) && Before(rest, HashtagsMarker) == middle && After(rest, HashtagsMarker) == line;
    assert Before(line, HashtagsMarker) == line;
  }

  /**
   * An image reply with a non-empty prompt between the markers parses into an
   * image post with that prompt, trimmed, ready for image generation.
   */
  lemma ImageReplyRoundTrip(p: GenerateParams, caption: string, prompt: string, tags: seq<string>,
                            chunks: Option<seq<Source>>, parseJson: string -> Option<Json>)
    requires p.postType == Image
    requires Trim(caption) == caption && EndsBeforeSeparator(caption, ImagePromptMarker)
    requires EndsBeforeSeparator(prompt, HashtagsMarker) && prompt != ""
    requires forall k :: 0 <= k < |tags| ==> IsHashtag(tags[k])
    requires !Contains(HashtagLine(tags), HashtagsMarker)
    requires !Contains(prompt + HashtagsMarker + HashtagLine(tags), ImagePromptMarker)
    ensures var text := caption + ImagePromptMarker + prompt + HashtagsMarker + HashtagLine(tags);
      GenerateSinglePost(p, Reply(text, chunks), parseJson) == Ok(ImagePost(caption, tags, Trim(prompt), PromptReady))
  {
    var text := caption + ImagePromptMarker + prompt + HashtagsMarker + HashtagLine(tags);
    ThreeFieldRoundTrip(Image, caption, prompt, tags);
    assert text != "" by { assert text[|caption|] == ImagePromptMarker[0]; }
    calc {
      GenerateSinglePost(p, Reply(text, chunks), parseJson);
      ParseReply(p, text, chunks, parseJson);
      ParseImageReply(text);
      { ImageFieldsParse(text, ThreeFields(caption, prompt, tags)); }
      Ok(ImagePost(caption, tags, Trim(prompt), PromptReady));
    }
  }

  /** An image reply whose split has a non-empty middle field parses into the image post built from its fields. */
  lemma ImageFieldsParse(text: string, f: ThreeFields)
    requires SplitThree(text, ImagePromptMarker) == f && f.middle != ""
    ensures ParseImageReply(text) == Ok(ImagePost(f.first, f.hashtags, Trim(f.middle), PromptReady))
  {
  }

  /** What a non-empty reply must further satisfy for its post type to parse. */
  predicate ReplyIsUsable(t: PostType, text: string, parseJson: string -> Option<Json>) {
    match t
    case Image => SplitThree(text, ImagePromptMarker).middle != ""
    case Strategy => parseJson(text).Some?
    case VoiceDialog => parseJson(text).Some? && parseJson(text).value != JsonNull
    case _ => true
  }

  /** `dialog` of a parsed value other than `null`: an object's member, otherwise `undefined`. */
  function DialogMember(j: Json): Option<Json> {
    match j
    case JsonObject(members) => if "dialog" in members then Some(members["dialog"]) else None
    case _ => None
  }

  /**
   * An image reply: the caption is the trimmed text before the first
   * `###IMAGEPROMPT###`; the prompt is the text after it up to `###HASHTAGS###`
   * (or a second `###IMAGEPROMPT###`), trimmed; the reply is refused, with the
   * missing-prompt message, exactly when that prompt piece is empty.
   */
  function ParseImageReply(text: string): (r: Result<Post>)
    ensures var rest := FirstTwo(text, ImagePromptMarker).1;
      && (r.Err? <==> Before(rest, HashtagsMarker) == "")
      && (r.Err? ==> r.message == MissingImagePromptError)
      && (r.Ok? ==> r.value == ImagePost(Trim(Before(text, ImagePromptMarker)), Hashtags(FirstTwo(rest, HashtagsMarker).1),
                                         Trim(Before(rest, HashtagsMarker)), PromptReady))
  {
    var f := SplitThree(text, ImagePromptMarker);
    assert IsBlank("");
    if f.middle == "" then Err(MissingImagePromptError)
    else Ok(ImagePost(f.first, f.hashtags, Trim(f.middle), PromptReady))
  }

  /**
   * The second `switch` of `generateAndParseSinglePost`, for a non-empty reply.
   * Text, guided, grounded and analysis posts take the trimmed text before the
   * first `###HASHTAGS###` as content; ads and video posts take the trimmed
   * text before their middle marker and the trimmed text after it up to
   * `###HASHTAGS###`; the hashtags always come from the piece after the first
   * `###HASHTAGS###` of that text. Strategy and voice-dialog replies are JSON,
   * refused with their own message when they do not parse.
   */
  function ParseReply(p: GenerateParams, text: string, chunks: Option<seq<Source>>, parseJson: string -> Option<Json>): (r: Result<Post>)
    requires UsesTextFlow(p.postType)
    ensures p.postType in {TextType, Guided, GroundedText, Analysis} ==>
      var content, tags := Trim(Before(text, HashtagsMarker)), Hashtags(FirstTwo(text, HashtagsMarker).1);
      r == Ok(match p.postType
              case GroundedText => GroundedTextPost(content, tags, if chunks.Some? then chunks.value else [])
              case Analysis => AnalysisPost(content, tags, p.url)
              case _ => TextPost(content, tags))
    ensures p.postType in {Ad, Video} ==>
      var marker := MiddleMarker(p.postType);
      var rest := FirstTwo(text, marker).1;
      var first, middle := Trim(Before(text, marker)), Trim(Before(rest, HashtagsMarker));
      var tags := Hashtags(FirstTwo(rest, HashtagsMarker).1);
      r == Ok(if p.postType == Ad then AdPost(first, middle, p.adCreativeInput.callToAction, tags)
              else VideoPost(first, middle, tags))
    ensures p.postType == Image ==> r == ParseImageReply(text)
    ensures p.postType == Strategy ==>
      r == if parseJson(text).Some? then Ok(StrategyPost(parseJson(text).value)) else Err(InvalidStrategyJsonError)
    ensures p.postType == VoiceDialog ==>
      r == if parseJson(text).Some? && parseJson(text).value != JsonNull
           then Ok(VoiceDialogPost(p.voiceDialogInput.dialogType, p.voiceDialogInput.scenario, DialogMember(parseJson(text).value)))
           else Err(InvalidVoiceDialogJsonError)
  {
    assert IsBlank("");
    match p.postType
    case TextType | Guided =>
      var f := SplitContent(text);
      Ok(TextPost(f.content, f.hashtags))
    case Ad =>
      var f := SplitThree(text, PrimaryTextMarker);
      Ok(AdPost(f.first, Trim(f.middle), p.adCreativeInput.callToAction, f.hashtags))
    case GroundedText =>
      var f := SplitContent(text);
      var sources := (match chunks case Some(c) => c case None => []);
      Ok(GroundedTextPost(f.content, f.hashtags, sources))
    case Analysis =>
      var f := SplitContent(text);
      Ok(AnalysisPost(f.content, f.hashtags, p.url))
    case Video =>
      var f := SplitThree(text, MessageMarker);
      Ok(VideoPost(f.first, Trim(f.middle), f.hashtags))
    case Image => ParseImageReply(text)
    case Strategy =>
      (match parseJson(text)
       case None => Err(InvalidStrategyJsonError)
       case Some(j) => Ok(StrategyPost(j)))
    case VoiceDialog =>
      (match parseJson(text)
       case None => Err(InvalidVoiceDialogJsonError)
       case Some(j) =>
         if j == JsonNull then Err(InvalidVoiceDialogJsonError)
         else Ok(VoiceDialogPost(p.voiceDialogInput.dialogType, p.voiceDialogInput.scenario, DialogMember(j))))
  }

  /**
   * `generateAndParseSinglePost`: refuse the post types outside the text flow,
   * pass on the service's error, refuse an empty reply, then parse.
   */
  function GenerateSinglePost(p: GenerateParams, reply: Reply, parseJson: string -> Option<Json>): (r: Result<Post>)
    ensures !UsesTextFlow(p.postType) ==> r == Err(UnsupportedTypeError)
    ensures UsesTextFlow(p.postType) && reply.ReplyFailed? ==> r == Err(reply.message)
    ensures UsesTextFlow(p.postType) && reply.Reply? && reply.text == "" ==> r == Err(EmptyResponseError)
    ensures UsesTextFlow(p.postType) && reply.Reply? && reply.text != "" ==>
      r == ParseReply(p, reply.text, reply.groundingChunks, parseJson)
    ensures r.Ok? <==>
      UsesTextFlow(p.postType) && reply.Reply? && reply.text != ""
      && ReplyIsUsable(p.postType, reply.text, parseJson)
  {
    if !UsesTextFlow(p.postType) then Err(UnsupportedTypeError)
    else match reply
      case ReplyFailed(message) => Err(message)
      case Reply(text, chunks) =>
        if text == "" then Err(EmptyResponseError)
        else ParseReply(p, text, chunks, parseJson)
  }

  /**
   * A parsed post is the variant of its post type and well formed, and the
   * fields the hook copies from the request (call to action, source URL,
   * dialog type and scenario) equal the request's, never the reply's text.
   */
  lemma ParsedPostShape(p: GenerateParams, reply: Reply, parseJson: string -> Option<Json>)
    ensures var r := GenerateSinglePost(p, reply, parseJson);
      r.Ok? ==>
        && IsVariantFor(p.postType, r.value) && WellFormed(r.value)
        && (r.value.AdPost? ==> r.value.callToAction == p.adCreativeInput.callToAction)
        && (r.value.AnalysisPost? ==> r.value.sourceUrl == p.url)
        && (r.value.VoiceDialogPost? ==>
              r.value.dialogType == p.voiceDialogInput.dialogType && r.value.scenario == p.voiceDialogInput.scenario)
        && (r.value.ImagePost? ==> r.value.imageUrl == PromptReady)
  {
  }

  /** The marker that separates the first and the middle field of a three-field post. */
  function MiddleMarker(t: PostType): (m: string)
    requires t in {Ad, Video, Image}
    ensures m != []
  {
    match t
    case Ad => PrimaryTextMarker
    case Video => MessageMarker
    case Image => ImagePromptMarker
  }
}
