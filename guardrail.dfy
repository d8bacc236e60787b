/**
 * The ad guardrail of `handleGeneratePost`: required and banned keyword lists
 * built from comma-separated text, and the filter that keeps an ad only when
 * its lower-cased headline and primary text contain every required keyword
 * and no banned one.
 */
module Guardrail {
  import opened Outcomes
  import opened Text
  import opened Content
  import opened Sequences

  const NoMatchingAdsError := "No generated ads matched your guardrail criteria. Please adjust your Required Keywords or Banned Words."

  /** `k.trim().toLowerCase()`. */
  function Normalize(k: string): string {
    ToLower(Trim(k))
  }

  /** A keyword as the filter compares it: non-empty, lower case, no whitespace at either end. */
  predicate IsKeyword(k: string) {
    k != [] && IsLower(k) && !IsSpace(k[0]) && !IsSpace(k[|k| - 1])
  }

  /** `k` is the normalized form of one of the pieces. */
  predicate NormalizesSomePiece(k: string, pieces: seq<string>) {
    exists j :: 0 <= j < |pieces| && Normalize(pieces[j]) == k
  }

  /** `.map(k => k.trim().toLowerCase()).filter(Boolean)`. */
  function NormalizeAll(pieces: seq<string>): (keywords: seq<string>)
    ensures forall k :: k in keywords ==> IsKeyword(k) && NormalizesSomePiece(k, pieces)
    ensures forall j :: 0 <= j < |pieces| && Normalize(pieces[j]) != [] ==> Normalize(pieces[j]) in keywords
  {
    if pieces == [] then []
    else
      var k := Normalize(pieces[0]);
      var rest := NormalizeAll(pieces[1..]);
      NormalizeAllStep(pieces, k, rest);
      (if k == [] then [] else [k]) + rest
  }

  /** One step of `NormalizeAll`: its contract for the first piece and the rest. */
  lemma NormalizeAllStep(pieces: seq<string>, k: string, rest: seq<string>)
    requires pieces != [] && k == Normalize(pieces[0])
    requires forall x :: x in rest ==> IsKeyword(x) && NormalizesSomePiece(x, pieces[1..])
    requires forall j :: 0 <= j < |pieces[1..]| && Normalize(pieces[1..][j]) != [] ==> Normalize(pieces[1..][j]) in rest
    ensures forall x :: x in (if k == [] then [] else [k]) + rest ==> IsKeyword(x) && NormalizesSomePiece(x, pieces)
    ensures forall j :: 0 <= j < |pieces| && Normalize(pieces[j]) != [] ==> Normalize(pieces[j]) in (if k == [] then [] else [k]) + rest
  {
    NormalizedIsKeyword(pieces[0]);
    forall x | NormalizesSomePiece(x, pieces[1..]) ensures NormalizesSomePiece(x, pieces) {
      NormalizesLaterPiece(x, pieces);
    }
    assert NormalizesSomePiece(k, pieces) by { assert Normalize(pieces[0]) == k; }
    forall j | 1 <= j < |pieces| ensures pieces[j] == pieces[1..][j - 1] { }
  }

  /** A keyword normalized from a later piece is normalized from some piece. */
  lemma NormalizesLaterPiece(x: string, pieces: seq<string>)
    requires pieces != [] && NormalizesSomePiece(x, pieces[1..])
    ensures NormalizesSomePiece(x, pieces)
  {
    var j :| 0 <= j < |pieces[1..]| && Normalize(pieces[1..][j]) == x;
    assert pieces[1..][j] == pieces[j + 1];
  }

  /** A non-empty normalized piece is a keyword. */
  lemma NormalizedIsKeyword(k: string)
    ensures Normalize(k) != [] ==> IsKeyword(Normalize(k))
  {
    var t := Trim(k);
    if t != [] {
      assert !IsSpace(LowerChar(t[0])) && !IsSpace(LowerChar(t[|t| - 1]));
    }
  }

  /** `list.split(',').map(k => k.trim().toLowerCase()).filter(Boolean)`. */
  function Keywords(list: string): seq<string> {
    NormalizeAll(Split(list, ","))
  }

  /** A keyword list made only of commas and whitespace yields no keyword. */
  lemma KeywordsOfSeparatorsOnly(list: string)
    requires forall i :: 0 <= i < |list| ==> list[i] == ',' || IsSpace(list[i])
    ensures Keywords(list) == []
  {
    var pieces := Split(list, ",");
    CommaSpacePieces(list);
    forall j | 0 <= j < |pieces| ensures Normalize(pieces[j]) == [] {
      assert pieces[j] in pieces;
    }
    NormalizeAllOfBlanks(pieces);
  }

  /** Pieces that all normalize to nothing give no keyword. */
  lemma {:induction false} NormalizeAllOfBlanks(pieces: seq<string>)
    requires forall j :: 0 <= j < |pieces| ==> Normalize(pieces[j]) == []
    ensures NormalizeAll(pieces) == []
  {
    if pieces != [] {
      NormalizeAllOfBlanks(pieces[1..]);
    }
  }

  /** Splitting a string of commas and white space at commas leaves only white space. */
  lemma {:induction false} CommaSpacePieces(s: string)
    requires forall i :: 0 <= i < |s| ==> s[i] == ',' || IsSpace(s[i])
    ensures forall p :: p in Split(s, ",") ==> AllSpace(p)
    decreases |s|
  {
    match FindFrom(s, ",", 0)
    case None =>
      forall i | 0 <= i < |s| ensures IsSpace(s[i]) {
        assert s[i..i + 1] == [s[i]];
        assert !OccursAt(s, ",", i);
      }
    case Some(k) =>
      var rest := s[k + 1..];
      assert forall i :: 0 <= i < |rest| ==> rest[i] == s[k + 1 + i];
      CommaSpacePieces(rest);
      forall i | 0 <= i < k ensures IsSpace(s[..k][i]) {
        assert s[i..i + 1] == [s[i]];
        assert !OccursAt(s, ",", i);
      }
      assert Split(s, ",") == [s[..k]] + Split(rest, ",");
  }

  /** `${headline} ${primaryText}`. */
  function AdText(post: Post): string
    requires post.AdPost?
  {
    post.headline + " " + post.primaryText
  }

  /** The filter's test: a non-ad passes; an ad passes when its lower-cased text holds every required keyword and no banned one. */
  predicate Passes(post: Post, required: seq<string>, banned: seq<string>) {
    !post.AdPost? ||
    ((forall k :: k in required ==> Contains(ToLower(AdText(post)), k))
     && (forall k :: k in banned ==> !Contains(ToLower(AdText(post)), k)))
  }

  /** `results.filter(...)`: the passing posts, in order, each as often as in the input. */
  function KeepPassing(posts: seq<Post>, required: seq<string>, banned: seq<string>): (kept: seq<Post>)
    ensures IsSubsequence(kept, posts)
    ensures forall x :: multiset(kept)[x] == if Passes(x, required, banned) then multiset(posts)[x] else 0
  {
    if posts == [] then []
    else
      var rest := KeepPassing(posts[1..], required, banned);
      assert posts == [posts[0]] + posts[1..];
      if Passes(posts[0], required, banned) then
        assert ([posts[0]] + rest)[1..] == rest;
        [posts[0]] + rest
      else rest
  }

  /** Whether the request turns the guardrail on: an ad request with a non-blank keyword list. */
  predicate GuardrailApplies(p: GenerateParams) {
    p.postType == Ad && (!IsBlank(p.adCreativeInput.requiredKeywords) || !IsBlank(p.adCreativeInput.bannedWords))
  }

  /**
   * Filter the variations; a non-empty list of which none passes is an error
   * (an empty one is not).
   */
  function FilterByKeywords(ad: AdCreativeInput, results: seq<Post>): (r: Result<seq<Post>>)
    ensures r.Err? <==>
      results != [] && forall x :: x in results ==> !Passes(x, Keywords(ad.requiredKeywords), Keywords(ad.bannedWords))
    ensures r.Err? ==> r.message == NoMatchingAdsError
  {
    var kept := KeepPassing(results, Keywords(ad.requiredKeywords), Keywords(ad.bannedWords));
    NothingKeptIffNonePass(results, Keywords(ad.requiredKeywords), Keywords(ad.bannedWords));
    if |results| > 0 && |kept| == 0 then Err(NoMatchingAdsError) else Ok(kept)
  }

  /** The filter keeps nothing exactly when no variation passes. */
  lemma {:induction false} NothingKeptIffNonePass(posts: seq<Post>, required: seq<string>, banned: seq<string>)
    ensures KeepPassing(posts, required, banned) == [] <==> forall x :: x in posts ==> !Passes(x, required, banned)
  {
    if posts != [] {
      NothingKeptIffNonePass(posts[1..], required, banned);
      assert forall x :: x in posts <==> x == posts[0] || x in posts[1..];
    }
  }

  /**
   * What the guardrail keeps: an order-preserving subsequence of the
   * variations that holds every non-ad, and whose ads contain, compared
   * case-insensitively, every non-empty required entry of the comma-separated
   * list and none of the banned entries.
   */
  lemma GuardrailKeepsMatchingAds(ad: AdCreativeInput, results: seq<Post>)
    ensures var r := FilterByKeywords(ad, results);
      r.Ok? ==>
        && IsSubsequence(r.value, results)
        && (forall x :: x in results && !x.AdPost? ==> x in r.value)
        && (forall x :: x in r.value ==> x in results)
        && (forall x :: x in r.value && x.AdPost? ==>
              HonoursLists(x, Split(ad.requiredKeywords, ","), Split(ad.bannedWords, ",")))
  {
    var required, banned := Keywords(ad.requiredKeywords), Keywords(ad.bannedWords);
    var kept := KeepPassing(results, required, banned);
    KeptMembers(results, required, banned);
    forall x | x in kept && x.AdPost?
      ensures HonoursLists(x, Split(ad.requiredKeywords, ","), Split(ad.bannedWords, ","))
    {
      assert Passes(x, required, banned);
      PassingAdHonoursLists(x, Split(ad.requiredKeywords, ","), Split(ad.bannedWords, ","));
    }
  }

  /** The filter keeps exactly the passing variations, and every non-ad passes. */
  lemma KeptMembers(posts: seq<Post>, required: seq<string>, banned: seq<string>)
    ensures forall x :: x in KeepPassing(posts, required, banned) <==> x in posts && Passes(x, required, banned)
    ensures forall x :: x in posts && !x.AdPost? ==> x in KeepPassing(posts, required, banned)
  {
    var kept := KeepPassing(posts, required, banned);
    assert forall x :: x in kept <==> multiset(kept)[x] > 0;
    assert forall x :: x in posts <==> multiset(posts)[x] > 0;
  }

  /** The ad's lower-cased text holds every non-empty required entry and no non-empty banned entry. */
  predicate HonoursLists(x: Post, requiredPieces: seq<string>, bannedPieces: seq<string>)
    requires x.AdPost?
  {
    && (forall j :: 0 <= j < |requiredPieces| && Normalize(requiredPieces[j]) != [] ==>
          Contains(ToLower(AdText(x)), Normalize(requiredPieces[j])))
    && (forall j :: 0 <= j < |bannedPieces| && Normalize(bannedPieces[j]) != [] ==>
          !Contains(ToLower(AdText(x)), Normalize(bannedPieces[j])))
  }

  /** An ad that passes the filter honours the comma-separated lists piece by piece. */
  lemma PassingAdHonoursLists(x: Post, requiredPieces: seq<string>, bannedPieces: seq<string>)
    requires x.AdPost? && Passes(x, NormalizeAll(requiredPieces), NormalizeAll(bannedPieces))
    ensures HonoursLists(x, requiredPieces, bannedPieces)
  {
  }

  /** Keyword lists made only of commas and whitespace keep every variation. */
  lemma SeparatorOnlyListsKeepAll(ad: AdCreativeInput, results: seq<Post>)
    requires forall i :: 0 <= i < |ad.requiredKeywords| ==> ad.requiredKeywords[i] == ',' || IsSpace(ad.requiredKeywords[i])
    requires forall i :: 0 <= i < |ad.bannedWords| ==> ad.bannedWords[i] == ',' || IsSpace(ad.bannedWords[i])
    ensures FilterByKeywords(ad, results) == Ok(results)
  {
    KeywordsOfSeparatorsOnly(ad.requiredKeywords);
    KeywordsOfSeparatorsOnly(ad.bannedWords);
    KeepAllPassing(results, [], []);
  }

  /** When every variation passes, the filter keeps them all. */
  lemma {:induction false} KeepAllPassing(posts: seq<Post>, required: seq<string>, banned: seq<string>)
    requires forall x :: x in posts ==> Passes(x, required, banned)
    ensures KeepPassing(posts, required, banned) == posts
  {
    if posts != [] {
      KeepAllPassing(posts[1..], required, banned);
    }
  }
}
