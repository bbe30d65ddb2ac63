/**
 * How the three `analyzeUser` variants relate. The alternative service is the OAuth service
 * with the activity rule added; the reduced service of `twitterService.ts` fires a subset of
 * the alternative service's reasons. Every reason is explained by the one rule that pushes it.
 */
module VariantFacts {
  import opened Options
  import opened Accounts
  import opened Rules
  import BotPatterns
  import opened OAuthService
  import opened AlternativeService
  import opened ReducedService

  /** `a` adds no more points than `b` and pushes no reason that `b` does not. */
  ghost predicate Below(a: seq<Hit>, b: seq<Hit>) {
    Points(a) <= Points(b) && forall r :: r in Reasons(a) ==> r in Reasons(b)
  }

  lemma ReasonsIn(a: seq<Hit>, b: seq<Hit>, r: Reason)
    ensures r in Reasons(a + b) <==> r in Reasons(a) || r in Reasons(b)
  {
    ReasonsAppend(a, b);
  }

  lemma BelowAppend(a1: seq<Hit>, a2: seq<Hit>, b1: seq<Hit>, b2: seq<Hit>)
    requires Below(a1, b1) && Below(a2, b2)
    ensures Below(a1 + a2, b1 + b2)
  {
    PointsAppend(a1, a2);
    PointsAppend(b1, b2);
    forall r | r in Reasons(a1 + a2) ensures r in Reasons(b1 + b2) {
      ReasonsIn(a1, a2, r);
      ReasonsIn(b1, b2, r);
    }
  }

  /** A reduced rule fires nothing, or exactly what the full rule fires. */
  lemma BelowWhenSameOrEmpty(a: seq<Hit>, b: seq<Hit>)
    requires a == [] || a == b
    ensures Below(a, b)
  {
  }

  /** The OAuth hits are the alternative hits without the activity rule. */
  lemma AlternativeSplits(u: TwitterUser, clock: Clock)
    ensures AlternativeHits(u, clock) ==
      AgeRule(u, clock) + RatioRule(u) + TweetRule(u) + ActivityRule(u, clock)
      + (ProfileRule(u) + UsernameRule(u) + ImageRule(u))
    ensures OAuthHits(u, clock) ==
      AgeRule(u, clock) + RatioRule(u) + TweetRule(u) + (ProfileRule(u) + UsernameRule(u) + ImageRule(u))
  {
    var p := AgeRule(u, clock) + RatioRule(u) + TweetRule(u);
    var act := ActivityRule(u, clock);
    var profile, name, image := ProfileRule(u), UsernameRule(u), ImageRule(u);
    assert AlternativeHits(u, clock) == p + act + profile + name + image;
    assert OAuthHits(u, clock) == p + profile + name + image;
    Regroup(p + act, profile, name, image);
    Regroup(p, profile, name, image);
  }

  lemma Regroup(p: seq<Hit>, x: seq<Hit>, y: seq<Hit>, z: seq<Hit>)
    ensures p + x + y + z == p + (x + y + z)
  {
  }

  /** The activity rule is the only difference: its points are added, its reason inserted. */
  lemma {:induction false} AlternativeIsOAuthPlusActivity(u: TwitterUser, clock: Clock)
    ensures Points(AlternativeHits(u, clock)) == Points(OAuthHits(u, clock)) + Points(ActivityRule(u, clock))
    ensures forall r :: r in AnalyzeOAuth(u, clock).reasons ==> r in AnalyzeAlternative(u, clock).reasons
  {
    var p := AgeRule(u, clock) + RatioRule(u) + TweetRule(u);
    var act := ActivityRule(u, clock);
    var q := ProfileRule(u) + UsernameRule(u) + ImageRule(u);
    AlternativeSplits(u, clock);
    PointsAppend(p, q);
    PointsAppend(p + act, q);
    PointsAppend(p, act);
    forall r | r in Reasons(p + q) ensures r in Reasons(p + act + q) {
      ReasonsIn(p, q, r);
      ReasonsIn(p + act, q, r);
      ReasonsIn(p, act, r);
    }
  }

  /** The alternative service scores at least what the OAuth service scores, and flags every
      follower as a bot that the OAuth service flags. */
  lemma AlternativeDominatesOAuth(u: TwitterUser, clock: Clock)
    ensures AnalyzeOAuth(u, clock).botScore <= AnalyzeAlternative(u, clock).botScore
    ensures AnalyzeOAuth(u, clock).isBot ==> AnalyzeAlternative(u, clock).isBot
    ensures forall r :: r in AnalyzeOAuth(u, clock).reasons ==> r in AnalyzeAlternative(u, clock).reasons
  {
    AlternativeIsOAuthPlusActivity(u, clock);
  }

  /** When the activity rule stays silent, the two services return the same analysis. */
  lemma {:induction false} SilentActivityAgrees(u: TwitterUser, clock: Clock)
    requires ActivityRule(u, clock) == []
    ensures AnalyzeAlternative(u, clock) == AnalyzeOAuth(u, clock)
  {
    AlternativeSplits(u, clock);
    var p := AgeRule(u, clock) + RatioRule(u) + TweetRule(u);
    assert p + [] == p;
  }

  /** The OAuth classifier reads no last-tweet date for the score: two records that differ only
      there get the same score, reasons and verdict. */
  lemma OAuthIgnoresLastTweet(u: TwitterUser, v: TwitterUser, clock: Clock)
    requires v == u.(lastTweetDate := v.lastTweetDate)
    ensures AnalyzeOAuth(u, clock).botScore == AnalyzeOAuth(v, clock).botScore
    ensures AnalyzeOAuth(u, clock).reasons == AnalyzeOAuth(v, clock).reasons
    ensures AnalyzeOAuth(u, clock).isBot == AnalyzeOAuth(v, clock).isBot
  {
    OAuthHitsIgnoreLastTweet(u, v, clock);
  }

  lemma OAuthHitsIgnoreLastTweet(u: TwitterUser, v: TwitterUser, clock: Clock)
    requires v == u.(lastTweetDate := v.lastTweetDate)
    ensures OAuthHits(u, clock) == OAuthHits(v, clock)
  {
    RulesReadTheirFields(u, v, clock);
  }

  /** Each rule reads only its own fields of the record. */
  lemma RulesReadTheirFields(u: TwitterUser, v: TwitterUser, clock: Clock)
    requires u.createdAt == v.createdAt && u.username == v.username && u.profileImageUrl == v.profileImageUrl
    requires u.followersCount == v.followersCount && u.followingCount == v.followingCount
    requires u.tweetCount == v.tweetCount && u.description == v.description
    ensures AgeRule(u, clock) == AgeRule(v, clock)
    ensures RatioRule(u) == RatioRule(v)
    ensures TweetRule(u) == TweetRule(v)
    ensures ProfileRule(u) == ProfileRule(v)
    ensures UsernameRule(u) == UsernameRule(v)
    ensures ImageRule(u) == ImageRule(v)
  {
  }

  /** The reduced classifier's hits are below the alternative classifier's, rule by rule. */
  lemma ReducedBelowAlternative(u: TwitterUser, clock: Clock)
    ensures Below(ReducedHits(u, clock), AlternativeHits(u, clock))
  {
    var age := AgeRule(u, clock);
    BelowWhenSameOrEmpty(age, age);
    BelowWhenSameOrEmpty(RatioRuleReduced(u), RatioRule(u));
    BelowWhenSameOrEmpty(TweetRuleReduced(u), TweetRule(u));
    BelowWhenSameOrEmpty(ActivityRuleReduced(u, clock), ActivityRule(u, clock));
    BelowWhenSameOrEmpty(ProfileRule(u), ProfileRule(u));
    BelowWhenSameOrEmpty([], UsernameRule(u));
    assert Strings.Contains(u.profileImageUrl, "default_profile") ==> DefaultLookingImage(u);
    BelowWhenSameOrEmpty(ImageRuleReduced(u), ImageRule(u));
    var r1 := age + RatioRuleReduced(u);
    var a1 := age + RatioRule(u);
    BelowAppend(age, RatioRuleReduced(u), age, RatioRule(u));
    BelowAppend(r1, TweetRuleReduced(u), a1, TweetRule(u));
    var r2 := r1 + TweetRuleReduced(u);
    var a2 := a1 + TweetRule(u);
    BelowAppend(r2, ActivityRuleReduced(u, clock), a2, ActivityRule(u, clock));
    var r3 := r2 + ActivityRuleReduced(u, clock);
    var a3 := a2 + ActivityRule(u, clock);
    BelowAppend(r3, ProfileRule(u), a3, ProfileRule(u));
    var r4 := r3 + ProfileRule(u);
    var a4 := a3 + ProfileRule(u);
    BelowAppend(r4, [], a4, UsernameRule(u));
    var a5 := a4 + UsernameRule(u);
    assert r4 + [] == r4;
    BelowAppend(r4, ImageRuleReduced(u), a5, ImageRule(u));
  }

  /** The reduced service never scores more than the alternative service, never flags a bot
      that the alternative service passes, and gives no reason the alternative service does not. */
  lemma ReducedDominatedByAlternative(u: TwitterUser, clock: Clock)
    ensures AnalyzeReduced(u, clock).botScore <= AnalyzeAlternative(u, clock).botScore
    ensures AnalyzeReduced(u, clock).isBot ==> AnalyzeAlternative(u, clock).isBot
    ensures forall r :: r in AnalyzeReduced(u, clock).reasons ==> r in AnalyzeAlternative(u, clock).reasons
  {
    ReducedBelowAlternative(u, clock);
  }

  /** The three services agree on inactivity: it does not depend on the rule set. */
  lemma InactivityAgrees(u: TwitterUser, clock: Clock)
    ensures AnalyzeOAuth(u, clock).isInactive == AnalyzeAlternative(u, clock).isInactive
    ensures AnalyzeReduced(u, clock).isInactive == AnalyzeAlternative(u, clock).isInactive
  {
  }

  /** A reason lies in the rank band of the rule that pushed it. */
  lemma InRuleBand(hits: seq<Hit>, lo: nat, hi: nat, r: Reason)
    requires RuleOutput(hits, lo, hi) && r in Reasons(hits)
    ensures lo <= Rank(r) <= hi
  {
    var k :| 0 <= k < |hits| && Reasons(hits)[k] == r;
  }

  /** The rule of the alternative service that can push a reason of rank `k`. */
  function AlternativeRule(u: TwitterUser, clock: Clock, k: nat): seq<Hit> {
    if k == 1 then AgeRule(u, clock)
    else if k <= 3 then RatioRule(u)
    else if k <= 6 then TweetRule(u)
    else if k <= 8 then ActivityRule(u, clock)
    else if k == 9 then ProfileRule(u)
    else if k == 10 then UsernameRule(u)
    else ImageRule(u)
  }

  /** A reason appears in the alternative analysis exactly when its own rule pushes it. */
  lemma ReasonComesFromItsRule(u: TwitterUser, clock: Clock, r: Reason)
    ensures r in AnalyzeAlternative(u, clock).reasons <==> r in Reasons(AlternativeRule(u, clock, Rank(r)))
  {
    AlternativeReasonsByRule(u, clock, r);
    if r in Reasons(AgeRule(u, clock)) { InRuleBand(AgeRule(u, clock), 1, 1, r); }
    if r in Reasons(RatioRule(u)) { InRuleBand(RatioRule(u), 2, 3, r); }
    if r in Reasons(TweetRule(u)) { InRuleBand(TweetRule(u), 4, 6, r); }
    if r in Reasons(ActivityRule(u, clock)) { InRuleBand(ActivityRule(u, clock), 7, 8, r); }
    if r in Reasons(ProfileRule(u)) { InRuleBand(ProfileRule(u), 9, 9, r); }
    if r in Reasons(UsernameRule(u)) { InRuleBand(UsernameRule(u), 10, 10, r); }
    if r in Reasons(ImageRule(u)) { InRuleBand(ImageRule(u), 11, 11, r); }
  }

  /** The alternative classifier's reasons are the union of its rules' reasons. */
  lemma AlternativeReasonsByRule(u: TwitterUser, clock: Clock, r: Reason)
    ensures r in AnalyzeAlternative(u, clock).reasons <==>
      || r in Reasons(AgeRule(u, clock)) || r in Reasons(RatioRule(u)) || r in Reasons(TweetRule(u))
      || r in Reasons(ActivityRule(u, clock))
      || r in Reasons(ProfileRule(u)) || r in Reasons(UsernameRule(u)) || r in Reasons(ImageRule(u))
  {
    var age, ratio, tweets, act := AgeRule(u, clock), RatioRule(u), TweetRule(u), ActivityRule(u, clock);
    var profile, name, image := ProfileRule(u), UsernameRule(u), ImageRule(u);
    AlternativeSplits(u, clock);
    var s1 := age + ratio;
    var s2 := s1 + tweets;
    var s3 := s2 + act;
    var tail := profile + name;
    ReasonsIn(s3, tail + image, r);
    ReasonsIn(s2, act, r);
    ReasonsIn(s1, tweets, r);
    ReasonsIn(age, ratio, r);
    ReasonsIn(tail, image, r);
    ReasonsIn(profile, name, r);
  }


  /** The condition under which the alternative service pushes `r`, read off the rule table
      rather than the hit lists. "Very few tweets" covers every count below 5 except 0,
      negative counts included; the activity reasons need a present, parsable date. */
  ghost predicate AlternativeFires(u: TwitterUser, clock: Clock, r: Reason) {
    match r
    case NewAccount => AccountAge(u, clock).Some? && AccountAge(u, clock).value < 30
    case UnusualRatio => RatioAbove(u, 10)
    case HighRatio => !RatioAbove(u, 10) && RatioAbove(u, 5)
    case NoTweets => u.tweetCount == 0
    case ExcessiveTweets => u.tweetCount > 10000
    case FewTweets => u.tweetCount != 0 && u.tweetCount < 5
    case InactiveYear =>
      HasLastTweet(u) && DaysSinceLastTweet(u, clock).Some? && DaysSinceLastTweet(u, clock).value > 365
    case InactiveHalfYear =>
      HasLastTweet(u) && DaysSinceLastTweet(u, clock).Some? && 180 < DaysSinceLastTweet(u, clock).value <= 365
    case IncompleteProfile => IncompleteDescription(u)
    case BotLikeName => BotPatterns.BotLike(u.username)
    case DefaultImage => DefaultLookingImage(u)
  }

  /** Every reason is pushed exactly when its condition holds. */
  lemma AlternativeReasonsExplained(u: TwitterUser, clock: Clock, r: Reason)
    ensures r in AnalyzeAlternative(u, clock).reasons <==> AlternativeFires(u, clock, r)
  {
    ReasonComesFromItsRule(u, clock, r);
    if Rank(r) <= 6 {
      EarlyRulesFire(u, clock, r);
    } else {
      LateRulesFire(u, clock, r);
    }
  }

  lemma EarlyRulesFire(u: TwitterUser, clock: Clock, r: Reason)
    requires Rank(r) <= 6
    ensures r in Reasons(AlternativeRule(u, clock, Rank(r))) <==> AlternativeFires(u, clock, r)
  {
  }

  lemma LateRulesFire(u: TwitterUser, clock: Clock, r: Reason)
    requires Rank(r) > 6
    ensures r in Reasons(AlternativeRule(u, clock, Rank(r))) <==> AlternativeFires(u, clock, r)
  {
  }

  /** The OAuth service pushes a reason exactly when the alternative service would push it for
      the record without its last-tweet date: the activity reasons never, every other reason
      on the same condition. */
  lemma OAuthReasonsExplained(u: TwitterUser, clock: Clock, r: Reason)
    ensures r in AnalyzeOAuth(u, clock).reasons <==>
      r != InactiveYear && r != InactiveHalfYear && AlternativeFires(u, clock, r)
  {
    var v := u.(lastTweetDate := None);
    OAuthIgnoresLastTweet(u, v, clock);
    assert ActivityRule(v, clock) == [];
    SilentActivityAgrees(v, clock);
    AlternativeReasonsExplained(v, clock, r);
  }

  /** The condition under which the reduced service of `twitterService.ts` pushes `r`: one
      ratio reason above ten times, no "few tweets", only the year of inactivity, no username
      rule, and an image rule that looks for `default_profile` alone. */
  ghost predicate ReducedFires(u: TwitterUser, clock: Clock, r: Reason) {
    match r
    case NewAccount => AccountAge(u, clock).Some? && AccountAge(u, clock).value < 30
    case UnusualRatio => RatioAbove(u, 10)
    case HighRatio => false
    case NoTweets => u.tweetCount == 0
    case ExcessiveTweets => u.tweetCount > 10000
    case FewTweets => false
    case InactiveYear =>
      HasLastTweet(u) && DaysSinceLastTweet(u, clock).Some? && DaysSinceLastTweet(u, clock).value > 365
    case InactiveHalfYear => false
    case IncompleteProfile => IncompleteDescription(u)
    case BotLikeName => false
    case DefaultImage => Strings.Contains(u.profileImageUrl, "default_profile")
  }

  /** The reduced classifier's reasons are the union of its rules' reasons. */
  lemma ReducedReasonsByRule(u: TwitterUser, clock: Clock, r: Reason)
    ensures r in AnalyzeReduced(u, clock).reasons <==>
      || r in Reasons(AgeRule(u, clock)) || r in Reasons(RatioRuleReduced(u))
      || r in Reasons(TweetRuleReduced(u)) || r in Reasons(ActivityRuleReduced(u, clock))
      || r in Reasons(ProfileRule(u)) || r in Reasons(ImageRuleReduced(u))
  {
    var age, ratio, tweets := AgeRule(u, clock), RatioRuleReduced(u), TweetRuleReduced(u);
    var act, profile, image := ActivityRuleReduced(u, clock), ProfileRule(u), ImageRuleReduced(u);
    var s1 := age + ratio;
    var s2 := s1 + tweets;
    var s3 := s2 + act;
    var s4 := s3 + profile;
    assert ReducedHits(u, clock) == s4 + image;
    ReasonsIn(s4, image, r);
    ReasonsIn(s3, profile, r);
    ReasonsIn(s2, act, r);
    ReasonsIn(s1, tweets, r);
    ReasonsIn(age, ratio, r);
  }

  /** Every reason is pushed by the reduced service exactly when its condition holds. */
  lemma ReducedReasonsExplained(u: TwitterUser, clock: Clock, r: Reason)
    ensures r in AnalyzeReduced(u, clock).reasons <==> ReducedFires(u, clock, r)
  {
    ReducedReasonsByRule(u, clock, r);
    ReducedEarlyRulesFire(u, clock, r);
    ReducedLateRulesFire(u, clock, r);
  }

  /** The age, ratio and tweet rules of the reduced service push only their own reasons, each
      exactly on its condition. */
  lemma ReducedEarlyRulesFire(u: TwitterUser, clock: Clock, r: Reason)
    ensures r in Reasons(AgeRule(u, clock)) <==> r == NewAccount && ReducedFires(u, clock, r)
    ensures r in Reasons(RatioRuleReduced(u)) <==> r == UnusualRatio && ReducedFires(u, clock, r)
    ensures r in Reasons(TweetRuleReduced(u)) <==> (r == NoTweets || r == ExcessiveTweets) && ReducedFires(u, clock, r)
  {
  }

  /** The activity, profile and image rules of the reduced service push only their own
      reasons, each exactly on its condition. */
  lemma ReducedLateRulesFire(u: TwitterUser, clock: Clock, r: Reason)
    ensures r in Reasons(ActivityRuleReduced(u, clock)) <==> r == InactiveYear && ReducedFires(u, clock, r)
    ensures r in Reasons(ProfileRule(u)) <==> r == IncompleteProfile && ReducedFires(u, clock, r)
    ensures r in Reasons(ImageRuleReduced(u)) <==> r == DefaultImage && ReducedFires(u, clock, r)
  {
  }

  /** Followers mapped from the platform's API carry no last-tweet date, so the alternative
      service scores them exactly as the OAuth service does, and both call them inactive. */
  lemma ApiFollowerScoresAlike(a: ApiUser, clock: Clock)
    ensures AnalyzeAlternative(MapApiUser(a), clock) == AnalyzeOAuth(MapApiUser(a), clock)
    ensures AnalyzeOAuth(MapApiUser(a), clock).isInactive
  {
    SilentActivityAgrees(MapApiUser(a), clock);
  }

  /** An API follower without an image gets the placeholder, which always costs the
      default-image reason. */
  lemma ApiMissingImageFlagged(a: ApiUser, clock: Clock)
    requires a.profileImageUrl.None? || a.profileImageUrl == Some("")
    ensures DefaultImage in AnalyzeOAuth(MapApiUser(a), clock).reasons
  {
    var u := MapApiUser(a);
    PlaceholderLooksDefault(u);
    AlternativeReasonsExplained(u, clock, DefaultImage);
    ApiFollowerScoresAlike(a, clock);
  }

  /** A third-party follower without a last-tweet date scores alike under the two services. */
  lemma ThirdPartyUndatedScoresAlike(d: ThirdPartyUser, clock: Clock)
    requires d.lastTweetDate.None? || d.lastTweetDate == Some("")
    ensures AnalyzeAlternative(MapToTwitterUser(d), clock) == AnalyzeOAuth(MapToTwitterUser(d), clock)
  {
    SilentActivityAgrees(MapToTwitterUser(d), clock);
  }

  /** A third-party follower without an image is flagged by the alternative service. */
  lemma ThirdPartyMissingImageFlagged(d: ThirdPartyUser, clock: Clock)
    requires d.profileImageUrl.None? || d.profileImageUrl == Some("")
    ensures DefaultImage in AnalyzeAlternative(MapToTwitterUser(d), clock).reasons
  {
    var u := MapToTwitterUser(d);
    PlaceholderLooksDefault(u);
    AlternativeReasonsExplained(u, clock, DefaultImage);
  }
}
