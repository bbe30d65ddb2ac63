/**
 * The classifier of `twitterService.ts`, a reduced rule set: one ratio tier, no "very few
 * tweets" tier, one activity tier, no username rule, and only `default_profile` images.
 */
module ReducedService {
  import opened Options
  import opened Accounts
  import opened Rules

  /** The hits of `analyzeUser`: age, ratio, tweets, activity, profile, image. */
  function ReducedHits(u: TwitterUser, clock: Clock): (hits: seq<Hit>)
    ensures OrderedBelow(hits, 11)
    ensures Points(hits) <= 115
  {
    var age := AgeRule(u, clock);
    var ratio := RatioRuleReduced(u);
    var tweets := TweetRuleReduced(u);
    var activity := ActivityRuleReduced(u, clock);
    var profile := ProfileRule(u);
    var image := ImageRuleReduced(u);
    var s1 := age;
    assert OrderedBelow(s1, 1) && Points(s1) <= 20 by {
      Compose([], 0, 0, age, 1, 1, 20);
      assert [] + age == age;
    }
    var s2 := s1 + ratio;
    assert OrderedBelow(s2, 2) && Points(s2) <= 50 by {
      Compose(s1, 1, 20, ratio, 2, 2, 30);
    }
    var s3 := s2 + tweets;
    assert OrderedBelow(s3, 5) && Points(s3) <= 70 by {
      Compose(s2, 2, 50, tweets, 4, 5, 20);
    }
    var s4 := s3 + activity;
    assert OrderedBelow(s4, 7) && Points(s4) <= 95 by {
      Compose(s3, 5, 70, activity, 7, 7, 25);
    }
    var s5 := s4 + profile;
    assert OrderedBelow(s5, 9) && Points(s5) <= 105 by {
      Compose(s4, 7, 95, profile, 9, 9, 10);
    }
    var s6 := s5 + image;
    assert OrderedBelow(s6, 11) && Points(s6) <= 115 by {
      Compose(s5, 9, 105, image, 11, 11, 10);
    }
    s6
  }

  /** `analyzeUser` of `twitterService.ts`. */
  function AnalyzeReduced(u: TwitterUser, clock: Clock): (a: Analysis)
    ensures 0 <= a.botScore <= ScoreCap
    ensures a.isBot <==> a.botScore > BotThreshold
    ensures a.isInactive == IsInactive(u, clock)
    ensures InTableOrder(a.reasons)
    ensures a.botScore == ScoreOfReasons(a.reasons)
  {
    var hits := ReducedHits(u, clock);
    ConclusionFromReasons(hits, 11, IsInactive(u, clock));
    Conclude(hits, IsInactive(u, clock))
  }
}
