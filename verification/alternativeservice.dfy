/**
 * The classifier of `alternativeTwitterService.ts`, the full rule set: the OAuth rules
 * plus an activity rule on the last-tweet date.
 */
module AlternativeService {
  import opened Options
  import opened Accounts
  import opened Rules

  /** A follower object from a third-party service. Every key may be missing, and some come
      under either of two names. */
  datatype ThirdPartyUser = ThirdPartyUser(
    id: Option<string>,
    userId: Option<string>,
    username: Option<string>,
    screenName: Option<string>,
    displayName: Option<string>,
    name: Option<string>,
    profileImageUrl: Option<string>,
    followersCount: Option<int>,
    friendsCount: Option<int>,
    statusesCount: Option<int>,
    createdAt: Option<string>,
    lastTweetDate: Option<string>,
    description: Option<string>,
    verified: Option<bool>,
    protected: Option<bool>)

  /** `first || second` on two optional strings; when both are missing or empty the result is
      the second key's value, `undefined` (here the empty string) if it is missing too. */
  function Either(first: Option<string>, second: Option<string>): (r: string)
    ensures first.Some? && first.value != "" ==> r == first.value
    ensures (first.None? || first.value == "") ==> r == second.GetOr("")
  {
    if first.Some? && first.value != "" then first.value else second.GetOr("")
  }

  /** `value || 0` on an optional count: missing and 0 both give 0. */
  function CountOr0(n: Option<int>): (r: int)
    ensures n.Some? ==> r == n.value
    ensures n.None? ==> r == 0
  {
    n.GetOr(0)
  }

  /** `mapToTwitterUser`. The last-tweet date is passed through as it is, an empty one
      included. */
  function MapToTwitterUser(d: ThirdPartyUser): (u: TwitterUser)
    ensures u.id == Either(d.id, d.userId)
    ensures u.username == Either(d.username, d.screenName)
    ensures u.displayName == Either(d.displayName, d.name)
    ensures u.profileImageUrl == OrElse(d.profileImageUrl, PlaceholderImage)
    ensures u.createdAt == OrElse(d.createdAt, DefaultCreatedAt)
    ensures u.description == Some(OrElse(d.description, ""))
    ensures u.followersCount == CountOr0(d.followersCount)
    ensures u.followingCount == CountOr0(d.friendsCount)
    ensures u.tweetCount == CountOr0(d.statusesCount)
    ensures u.lastTweetDate == d.lastTweetDate
    ensures u.verified <==> d.verified == Some(true)
    ensures u.protected <==> d.protected == Some(true)
  {
    TwitterUser(
      id := Either(d.id, d.userId),
      username := Either(d.username, d.screenName),
      displayName := Either(d.displayName, d.name),
      profileImageUrl := Either(d.profileImageUrl, Some(PlaceholderImage)),
      followersCount := CountOr0(d.followersCount),
      followingCount := CountOr0(d.friendsCount),
      tweetCount := CountOr0(d.statusesCount),
      createdAt := Either(d.createdAt, Some(DefaultCreatedAt)),
      lastTweetDate := d.lastTweetDate,
      description := Some(Either(d.description, Some(""))),
      verified := d.verified.GetOr(false),
      protected := d.protected.GetOr(false))
  }

  /** The fallback keys: `user_id` stands in for a missing or empty `id`, `screen_name` for
      `username`, `name` for `display_name`; the following count is read from `friends_count`. */
  lemma MapToTwitterUserFallbacks(d: ThirdPartyUser)
    ensures d.id.None? || d.id == Some("") ==> MapToTwitterUser(d).id == d.userId.GetOr("")
    ensures d.username.None? || d.username == Some("") ==> MapToTwitterUser(d).username == d.screenName.GetOr("")
    ensures d.displayName.None? || d.displayName == Some("") ==> MapToTwitterUser(d).displayName == d.name.GetOr("")
    ensures d.id.Some? && d.id.value != "" ==> MapToTwitterUser(d).id == d.id.value
    ensures d.username.Some? && d.username.value != "" ==> MapToTwitterUser(d).username == d.username.value
    ensures d.displayName.Some? && d.displayName.value != "" ==> MapToTwitterUser(d).displayName == d.displayName.value
    ensures MapToTwitterUser(d).followersCount == d.followersCount.GetOr(0)
    ensures MapToTwitterUser(d).followingCount == d.friendsCount.GetOr(0)
    ensures MapToTwitterUser(d).tweetCount == d.statusesCount.GetOr(0)
  {
  }

  /** The hits of `analyzeUser`: age, ratio, tweets, activity, profile, username, image. */
  function AlternativeHits(u: TwitterUser, clock: Clock): (hits: seq<Hit>)
    ensures OrderedBelow(hits, 11)
    ensures Points(hits) <= 135
  {
    var age := AgeRule(u, clock);
    var ratio := RatioRule(u);
    var tweets := TweetRule(u);
    var activity := ActivityRule(u, clock);
    var profile := ProfileRule(u);
    var name := UsernameRule(u);
    var image := ImageRule(u);
    var s1 := age;
    assert OrderedBelow(s1, 1) && Points(s1) <= 20 by {
      Compose([], 0, 0, age, 1, 1, 20);
      assert [] + age == age;
    }
    var s2 := s1 + ratio;
    assert OrderedBelow(s2, 3) && Points(s2) <= 50 by {
      Compose(s1, 1, 20, ratio, 2, 3, 30);
    }
    var s3 := s2 + tweets;
    assert OrderedBelow(s3, 6) && Points(s3) <= 70 by {
      Compose(s2, 3, 50, tweets, 4, 6, 20);
    }
    var s4 := s3 + activity;
    assert OrderedBelow(s4, 8) && Points(s4) <= 95 by {
      Compose(s3, 6, 70, activity, 7, 8, 25);
    }
    var s5 := s4 + profile;
    assert OrderedBelow(s5, 9) && Points(s5) <= 105 by {
      Compose(s4, 8, 95, profile, 9, 9, 10);
    }
    var s6 := s5 + name;
    assert OrderedBelow(s6, 10) && Points(s6) <= 125 by {
      Compose(s5, 9, 105, name, 10, 10, 20);
    }
    var s7 := s6 + image;
    assert OrderedBelow(s7, 11) && Points(s7) <= 135 by {
      Compose(s6, 10, 125, image, 11, 11, 10);
    }
    s7
  }

  /** `analyzeUser` of the alternative service. */
  function AnalyzeAlternative(u: TwitterUser, clock: Clock): (a: Analysis)
    ensures 0 <= a.botScore <= ScoreCap
    ensures a.isBot <==> a.botScore > BotThreshold
    ensures a.isInactive == IsInactive(u, clock)
    ensures InTableOrder(a.reasons)
    ensures a.botScore == ScoreOfReasons(a.reasons)
  {
    var hits := AlternativeHits(u, clock);
    ConclusionFromReasons(hits, 11, IsInactive(u, clock));
    Conclude(hits, IsInactive(u, clock))
  }
}
