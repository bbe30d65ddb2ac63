/**
 * The classifier of `oauthTwitterService.ts`, the one the cleaner screen calls, and the
 * pure parts of that service: the mapping of the platform's follower objects onto
 * `TwitterUser`, and the text of the PKCE verifier and challenge.
 */
module OAuthService {
  import opened Options
  import opened Accounts
  import opened Rules


  /** The counts the platform reports under `public_metrics`; any of them may be missing. */
  datatype PublicMetrics = PublicMetrics(followersCount: Option<int>, followingCount: Option<int>, tweetCount: Option<int>)

  /** One follower object of the platform's followers response. `id`, `username` and `name`
      are the default fields and always present; the requested extra fields may be missing. */
  datatype ApiUser = ApiUser(
    id: string,
    username: string,
    name: string,
    profileImageUrl: Option<string>,
    publicMetrics: Option<PublicMetrics>,
    createdAt: Option<string>,
    description: Option<string>,
    verified: Option<bool>,
    protected: Option<bool>)

  /** `user.public_metrics?.<count> || 0` */
  function MetricOr0(m: Option<PublicMetrics>, pick: PublicMetrics -> Option<int>): int {
    if m.Some? then pick(m.value).GetOr(0) else 0
  }

  /** The mapping of one follower object onto the record. No `lastTweetDate` is set. */
  function MapApiUser(a: ApiUser): (u: TwitterUser)
    ensures u.id == a.id && u.username == a.username && u.displayName == a.name
    ensures u.profileImageUrl == OrElse(a.profileImageUrl, PlaceholderImage)
    ensures u.createdAt == OrElse(a.createdAt, DefaultCreatedAt)
    ensures u.description == Some(OrElse(a.description, ""))
    ensures u.profileImageUrl != "" && u.createdAt != ""
    ensures u.lastTweetDate.None?
    ensures u.verified <==> a.verified == Some(true)
    ensures u.protected <==> a.protected == Some(true)
  {
    TwitterUser(
      id := a.id,
      username := a.username,
      displayName := a.name,
      profileImageUrl := OrElse(a.profileImageUrl, PlaceholderImage),
      followersCount := MetricOr0(a.publicMetrics, (m: PublicMetrics) => m.followersCount),
      followingCount := MetricOr0(a.publicMetrics, (m: PublicMetrics) => m.followingCount),
      tweetCount := MetricOr0(a.publicMetrics, (m: PublicMetrics) => m.tweetCount),
      createdAt := OrElse(a.createdAt, DefaultCreatedAt),
      lastTweetDate := None,
      description := Some(OrElse(a.description, "")),
      verified := a.verified.GetOr(false),
      protected := a.protected.GetOr(false))
  }

  /** `(data.data || []).map(...)`: a response without a `data` array maps to no followers. */
  function MapApiFollowers(data: Option<seq<ApiUser>>): (followers: seq<TwitterUser>)
    ensures data.None? ==> followers == []
    ensures data.Some? ==> |followers| == |data.value|
    ensures data.Some? ==> forall k :: 0 <= k < |followers| ==> followers[k] == MapApiUser(data.value[k])
  {
    match data
    case None => []
    case Some(users) => seq(|users|, k requires 0 <= k < |users| => MapApiUser(users[k]))
  }

  /** The mapping sets no last-tweet date, so every follower fetched from the platform is
      inactive, whatever the clock. */
  lemma ApiFollowersAreInactive(data: Option<seq<ApiUser>>, clock: Clock)
    ensures forall u :: u in MapApiFollowers(data) ==> IsInactive(u, clock)
  {
  }

  /** A reported count is kept as it is; a missing count, or missing `public_metrics`, reads as 0. */
  lemma ApiCountsRead(a: ApiUser)
    ensures a.publicMetrics.Some? ==>
      MapApiUser(a).followersCount == a.publicMetrics.value.followersCount.GetOr(0) &&
      MapApiUser(a).followingCount == a.publicMetrics.value.followingCount.GetOr(0) &&
      MapApiUser(a).tweetCount == a.publicMetrics.value.tweetCount.GetOr(0)
    ensures a.publicMetrics.None? ==>
      MapApiUser(a).followersCount == 0 && MapApiUser(a).followingCount == 0 && MapApiUser(a).tweetCount == 0
  {
  }

  /** The hits of `analyzeUser`: age, ratio, tweets, profile, username, image. This service
      has no activity rule. */
  function OAuthHits(u: TwitterUser, clock: Clock): (hits: seq<Hit>)
    ensures OrderedBelow(hits, 11)
    ensures Points(hits) <= 110
  {
    var age := AgeRule(u, clock);
    var ratio := RatioRule(u);
    var tweets := TweetRule(u);
    var profile := ProfileRule(u);
    var name := UsernameRule(u);
    var image := ImageRule(u);
    var s1 := age;
    assert OrderedBelow(s1, 1) && Points(s1) <= 20 by {
      Compose([], 0, 0, age, 1, 1, 20);
      assert [] + age == age;
    }
    var s2 := s1 + ratio;
    assert OrderedBelow(s2, 3) && Points(s2) <= 50 by {
      Compose(s1, 1, 20, ratio, 2, 3, 30);
    }
    var s3 := s2 + tweets;
    assert OrderedBelow(s3, 6) && Points(s3) <= 70 by {
      Compose(s2, 3, 50, tweets, 4, 6, 20);
    }
    var s4 := s3 + profile;
    assert OrderedBelow(s4, 9) && Points(s4) <= 80 by {
      Compose(s3, 6, 70, profile, 9, 9, 10);
    }
    var s5 := s4 + name;
    assert OrderedBelow(s5, 10) && Points(s5) <= 100 by {
      Compose(s4, 9, 80, name, 10, 10, 20);
    }
    var s6 := s5 + image;
    assert OrderedBelow(s6, 11) && Points(s6) <= 110 by {
      Compose(s5, 10, 100, image, 11, 11, 10);
    }
    s6
  }

  /** `analyzeUser` of the OAuth service. */
  function AnalyzeOAuth(u: TwitterUser, clock: Clock): (a: Analysis)
    ensures 0 <= a.botScore <= ScoreCap
    ensures a.isBot <==> a.botScore > BotThreshold
    ensures a.isInactive == IsInactive(u, clock)
    ensures InTableOrder(a.reasons)
    ensures a.botScore == ScoreOfReasons(a.reasons)
  {
    var hits := OAuthHits(u, clock);
    ConclusionFromReasons(hits, 11, IsInactive(u, clock));
    Conclude(hits, IsInactive(u, clock))
  }
}
