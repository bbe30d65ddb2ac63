/**
 * The rules of `analyzeUser`. The three services repeat the same rule bodies with small
 * differences; each rule is written here once, with the reduced form that
 * `twitterService.ts` uses next to the full one.
 *
 * A rule yields at most one `Hit`: the points it adds (in hundredths) and the reason it pushes.
 * A service concatenates the hits of its rules in evaluation order and `Conclude`s.
 */
module Rules {
  import opened Options
  import opened Accounts
  import Strings
  import BotPatterns

  /** `botScore > 0.5` */
  const BotThreshold: int := 50

  /** `Math.min(botScore, 1)` */
  const ScoreCap: int := 100

  datatype Hit = Hit(points: nat, reason: Reason)

  /** The running `botScore` after all hits. */
  function Points(hits: seq<Hit>): nat
    decreases |hits|
  {
    if hits == [] then 0 else hits[0].points + Points(hits[1..])
  }

  /** The `reasons` array: one entry per hit, in order. */
  function Reasons(hits: seq<Hit>): (reasons: seq<Reason>)
    ensures |reasons| == |hits|
    ensures forall k :: 0 <= k < |hits| ==> reasons[k] == hits[k].reason
  {
    seq(|hits|, k requires 0 <= k < |hits| => hits[k].reason)
  }

  /** The rule table, independently of any service: the points each reason stands for. */
  function Weight(reason: Reason): nat {
    match reason
    case NewAccount => 20
    case UnusualRatio => 30
    case HighRatio => 15
    case NoTweets => 20
    case ExcessiveTweets => 15
    case FewTweets => 10
    case InactiveYear => 25
    case InactiveHalfYear => 15
    case IncompleteProfile => 10
    case BotLikeName => 20
    case DefaultImage => 10
  }

  /** The rule table's order: age, ratio, tweets, activity, profile, username, image. */
  function Rank(reason: Reason): nat {
    match reason
    case NewAccount => 1
    case UnusualRatio => 2
    case HighRatio => 3
    case NoTweets => 4
    case ExcessiveTweets => 5
    case FewTweets => 6
    case InactiveYear => 7
    case InactiveHalfYear => 8
    case IncompleteProfile => 9
    case BotLikeName => 10
    case DefaultImage => 11
  }

  /** Reasons listed in rule-table order, each at most once. */
  predicate InTableOrder(reasons: seq<Reason>) {
    forall i, j :: 0 <= i < j < |reasons| ==> Rank(reasons[i]) < Rank(reasons[j])
  }

  /** The sum of the table weights of the listed reasons. */
  function WeightSum(reasons: seq<Reason>): nat
    decreases |reasons|
  {
    if reasons == [] then 0 else Weight(reasons[0]) + WeightSum(reasons[1..])
  }

  /** The score a list of reasons stands for, capped as the services cap it. */
  function ScoreOfReasons(reasons: seq<Reason>): nat {
    if WeightSum(reasons) > ScoreCap then ScoreCap else WeightSum(reasons)
  }

  /** A hit as the rule table defines it: a reason text with its table weight. */
  predicate TableHit(h: Hit) {
    h.points == Weight(h.reason)
  }

  /** At most one hit, from the table, with a rank in `lo..hi`: what one rule yields. */
  predicate RuleOutput(hits: seq<Hit>, lo: nat, hi: nat) {
    |hits| <= 1 && forall k :: 0 <= k < |hits| ==> TableHit(hits[k]) && lo <= Rank(hits[k].reason) <= hi
  }

  /** Hits from the table whose reasons are in table order and rank at most `hi`. */
  predicate OrderedBelow(hits: seq<Hit>, hi: nat) {
    && (forall k :: 0 <= k < |hits| ==> TableHit(hits[k]) && Rank(hits[k].reason) <= hi)
    && InTableOrder(Reasons(hits))
  }

  /** Appending the output of a later rule keeps the hits in table order. */
  lemma AppendRule(hits: seq<Hit>, hi: nat, next: seq<Hit>, lo: nat, top: nat)
    requires OrderedBelow(hits, hi)
    requires hi < lo <= top
    requires RuleOutput(next, lo, top)
    ensures OrderedBelow(hits + next, top)
  {
    var all := hits + next;
    var rs := Reasons(all);
    forall i, j | 0 <= i < j < |rs| ensures Rank(rs[i]) < Rank(rs[j]) {
      if j < |hits| {
        assert rs[i] == Reasons(hits)[i] && rs[j] == Reasons(hits)[j];
      } else {
        assert rs[j] == next[j - |hits|].reason;
        assert i < |hits|;
        assert rs[i] == hits[i].reason;
      }
    }
    forall k | 0 <= k < |all| ensures TableHit(all[k]) && Rank(all[k].reason) <= top {
      if k >= |hits| {
        assert all[k] == next[k - |hits|];
      }
    }
  }

  lemma {:induction false} PointsAppend(a: seq<Hit>, b: seq<Hit>)
    ensures Points(a + b) == Points(a) + Points(b)
    decreases |a|
  {
    if a != [] {
      assert (a + b)[1..] == a[1..] + b;
      PointsAppend(a[1..], b);
    } else {
      assert a + b == b;
    }
  }

  lemma ReasonsAppend(a: seq<Hit>, b: seq<Hit>)
    ensures Reasons(a + b) == Reasons(a) + Reasons(b)
  {
  }

  /** Appending the output of a later rule: table order is kept and the points add up. */
  lemma Compose(hits: seq<Hit>, hi: nat, most: nat, next: seq<Hit>, lo: nat, top: nat, add: nat)
    requires OrderedBelow(hits, hi) && Points(hits) <= most
    requires hi < lo <= top
    requires RuleOutput(next, lo, top) && Points(next) <= add
    ensures OrderedBelow(hits + next, top) && Points(hits + next) <= most + add
  {
    AppendRule(hits, hi, next, lo, top);
    PointsAppend(hits, next);
  }

  /** One reason per hit and points equal to the reasons' table weights: the score can be
      recomputed from the reasons alone. */
  lemma {:induction false} PointsAreReasonWeights(hits: seq<Hit>)
    requires forall k :: 0 <= k < |hits| ==> TableHit(hits[k])
    ensures Points(hits) == WeightSum(Reasons(hits))
    decreases |hits|
  {
    if hits != [] {
      PointsAreReasonWeights(hits[1..]);
      assert Reasons(hits)[1..] == Reasons(hits[1..]);
    }
  }

  /** The end of every `analyzeUser`: `isBot` is decided on the uncapped sum, the returned
      score is capped at 1, and the reasons are returned as pushed. */
  function Conclude(hits: seq<Hit>, inactive: bool): (a: Analysis)
    ensures 0 <= a.botScore <= ScoreCap
    ensures a.botScore <= Points(hits)
    ensures a.botScore == Points(hits) || a.botScore == ScoreCap
    ensures a.isBot <==> a.botScore > BotThreshold
    ensures a.reasons == Reasons(hits)
    ensures a.isInactive == inactive
  {
    var raw := Points(hits);
    Analysis(raw > BotThreshold, if raw < ScoreCap then raw else ScoreCap, inactive, Reasons(hits))
  }

  /** For hits in table order, the concluded reasons are in table order and the score is the
      capped weight of those reasons. */
  lemma ConclusionFromReasons(hits: seq<Hit>, hi: nat, inactive: bool)
    requires OrderedBelow(hits, hi)
    ensures InTableOrder(Conclude(hits, inactive).reasons)
    ensures Conclude(hits, inactive).botScore == ScoreOfReasons(Conclude(hits, inactive).reasons)
  {
    PointsAreReasonWeights(hits);
  }

  // ---------------------------------------------------------------------------
  // The rules, in evaluation order.

  /** Rule 1: an account younger than 30 days. A creation date that does not parse gives
      `NaN < 30`, which is false. */
  function AgeRule(u: TwitterUser, clock: Clock): (hits: seq<Hit>)
    ensures RuleOutput(hits, 1, 1)
    ensures Points(hits) <= 20
  {
    match AccountAge(u, clock)
    case Some(days) => if days < 30 then [Hit(20, NewAccount)] else []
    case None => []
  }

  /** `Math.max(n, 1)` */
  function AtLeastOne(n: int): (m: int)
    ensures m >= 1 && m >= n
  {
    if n > 1 then n else 1
  }

  /** `followingCount / Math.max(followersCount, 1) > times`, decided without dividing. */
  predicate RatioAbove(u: TwitterUser, times: int) {
    u.followingCount > times * AtLeastOne(u.followersCount)
  }

  lemma DivisionAbove(x: real, m: real, t: real)
    requires m > 0.0
    ensures x / m > t <==> x > t * m
  {
    var q := x / m;
    assert q * m == x;
    if q > t {
      assert q * m > t * m;
    }
    if x > t * m {
      assert q * m > t * m;
    }
  }

  /** The comparison without division is the source's division: the divisor is at least one,
      so no follower count, zero or negative, divides by zero or flips the comparison. */
  lemma RatioAboveIsDivision(u: TwitterUser, times: int)
    ensures RatioAbove(u, times) <==>
      (u.followingCount as real) / (AtLeastOne(u.followersCount) as real) > times as real
  {
    var m := AtLeastOne(u.followersCount);
    DivisionAbove(u.followingCount as real, m as real, times as real);
    assert (times as real) * (m as real) == (times * m) as real;
  }

  /** Rule 2 (OAuth and alternative services): ratio above 10, else above 5. */
  function RatioRule(u: TwitterUser): (hits: seq<Hit>)
    ensures RuleOutput(hits, 2, 3)
    ensures Points(hits) <= 30
  {
    if RatioAbove(u, 10) then [Hit(30, UnusualRatio)]
    else if RatioAbove(u, 5) then [Hit(15, HighRatio)]
    else []
  }

  /** Rule 2 as `twitterService.ts` has it: only the tier above 10. */
  function RatioRuleReduced(u: TwitterUser): (hits: seq<Hit>)
    ensures RuleOutput(hits, 2, 2)
    ensures Points(hits) <= 30
  {
    if RatioAbove(u, 10) then [Hit(30, UnusualRatio)] else []
  }

  /** Rule 3 (OAuth and alternative services): no tweets, else more than 10000, else fewer than 5. */
  function TweetRule(u: TwitterUser): (hits: seq<Hit>)
    ensures RuleOutput(hits, 4, 6)
    ensures Points(hits) <= 20
  {
    if u.tweetCount == 0 then [Hit(20, NoTweets)]
    else if u.tweetCount > 10000 then [Hit(15, ExcessiveTweets)]
    else if u.tweetCount < 5 then [Hit(10, FewTweets)]
    else []
  }

  /** Rule 3 as `twitterService.ts` has it: no "very few" tier. */
  function TweetRuleReduced(u: TwitterUser): (hits: seq<Hit>)
    ensures RuleOutput(hits, 4, 5)
    ensures Points(hits) <= 20
  {
    if u.tweetCount == 0 then [Hit(20, NoTweets)]
    else if u.tweetCount > 10000 then [Hit(15, ExcessiveTweets)]
    else []
  }

  /** Rule 4 (alternative service): only with a last-tweet date; more than 365 days, else more
      than 180. */
  function ActivityRule(u: TwitterUser, clock: Clock): (hits: seq<Hit>)
    ensures RuleOutput(hits, 7, 8)
    ensures Points(hits) <= 25
  {
    if !HasLastTweet(u) then []
    else
      match DaysSinceLastTweet(u, clock)
      case Some(days) =>
        if days > 365 then [Hit(25, InactiveYear)]
        else if days > 180 then [Hit(15, InactiveHalfYear)]
        else []
      case None => []
  }

  /** Rule 4 as `twitterService.ts` has it: only the tier above 365 days. */
  function ActivityRuleReduced(u: TwitterUser, clock: Clock): (hits: seq<Hit>)
    ensures RuleOutput(hits, 7, 7)
    ensures Points(hits) <= 25
  {
    if !HasLastTweet(u) then []
    else
      match DaysSinceLastTweet(u, clock)
      case Some(days) => if days > 365 then [Hit(25, InactiveYear)] else []
      case None => []
  }

  /** `!user.description || user.description.length < 10`, with JavaScript's UTF-16 length. */
  predicate IncompleteDescription(u: TwitterUser) {
    match u.description
    case None => true
    case Some(d) => Strings.Utf16Length(d) < 10
  }

  /** Rule 5: missing or short description. */
  function ProfileRule(u: TwitterUser): (hits: seq<Hit>)
    ensures RuleOutput(hits, 9, 9)
    ensures Points(hits) <= 10
  {
    if IncompleteDescription(u) then [Hit(10, IncompleteProfile)] else []
  }

  /** Rule 6 (OAuth and alternative services): a bot-like username. */
  function UsernameRule(u: TwitterUser): (hits: seq<Hit>)
    ensures RuleOutput(hits, 10, 10)
    ensures Points(hits) <= 20
  {
    if BotPatterns.HasBotLikeUsername(u.username) then [Hit(20, BotLikeName)] else []
  }

  /** The image URL mentions `default_profile` or `placeholder`. */
  predicate DefaultLookingImage(u: TwitterUser) {
    Strings.Contains(u.profileImageUrl, "default_profile") || Strings.Contains(u.profileImageUrl, "placeholder")
  }

  /** The placeholder the importers and mappers substitute for a missing image always looks
      like a default image. */
  lemma PlaceholderLooksDefault(u: TwitterUser)
    requires u.profileImageUrl == PlaceholderImage
    ensures DefaultLookingImage(u)
  {
    assert Strings.OccursAt(PlaceholderImage, "placeholder", 12);
  }

  /** Rule 7 (OAuth and alternative services): a default-looking image. */
  function ImageRule(u: TwitterUser): (hits: seq<Hit>)
    ensures RuleOutput(hits, 11, 11)
    ensures Points(hits) <= 10
  {
    if DefaultLookingImage(u) then [Hit(10, DefaultImage)] else []
  }

  /** Rule 7 as `twitterService.ts` has it: only `default_profile` counts. */
  function ImageRuleReduced(u: TwitterUser): (hits: seq<Hit>)
    ensures RuleOutput(hits, 11, 11)
    ensures Points(hits) <= 10
  {
    if Strings.Contains(u.profileImageUrl, "default_profile") then [Hit(10, DefaultImage)] else []
  }
}
