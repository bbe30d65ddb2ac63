/**
 * The integer parts of `TwitterStrategyDashboard`: the insights `generateInsights` pushes, and
 * the tweet total, hashtag ranking and content breakdown of `calculateStats`.
 *
 * Engagement rates are kept in hundredths (8.5 is 850). The hour of a tweet
 * (`new Date(created_at).getHours()`, in local time) is injected as `hourOf`, `None` for an
 * Invalid Date whose hour is `NaN`.
 */
module Strategy {
  import opened Options

  datatype ContentType = Text | Media | Link | Thread

  datatype Metrics = Metrics(retweets: int, replies: int, likes: int, quotes: int, impressions: Option<int>)

  datatype Tweet = Tweet(
    id: string,
    text: string,
    createdAt: string,
    metrics: Metrics,
    engagementRate: int,
    contentType: ContentType,
    hashtags: seq<string>,
    mentions: seq<string>)

  // ---------------------------------------------------------------------------
  // insights

  datatype InsightType = Timing | Content | Engagement | Trending {
    /** The order in which `generateInsights` considers the four kinds. */
    function Rank(): int {
      match this
      case Timing => 0
      case Content => 1
      case Engagement => 2
      case Trending => 3
    }
  }

  datatype Priority = High | Medium | Low

  datatype Insight = Insight(kind: InsightType, title: string, description: string, action: string, priority: Priority)

  const MorningInsight: Insight := Insight(Timing, "Morning Posts Perform Best",
    "Your tweets posted between 9-11 AM get 15% higher engagement",
    "Schedule more content for morning hours", High)

  const ContentInsight: Insight := Insight(Content, "Tech & Innovation Content Wins",
    "Posts about technology and innovation get 2x more engagement",
    "Create more content around tech trends and innovations", High)

  const EngagementInsight: Insight := Insight(Engagement, "Boost Engagement with Questions",
    "Tweets ending with questions get 40% more replies",
    "Add more questions to your tweets", Medium)

  const TrendingInsight: Insight := Insight(Trending, "AI Content Trending",
    "AI-related content is currently trending with 3x more engagement",
    "Create more AI-focused content", High)

  /** `engagement_rate > 8`. */
  const HighEngagementAbove: int := 800

  /** `avgEngagement < 5`. */
  const LowAverageBelow: int := 500

  /** Posted between 9 and 11 o'clock inclusive. `NaN` fails both comparisons. */
  predicate InMorning(t: Tweet, hourOf: string -> Option<int>) {
    match hourOf(t.createdAt)
    case Some(h) => 9 <= h <= 11
    case None => false
  }

  /** `tweets.filter(...).length > 0`. */
  predicate AnyMorning(tweets: seq<Tweet>, hourOf: string -> Option<int>) {
    exists i :: 0 <= i < |tweets| && InMorning(tweets[i], hourOf)
  }

  predicate AnyHighEngagement(tweets: seq<Tweet>) {
    exists i :: 0 <= i < |tweets| && tweets[i].engagementRate > HighEngagementAbove
  }

  function SumRates(tweets: seq<Tweet>): int
    decreases |tweets|
  {
    if tweets == [] then 0 else SumRates(tweets[..|tweets| - 1]) + tweets[|tweets| - 1].engagementRate
  }

  /** `sum / tweets.length < 5`. With no tweets the average is `0 / 0`, `NaN`, and the
      comparison is false. */
  predicate AverageBelowFive(tweets: seq<Tweet>) {
    |tweets| > 0 && SumRates(tweets) < LowAverageBelow * |tweets|
  }

  /** `generateInsights`: the timing, content and engagement insights when their conditions
      hold, in that order, and the trending insight always, last. */
  function GenerateInsights(tweets: seq<Tweet>, hourOf: string -> Option<int>): (r: seq<Insight>)
    ensures 1 <= |r| <= 4
    ensures r[|r| - 1] == TrendingInsight
    ensures forall i, j :: 0 <= i < j < |r| ==> r[i].kind.Rank() < r[j].kind.Rank()
    ensures MorningInsight in r <==> AnyMorning(tweets, hourOf)
    ensures ContentInsight in r <==> AnyHighEngagement(tweets)
    ensures EngagementInsight in r <==> AverageBelowFive(tweets)
  {
    Insights(AnyMorning(tweets, hourOf), AnyHighEngagement(tweets), AverageBelowFive(tweets))
  }

  /** The insights pushed for the outcomes of the three tests. */
  function Insights(morning: bool, highEngagement: bool, lowAverage: bool): (r: seq<Insight>)
    ensures 1 <= |r| <= 4
    ensures r[|r| - 1] == TrendingInsight
    ensures forall i, j :: 0 <= i < j < |r| ==> r[i].kind.Rank() < r[j].kind.Rank()
    ensures MorningInsight in r <==> morning
    ensures ContentInsight in r <==> highEngagement
    ensures EngagementInsight in r <==> lowAverage
  {
    var timing := if morning then [MorningInsight] else [];
    var content := if highEngagement then [ContentInsight] else [];
    var engagement := if lowAverage then [EngagementInsight] else [];
    timing + content + engagement + [TrendingInsight]
  }

  // ---------------------------------------------------------------------------
  // hashtags

  /** Every hashtag of every tweet, in the order the nested `forEach` visits them. */
  function AllTags(tweets: seq<Tweet>): (tags: seq<string>)
    ensures forall tag :: tag in tags <==> exists i :: 0 <= i < |tweets| && tag in tweets[i].hashtags
    decreases |tweets|
  {
    if tweets == [] then []
    else
      var prefix := tweets[..|tweets| - 1];
      var last := tweets[|tweets| - 1];
      var tags := AllTags(prefix) + last.hashtags;
      assert forall i :: 0 <= i < |prefix| ==> prefix[i] == tweets[i];
      tags
  }

  /** How often `tag` occurs among the tweets' hashtags. */
  function TagCount(tweets: seq<Tweet>, tag: string): nat {
    multiset(AllTags(tweets))[tag]
  }

  function CountOf(counts: map<string, int>, tag: string): int {
    if tag in counts then counts[tag] else 0
  }

  /** `counts[tag] = (counts[tag] || 0) + 1` for each tag in turn. */
  function AddTags(counts: map<string, int>, tags: seq<string>): (r: map<string, int>)
    ensures forall tag :: tag in r <==> tag in counts || tag in tags
    ensures forall tag :: CountOf(r, tag) == CountOf(counts, tag) + multiset(tags)[tag]
    decreases |tags|
  {
    if tags == [] then counts
    else
      var tag := tags[0];
      var r := AddTags(counts[tag := CountOf(counts, tag) + 1], tags[1..]);
      assert tags == [tag] + tags[1..];
      r
  }

  /** The `hashtagCounts` object: a tag is a key when it occurs, and maps to how often it does. */
  function HashtagCounts(tweets: seq<Tweet>): (counts: map<string, int>)
    ensures forall tag :: tag in counts <==> tag in AllTags(tweets)
    ensures forall tag :: CountOf(counts, tag) == TagCount(tweets, tag)
  {
    AddTags(map[], AllTags(tweets))
  }

  /** The keys of the counts object, each once, in the order they were first added. */
  function FirstSeen(tags: seq<string>): (keys: seq<string>)
    ensures Distinct(keys)
    ensures forall tag :: tag in keys <==> tag in tags
    decreases |tags|
  {
    if tags == [] then []
    else
      var keys := FirstSeen(tags[..|tags| - 1]);
      var last := tags[|tags| - 1];
      assert forall tag :: tag in tags <==> tag in tags[..|tags| - 1] || tag == last by {
        assert tags == tags[..|tags| - 1] + [last];
      }
      if last in keys then keys else keys + [last]
  }

  predicate Distinct(s: seq<string>) {
    forall i, j :: 0 <= i < j < |s| ==> s[i] != s[j]
  }

  /** Non-increasing by count. */
  predicate ByCount(s: seq<string>, counts: map<string, int>) {
    forall i, j :: 0 <= i < j < |s| ==> CountOf(counts, s[i]) >= CountOf(counts, s[j])
  }

  /** Places `x` after every element whose count is at least its own. */
  function Insert(x: string, s: seq<string>, counts: map<string, int>): (r: seq<string>)
    ensures multiset(r) == multiset(s) + multiset{x}
    decreases |s|
  {
    if s == [] then [x]
    else if CountOf(counts, s[0]) >= CountOf(counts, x) then
      assert s == [s[0]] + s[1..];
      [s[0]] + Insert(x, s[1..], counts)
    else [x] + s
  }

  /** Inserting into a list ordered by count keeps it ordered. */
  lemma {:induction false} InsertKeepsOrder(x: string, s: seq<string>, counts: map<string, int>)
    requires ByCount(s, counts)
    ensures ByCount(Insert(x, s, counts), counts)
    decreases |s|
  {
    if s != [] && CountOf(counts, s[0]) >= CountOf(counts, x) {
      var rest := Insert(x, s[1..], counts);
      InsertKeepsOrder(x, s[1..], counts);
      HeadAboveRest(s, x, rest, counts);
    }
  }

  /** The head of an ordered list is at least every element of a list made of its tail and an
      element no larger than it. */
  lemma HeadAboveRest(s: seq<string>, x: string, rest: seq<string>, counts: map<string, int>)
    requires s != [] && ByCount(s, counts) && ByCount(rest, counts)
    requires CountOf(counts, s[0]) >= CountOf(counts, x)
    requires multiset(rest) == multiset(s[1..]) + multiset{x}
    ensures ByCount([s[0]] + rest, counts)
  {
    var r := [s[0]] + rest;
    forall j | 1 <= j < |r| ensures CountOf(counts, s[0]) >= CountOf(counts, r[j]) {
      assert r[j] == rest[j - 1];
      assert r[j] in multiset(rest);
      if r[j] != x {
        assert r[j] in multiset(s[1..]);
        var k :| 0 <= k < |s[1..]| && s[1..][k] == r[j];
        assert s[k + 1] == r[j];
      }
    }
    forall i, j | 1 <= i < j < |r| ensures CountOf(counts, r[i]) >= CountOf(counts, r[j]) {
      assert r[i] == rest[i - 1] && r[j] == rest[j - 1];
    }
  }

  /** `sort(([,a], [,b]) => b - a)`: a stable insertion sort, by count, largest first. */
  function SortByCount(s: seq<string>, counts: map<string, int>): (r: seq<string>)
    ensures multiset(r) == multiset(s)
    ensures ByCount(r, counts)
    decreases |s|
  {
    if s == [] then []
    else
      assert s == s[..|s| - 1] + [s[|s| - 1]];
      var sorted := SortByCount(s[..|s| - 1], counts);
      InsertKeepsOrder(s[|s| - 1], sorted, counts);
      Insert(s[|s| - 1], sorted, counts)
  }

  /** `.slice(0, 5)`. */
  function FirstFive(sorted: seq<string>): (top: seq<string>)
    ensures |top| <= 5
  {
    if |sorted| <= 5 then sorted else sorted[..5]
  }

  /** `.slice(0, 5).map(([tag]) => tag)` of the sorted entries: at most five tags, each once,
      each occurring in some tweet, the most frequent first; a tag is left out only when five
      tags at least as frequent are in. Which of several equally frequent tags make the cut
      depends on the key order of the counts object and is not stated. */
  function TopHashtags(tweets: seq<Tweet>): (top: seq<string>)
    ensures IsTopFive(tweets, top)
  {
    var counts := HashtagCounts(tweets);
    var keys := FirstSeen(AllTags(tweets));
    RankedFirstFive(keys, counts);
    FirstFive(SortByCount(keys, counts))
  }

  /** `top` lists at most five distinct tags of the tweets, the most frequent first, and leaves
      a tag out only when five tags at least as frequent are in. */
  predicate IsTopFive(tweets: seq<Tweet>, top: seq<string>) {
    && |top| <= 5 && Distinct(top)
    && (forall tag :: tag in top ==> exists i :: 0 <= i < |tweets| && tag in tweets[i].hashtags)
    && (forall i, j :: 0 <= i < j < |top| ==> TagCount(tweets, top[i]) >= TagCount(tweets, top[j]))
    && (forall tag :: tag in AllTags(tweets) && tag !in top ==>
      |top| == 5 && forall k :: 0 <= k < 5 ==> TagCount(tweets, tag) <= TagCount(tweets, top[k]))
  }

  /** The first five of the keys sorted by count: distinct keys, ordered, and none left out
      that outranks one kept. */
  lemma RankedFirstFive(keys: seq<string>, counts: map<string, int>)
    requires Distinct(keys)
    ensures var top := FirstFive(SortByCount(keys, counts));
      && Distinct(top)
      && ByCount(top, counts)
      && (forall x :: x in top ==> x in keys)
      && (forall x :: x in keys && x !in top ==>
            |top| == 5 && forall k :: 0 <= k < 5 ==> CountOf(counts, x) <= CountOf(counts, top[k]))
  {
    var sorted := SortByCount(keys, counts);
    SameElements(keys, sorted);
    DistinctMultiplicity(keys);
    DistinctMultiplicity(sorted);
    LeftOutRankLower(sorted, counts);
  }

  lemma SameElements(a: seq<string>, b: seq<string>)
    requires multiset(a) == multiset(b)
    ensures forall x :: x in a <==> x in b
  {
    forall x ensures x in a <==> x in b {
      assert x in a <==> x in multiset(a);
      assert x in b <==> x in multiset(b);
    }
  }

  /** A list has no duplicates exactly when no element occurs twice in its multiset. */
  lemma {:induction false} DistinctMultiplicity(s: seq<string>)
    ensures Distinct(s) <==> forall x :: multiset(s)[x] <= 1
    decreases |s|
  {
    if s != [] {
      var t := s[1..];
      assert s == [s[0]] + t;
      DistinctMultiplicity(t);
      if Distinct(s) {
        assert s[0] !in t by {
          forall j | 0 <= j < |t| ensures t[j] != s[0] {
            assert t[j] == s[j + 1];
          }
        }
        assert Distinct(t) by {
          forall i, j | 0 <= i < j < |t| ensures t[i] != t[j] {
            assert t[i] == s[i + 1] && t[j] == s[j + 1];
          }
        }
      }
      if forall x :: multiset(s)[x] <= 1 {
        assert multiset(s)[s[0]] == 1 + multiset(t)[s[0]];
        assert forall x :: multiset(t)[x] <= multiset(s)[x];
        forall i, j | 0 <= i < j < |s| ensures s[i] != s[j] {
          if i == 0 {
            assert s[j] == t[j - 1];
            assert s[j] in t;
          } else {
            assert s[i] == t[i - 1] && s[j] == t[j - 1];
          }
        }
      }
    }
  }

  /** Cutting an ordered list after five elements leaves out nothing that outranks what is kept. */
  lemma LeftOutRankLower(sorted: seq<string>, counts: map<string, int>)
    requires ByCount(sorted, counts) && Distinct(sorted)
    ensures var top := FirstFive(sorted);
      && Distinct(top) && ByCount(top, counts)
      && (forall x :: x in top ==> x in sorted)
      && (forall x :: x in sorted && x !in top ==>
            |top| == 5 && forall k :: 0 <= k < 5 ==> CountOf(counts, x) <= CountOf(counts, top[k]))
  {
    var top := FirstFive(sorted);
    assert forall k :: 0 <= k < |top| ==> top[k] == sorted[k];
    forall x | x in sorted && x !in top
      ensures |top| == 5 && forall k :: 0 <= k < 5 ==> CountOf(counts, x) <= CountOf(counts, top[k])
    {
      var i :| 0 <= i < |sorted| && sorted[i] == x;
      assert |top| <= i;
    }
  }

  // ---------------------------------------------------------------------------
  // content breakdown

  function Tally(breakdown: map<ContentType, int>, c: ContentType): int {
    if c in breakdown then breakdown[c] else 0
  }

  /** The four tallies together. */
  function Total(breakdown: map<ContentType, int>): int {
    Tally(breakdown, Text) + Tally(breakdown, Media) + Tally(breakdown, Link) + Tally(breakdown, Thread)
  }

  /** The content types of the tweets, in order. */
  function Kinds(tweets: seq<Tweet>): (kinds: seq<ContentType>)
    ensures |kinds| == |tweets| && forall i :: 0 <= i < |tweets| ==> kinds[i] == tweets[i].contentType
  {
    seq(|tweets|, i requires 0 <= i < |tweets| => tweets[i].contentType)
  }

  /** How many tweets have content type `c`. */
  function TypeCount(tweets: seq<Tweet>, c: ContentType): nat {
    multiset(Kinds(tweets))[c]
  }

  /** Some tweet has content type `c`. */
  predicate HasType(tweets: seq<Tweet>, c: ContentType) {
    exists i :: 0 <= i < |tweets| && tweets[i].contentType == c
  }

  /** `breakdown` is a content breakdown of `tweets`: a content type is a key when some tweet
      has it, each type is tallied with the number of tweets of that type, every key counts at
      least one tweet, and the counts add up to the number of tweets. */
  predicate IsBreakdown(tweets: seq<Tweet>, breakdown: map<ContentType, int>) {
    && (forall c :: c in breakdown <==> HasType(tweets, c))
    && (forall c :: Tally(breakdown, c) == TypeCount(tweets, c))
    && (forall c :: c in breakdown ==> breakdown[c] >= 1)
    && Total(breakdown) == |tweets|
  }

  /** The `contentBreakdown` object. */
  function ContentBreakdown(tweets: seq<Tweet>): (breakdown: map<ContentType, int>)
    ensures IsBreakdown(tweets, breakdown)
    decreases |tweets|
  {
    if tweets == [] then map[]
    else
      var prefix, last := tweets[..|tweets| - 1], tweets[|tweets| - 1];
      var before := ContentBreakdown(prefix);
      assert tweets == prefix + [last];
      BreakdownStep(prefix, last, before);
      before[last.contentType := Tally(before, last.contentType) + 1]
  }

  /** Counting one more tweet keeps a breakdown a breakdown. */
  lemma BreakdownStep(prefix: seq<Tweet>, t: Tweet, before: map<ContentType, int>)
    requires IsBreakdown(prefix, before)
    ensures IsBreakdown(prefix + [t], before[t.contentType := Tally(before, t.contentType) + 1])
  {
    var tweets, c := prefix + [t], t.contentType;
    var after := before[c := Tally(before, c) + 1];
    TypeCountStep(prefix, t);
    assert forall d :: Tally(after, d) == TypeCount(tweets, d);
    HasTypeStep(prefix, t);
    assert forall d :: d in after <==> HasType(tweets, d);
    assert forall d :: d in after ==> after[d] >= 1;
    BreakdownTotal(before, c);
  }

  /** One more tweet adds one to the count of its own type and leaves the other counts. */
  lemma TypeCountStep(prefix: seq<Tweet>, t: Tweet)
    ensures forall c :: TypeCount(prefix + [t], c) == TypeCount(prefix, c) + (if c == t.contentType then 1 else 0)
  {
    assert Kinds(prefix + [t]) == Kinds(prefix) + [t.contentType];
  }

  lemma HasTypeStep(prefix: seq<Tweet>, t: Tweet)
    ensures forall c :: HasType(prefix + [t], c) <==> HasType(prefix, c) || c == t.contentType
  {
    var tweets := prefix + [t];
    assert forall i :: 0 <= i < |prefix| ==> tweets[i] == prefix[i];
    assert tweets[|prefix|] == t;
  }

  lemma BreakdownTotal(before: map<ContentType, int>, c: ContentType)
    ensures Total(before[c := Tally(before, c) + 1]) == Total(before) + 1
  {
    var after := before[c := Tally(before, c) + 1];
    assert Tally(after, c) == Tally(before, c) + 1;
    assert forall d :: d != c ==> Tally(after, d) == Tally(before, d);
  }

  // ---------------------------------------------------------------------------
  // statistics

  /** The integer fields of the object `calculateStats` returns. */
  datatype DashboardStats = DashboardStats(totalTweets: int, topHashtags: seq<string>, contentBreakdown: map<ContentType, int>)

  /** `calculateStats`. With no tweets the source fails while picking the best time slot
      (`[0][0]` of an empty list), so it needs at least one tweet. */
  function CalculateStats(tweets: seq<Tweet>): (s: DashboardStats)
    requires |tweets| > 0
    ensures s.totalTweets == |tweets|
    ensures IsTopFive(tweets, s.topHashtags)
    ensures IsBreakdown(tweets, s.contentBreakdown)
  {
    DashboardStats(|tweets|, TopHashtags(tweets), ContentBreakdown(tweets))
  }
}
