/**
 * Worked examples of the classifiers on concrete followers, with a fixed clock: "now" is day
 * 400 of the epoch, and only the dates named below parse.
 */
module Scenarios {
  import opened Options
  import opened Accounts
  import opened Rules
  import opened Strings
  import opened BotPatterns
  import opened OAuthService
  import opened AlternativeService
  import VariantFacts

  lemma UsernameCaseMatters()
    ensures HasBotLikeUsername("ab123")
    ensures !HasBotLikeUsername("AB123")
  {
    assert LettersThenDigitsAt("ab123", 1, 1, 3);
    var u := "AB123";
    forall i | 0 <= i < |u| - 1
      ensures !PairAt(u, i, 'b', 'o') && !PairAt(u, i, 's', 'p') && !PairAt(u, i, 'f', 'a') && !PairAt(u, i, 'a', 'u')
    {
    }
    NoWordWithoutPair(u, "bot");
    NoWordWithoutPair(u, "spam");
    NoWordWithoutPair(u, "fake");
    NoWordWithoutPair(u, "auto");
    forall i: nat | i <= |u| ensures !DigitRunAt(u, i, 4) && !LettersThenDigitsAt(u, i, 1, 3) {
      if i + 4 <= |u| { assert !IsDigit(u[i]) && !IsLowerAscii(u[i]); }
    }
  }

  /** "now" is day 400 of the epoch; "day-0" is the epoch, "day-395" five days ago, and no
      other date parses. */
  function ExampleClock(): Clock {
    Clock(400 * MsPerDay, d => if d == "day-0" then Some(0) else if d == "day-395" then Some(395 * MsPerDay) else None)
  }

  /** An image file name shorter than both markers, so neither can occur in it. */
  const ExampleImage: string := "me.jpg"

  lemma ExampleImageIsNotDefault(u: TwitterUser)
    requires u.profileImageUrl == ExampleImage
    ensures !DefaultLookingImage(u)
  {
  }

  lemma QuietNameIsNotBotLike()
    ensures !HasBotLikeUsername("janedoe42")
  {
    var name := "janedoe42";
    forall i | 0 <= i < |name| - 1
      ensures !PairAt(name, i, 'b', 'o') && !PairAt(name, i, 's', 'p') && !PairAt(name, i, 'f', 'a') && !PairAt(name, i, 'a', 'u')
    {
    }
    NoWordWithoutPair(name, "bot");
    NoWordWithoutPair(name, "spam");
    NoWordWithoutPair(name, "fake");
    NoWordWithoutPair(name, "auto");
    forall i: nat | i <= |name| ensures !DigitRunAt(name, i, 4) && !LettersThenDigitsAt(name, i, 1, 3) {
      if i + 4 <= |name| { assert !IsDigit(name[i]) && !IsDigit(name[i + 1]); }
    }
  }

  /** A long-standing account with no tweets and no last-tweet date. */
  predicate QuietPerson(u: TwitterUser) {
    && u.username == "janedoe42" && u.profileImageUrl == ExampleImage
    && u.followersCount == 0 && u.followingCount == 0 && u.tweetCount == 0
    && u.createdAt == "day-0" && u.lastTweetDate.None? && u.description == Some("A real person")
  }

  /** Of the seven rules only the tweet rule fires for the quiet person. */
  lemma QuietPersonRules(u: TwitterUser, c: Clock)
    requires QuietPerson(u) && c == ExampleClock()
    ensures AgeRule(u, c) == [] && RatioRule(u) == [] && ActivityRule(u, c) == []
    ensures TweetRule(u) == [Hit(20, NoTweets)]
    ensures ProfileRule(u) == [] && UsernameRule(u) == [] && ImageRule(u) == []
  {
    assert UsernameRule(u) == [] by { QuietNameIsNotBotLike(); }
    assert ImageRule(u) == [] by { ExampleImageIsNotDefault(u); }
  }

  lemma QuietPersonHits(u: TwitterUser, c: Clock)
    requires QuietPerson(u) && c == ExampleClock()
    ensures OAuthHits(u, c) == [Hit(20, NoTweets)]
    ensures AlternativeHits(u, c) == [Hit(20, NoTweets)]
  {
    QuietPersonRules(u, c);
    VariantFacts.AlternativeSplits(u, c);
    var hits: seq<Hit> := [Hit(20, NoTweets)];
    assert [] + [] + hits + [] + ([] + [] + []) == hits;
    assert [] + [] + hits + ([] + [] + []) == hits;
  }

  /** Only "No tweets" fires, so the score is 0.2 and the account is no bot, but it is inactive.
      The activity rule adds nothing for an absent date. */
  lemma QuietPersonExample(u: TwitterUser, c: Clock)
    requires QuietPerson(u) && c == ExampleClock()
    ensures AnalyzeAlternative(u, c) == Analysis(false, 20, true, [NoTweets])
    ensures AnalyzeOAuth(u, c) == Analysis(false, 20, true, [NoTweets])
  {
    var hits := [Hit(20, NoTweets)];
    QuietPersonHits(u, c);
    ConcludeHits(u, c, hits, true);
    QuietPersonPoints(hits);
  }

  lemma QuietPersonPoints(hits: seq<Hit>)
    requires hits == [Hit(20, NoTweets)]
    ensures Conclude(hits, true) == Analysis(false, 20, true, [NoTweets])
  {
    assert Points(hits) == 20;
    assert Reasons(hits)[0] == NoTweets;
  }

  /** An analysis follows from the hits and the inactivity flag alone. */
  lemma ConcludeHits(u: TwitterUser, c: Clock, hits: seq<Hit>, inactive: bool)
    requires IsInactive(u, c) == inactive
    ensures AlternativeHits(u, c) == hits ==> AnalyzeAlternative(u, c) == Conclude(hits, inactive)
    ensures OAuthHits(u, c) == hits ==> AnalyzeOAuth(u, c) == Conclude(hits, inactive)
  {
  }

  /** A five-day-old account named like a bot, following 5000 with 2 followers, with no tweets
      and an empty description. */
  predicate NewBot(u: TwitterUser) {
    && u.username == "bot_12345" && u.profileImageUrl == ExampleImage
    && u.followersCount == 2 && u.followingCount == 5000 && u.tweetCount == 0
    && u.createdAt == "day-395" && u.lastTweetDate.None? && u.description == Some("")
  }

  /** Of the six OAuth rules all but the image rule fire for the new bot. */
  lemma NewBotRules(u: TwitterUser, c: Clock)
    requires NewBot(u) && c == ExampleClock()
    ensures AgeRule(u, c) == [Hit(20, NewAccount)] && RatioRule(u) == [Hit(30, UnusualRatio)]
    ensures TweetRule(u) == [Hit(20, NoTweets)] && ProfileRule(u) == [Hit(10, IncompleteProfile)]
    ensures UsernameRule(u) == [Hit(20, BotLikeName)] && ImageRule(u) == []
  {
    assert WordAt(u.username, "bot", 0);
    ExampleImageIsNotDefault(u);
  }

  /** The five hits add up to 1.0. */
  lemma NewBotPoints(hits: seq<Hit>)
    requires hits == [Hit(20, NewAccount), Hit(30, UnusualRatio), Hit(20, NoTweets), Hit(10, IncompleteProfile), Hit(20, BotLikeName)]
    ensures Conclude(hits, true) == Analysis(true, 100, true, [NewAccount, UnusualRatio, NoTweets, IncompleteProfile, BotLikeName])
  {
    var h5 := [Hit(20, BotLikeName)];
    var h4 := [Hit(10, IncompleteProfile)] + h5;
    var h3 := [Hit(20, NoTweets)] + h4;
    var h2 := [Hit(30, UnusualRatio)] + h3;
    assert hits == [Hit(20, NewAccount)] + h2;
    assert h5[1..] == [] && h4[1..] == h5 && h3[1..] == h4 && h2[1..] == h3 && hits[1..] == h2;
    assert Points(h5) == 20 && Points(h4) == 30 && Points(h3) == 50 && Points(h2) == 80;
    assert Points(hits) == 100;
  }

  /** Five rules fire and the score reaches the cap. */
  lemma NewBotExample(u: TwitterUser, c: Clock)
    requires NewBot(u) && c == ExampleClock()
    ensures AnalyzeOAuth(u, c) ==
      Analysis(true, 100, true, [NewAccount, UnusualRatio, NoTweets, IncompleteProfile, BotLikeName])
  {
    var hits := [Hit(20, NewAccount), Hit(30, UnusualRatio), Hit(20, NoTweets), Hit(10, IncompleteProfile), Hit(20, BotLikeName)];
    NewBotRules(u, c);
    VariantFacts.AlternativeSplits(u, c);
    assert OAuthHits(u, c) == hits;
    ConcludeHits(u, c, hits, true);
    NewBotPoints(hits);
  }
}
