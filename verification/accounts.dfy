/**
 * The follower record shared by the three services (`TwitterUser`), the analysis they
 * return (`BotAnalysisResult`), and the day arithmetic on dates.
 *
 * Dates stay the strings the importers produce. Reading them (`new Date(s).getTime()`) and
 * the wall clock (`new Date()`) are injected as a `Clock`: `parse` yields a millisecond
 * timestamp, or `None` for an Invalid Date, whose `getTime()` is `NaN`.
 */
module Accounts {
  import opened Options

  /** The image URL the importers substitute when none is given. */
  const PlaceholderImage: string := "https://via.placeholder.com/48"

  /** The creation date the importers substitute when none is given. */
  const DefaultCreatedAt: string := "2020-01-01"

  /** `1000 * 60 * 60 * 24` */
  const MsPerDay: int := 86_400_000

  /** A last tweet older than this many days makes a follower inactive. */
  const InactiveAfterDays: int := 180

  datatype TwitterUser = TwitterUser(
    id: string,
    username: string,
    displayName: string,
    profileImageUrl: string,
    followersCount: int,
    followingCount: int,
    tweetCount: int,
    createdAt: string,
    lastTweetDate: Option<string>,
    description: Option<string>,
    verified: bool,
    protected: bool)

  /** The reasons a classifier can push, one per rule outcome. */
  datatype Reason =
    | NewAccount | UnusualRatio | HighRatio
    | NoTweets | ExcessiveTweets | FewTweets
    | InactiveYear | InactiveHalfYear
    | IncompleteProfile | BotLikeName | DefaultImage
  {
    /** The text the services push into `reasons`. */
    function Text(): string {
      match this
      case NewAccount => "New account (less than 30 days)"
      case UnusualRatio => "Unusual following/follower ratio"
      case HighRatio => "High following/follower ratio"
      case NoTweets => "No tweets"
      case ExcessiveTweets => "Excessive tweet count"
      case FewTweets => "Very few tweets"
      case InactiveYear => "Inactive for over a year"
      case InactiveHalfYear => "Inactive for over 6 months"
      case IncompleteProfile => "Incomplete profile"
      case BotLikeName => "Bot-like username pattern"
      case DefaultImage => "Default profile image"
    }
  }

  /** The reason a pushed text stands for, if any. */
  function ReasonOfText(text: string): Option<Reason> {
    if text == NewAccount.Text() then Some(NewAccount)
    else if text == UnusualRatio.Text() then Some(UnusualRatio)
    else if text == HighRatio.Text() then Some(HighRatio)
    else if text == NoTweets.Text() then Some(NoTweets)
    else if text == ExcessiveTweets.Text() then Some(ExcessiveTweets)
    else if text == FewTweets.Text() then Some(FewTweets)
    else if text == InactiveYear.Text() then Some(InactiveYear)
    else if text == InactiveHalfYear.Text() then Some(InactiveHalfYear)
    else if text == IncompleteProfile.Text() then Some(IncompleteProfile)
    else if text == BotLikeName.Text() then Some(BotLikeName)
    else if text == DefaultImage.Text() then Some(DefaultImage)
    else None
  }

  /** Each reason is recovered from its text, so no two reasons share one. */
  lemma ReasonTextRoundTrip(r: Reason)
    ensures ReasonOfText(r.Text()) == Some(r)
  {
    match r
    case NewAccount | UnusualRatio | HighRatio | NoTweets | ExcessiveTweets | FewTweets => TextsOfAgeRatioTweets(r);
    case InactiveYear | InactiveHalfYear | IncompleteProfile => TextsOfActivityProfile(r);
    case BotLikeName | DefaultImage => TextsOfNameImage(r);
  }

  lemma TextsOfAgeRatioTweets(r: Reason)
    requires r.NewAccount? || r.UnusualRatio? || r.HighRatio? || r.NoTweets? || r.ExcessiveTweets? || r.FewTweets?
    ensures ReasonOfText(r.Text()) == Some(r)
  {
    match r
    case NewAccount => assert ReasonOfText(NewAccount.Text()) == Some(NewAccount);
    case UnusualRatio => assert ReasonOfText(UnusualRatio.Text()) == Some(UnusualRatio);
    case HighRatio => assert ReasonOfText(HighRatio.Text()) == Some(HighRatio);
    case NoTweets => assert ReasonOfText(NoTweets.Text()) == Some(NoTweets);
    case ExcessiveTweets => assert ReasonOfText(ExcessiveTweets.Text()) == Some(ExcessiveTweets);
    case FewTweets => assert ReasonOfText(FewTweets.Text()) == Some(FewTweets);
  }

  lemma TextsOfActivityProfile(r: Reason)
    requires r.InactiveYear? || r.InactiveHalfYear? || r.IncompleteProfile?
    ensures ReasonOfText(r.Text()) == Some(r)
  {
    match r
    case InactiveYear => assert ReasonOfText(InactiveYear.Text()) == Some(InactiveYear);
    case InactiveHalfYear => assert ReasonOfText(InactiveHalfYear.Text()) == Some(InactiveHalfYear);
    case IncompleteProfile => assert ReasonOfText(IncompleteProfile.Text()) == Some(IncompleteProfile);
  }

  lemma TextsOfNameImage(r: Reason)
    requires r.BotLikeName? || r.DefaultImage?
    ensures ReasonOfText(r.Text()) == Some(r)
  {
    match r
    case BotLikeName => assert ReasonOfText(BotLikeName.Text()) == Some(BotLikeName);
    case DefaultImage => assert ReasonOfText(DefaultImage.Text()) == Some(DefaultImage);
  }

  /** What the classifier returns. `botScore` is in hundredths: 0.35 is 35. The reasons are
      kept as `Reason` values; `Text` gives the string each stands for. */
  datatype Analysis = Analysis(isBot: bool, botScore: int, isInactive: bool, reasons: seq<Reason>)

  /** The current instant and the date reader. */
  datatype Clock = Clock(now: int, parse: string -> Option<int>)

  /** `Math.floor((now - then) / MsPerDay)`: whole days elapsed, rounded towards minus infinity,
      so a date in the future gives a negative count. */
  function DaysBetween(now: int, since: int): (days: int)
    ensures days * MsPerDay <= now - since < (days + 1) * MsPerDay
  {
    (now - since) / MsPerDay
  }

  /** Days from `date` to now; `None` when `date` does not parse, where the source computes `NaN`. */
  function DaysSince(clock: Clock, date: string): (days: Option<int>)
    ensures days.Some? <==> clock.parse(date).Some?
    ensures days.Some? ==> days.value * MsPerDay <= clock.now - clock.parse(date).value < (days.value + 1) * MsPerDay
  {
    match clock.parse(date)
    case None => None
    case Some(t) => Some(DaysBetween(clock.now, t))
  }

  /** `getAccountAge(user.createdAt)`. */
  function AccountAge(u: TwitterUser, clock: Clock): Option<int>
  {
    DaysSince(clock, u.createdAt)
  }

  /** `if (user.lastTweetDate)`: the date is present and is not the empty string. */
  predicate HasLastTweet(u: TwitterUser) {
    u.lastTweetDate.Some? && u.lastTweetDate.value != ""
  }

  /** `getDaysSinceLastTweet(user.lastTweetDate)`. */
  function DaysSinceLastTweet(u: TwitterUser, clock: Clock): Option<int>
    requires HasLastTweet(u)
  {
    DaysSince(clock, u.lastTweetDate.value)
  }

  /** `isInactive`, the same in all three services: no last tweet at all, or one more than
      180 days ago. A last-tweet date that does not parse gives `NaN > 180`, which is false. */
  predicate IsInactive(u: TwitterUser, clock: Clock) {
    if !HasLastTweet(u) then true
    else
      match DaysSinceLastTweet(u, clock)
      case Some(days) => days > InactiveAfterDays
      case None => false
  }

  /** Inactivity reads the last-tweet date and nothing else of the record. */
  lemma InactivityReadsOnlyLastTweet(u: TwitterUser, v: TwitterUser, clock: Clock)
    requires u.lastTweetDate == v.lastTweetDate
    ensures IsInactive(u, clock) == IsInactive(v, clock)
  {
  }

  /** A follower with no last-tweet date is inactive whatever the clock says. */
  lemma NoLastTweetIsInactive(u: TwitterUser, clock: Clock)
    requires u.lastTweetDate.None? || u.lastTweetDate == Some("")
    ensures IsInactive(u, clock)
  {
  }
}
