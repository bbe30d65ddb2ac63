/**
 * The state kept by the `TwitterBotCleaner` page: the analysed followers, the statistics
 * shown above them, and the set of selected follower ids.
 *
 * Each state update (`setFollowers`, `setStats`, `setSelectedFollowers`, `setShowCSVImport`)
 * becomes a function from one `Page` to the next. Scores are in hundredths, as in `Rules`.
 */
module Cleaner {
  import opened Options
  import opened Accounts
  import opened Rules
  import OAuthService

  /** `botScore > 0.7`: a suspicious follower. */
  const SuspiciousAbove: int := 70

  /** `score > 0.8`: the red tier of the score colour. */
  const RedAbove: int := 80

  /** A follower as the page shows it: the record it was given, with the verdict of
      `analyzeUser` spread over it. */
  datatype Follower = Follower(user: TwitterUser, isBot: bool, isInactive: bool, botScore: int)

  /** The verdict fields as `analyzeUser` leaves them: the score is within 0..100 and the bot
      flag is the score being over the threshold. */
  predicate Consistent(f: Follower) {
    && 0 <= f.botScore <= ScoreCap
    && (f.isBot <==> f.botScore > BotThreshold)
  }

  /** The analysis loop of `analyzeFollowers` and the `map` of `handleCSVImport`: every record
      keeps its fields, in order, and gains the verdict of the OAuth service's `analyzeUser`. */
  function AnalyzeAll(users: seq<TwitterUser>, clock: Clock): (fs: seq<Follower>)
    ensures |fs| == |users|
    ensures forall i :: 0 <= i < |fs| ==> fs[i].user == users[i]
    ensures forall i :: 0 <= i < |fs| ==> Consistent(fs[i]) && fs[i].isInactive == IsInactive(users[i], clock)
  {
    seq(|users|, i requires 0 <= i < |users| =>
      var a := OAuthService.AnalyzeOAuth(users[i], clock);
      Follower(users[i], a.isBot, a.isInactive, a.botScore))
  }

  /** The three filters the statistics count, and the two `select all` buttons use. */
  datatype Criterion = Bots | Inactive | Suspicious

  predicate Meets(f: Follower, c: Criterion) {
    match c
    case Bots => f.isBot
    case Inactive => f.isInactive
    case Suspicious => f.botScore > SuspiciousAbove
  }

  /** `followers.filter(...)`: the followers meeting the criterion, in their order. */
  function Keep(fs: seq<Follower>, c: Criterion): (r: seq<Follower>)
    ensures |r| <= |fs|
    ensures forall f :: f in r <==> f in fs && Meets(f, c)
    ensures forall f :: multiset(r)[f] == if Meets(f, c) then multiset(fs)[f] else 0
    decreases |fs|
  {
    if fs == [] then []
    else
      assert fs == [fs[0]] + fs[1..];
      if Meets(fs[0], c) then [fs[0]] + Keep(fs[1..], c)
      else Keep(fs[1..], c)
  }

  /** Filtering a concatenation filters each part, so the kept followers stay in their order. */
  lemma {:induction false} KeepAppend(a: seq<Follower>, b: seq<Follower>, c: Criterion)
    ensures Keep(a + b, c) == Keep(a, c) + Keep(b, c)
    decreases |a|
  {
    if a == [] {
      assert a + b == b;
    } else {
      assert (a + b)[1..] == a[1..] + b;
      KeepAppend(a[1..], b, c);
    }
  }

  /** For each follower, whether it meets the criterion. */
  function MeetFlags(fs: seq<Follower>, c: Criterion): (flags: seq<bool>)
    ensures |flags| == |fs| && forall i :: 0 <= i < |fs| ==> flags[i] == Meets(fs[i], c)
  {
    seq(|fs|, i requires 0 <= i < |fs| => Meets(fs[i], c))
  }

  /** How many positions of the list hold a follower meeting the criterion. */
  function CountMeeting(fs: seq<Follower>, c: Criterion): nat {
    multiset(MeetFlags(fs, c))[true]
  }

  /** The filter keeps one follower per position that meets the criterion. */
  lemma {:induction false} KeepCount(fs: seq<Follower>, c: Criterion)
    ensures |Keep(fs, c)| == CountMeeting(fs, c)
    decreases |fs|
  {
    if fs != [] {
      assert MeetFlags(fs, c) == [Meets(fs[0], c)] + MeetFlags(fs[1..], c);
      KeepCount(fs[1..], c);
    }
  }

  datatype Stats = Stats(total: int, bots: int, inactive: int, suspicious: int)

  /** The object given to `setStats` after an analysis: how many followers there are, and how
      many of them are bots, inactive and suspicious. */
  function StatsOf(fs: seq<Follower>): (s: Stats)
    ensures s.total == |fs|
    ensures s.bots == CountMeeting(fs, Bots)
    ensures s.inactive == CountMeeting(fs, Inactive)
    ensures s.suspicious == CountMeeting(fs, Suspicious)
    ensures 0 <= s.bots <= s.total && 0 <= s.inactive <= s.total && 0 <= s.suspicious <= s.total
  {
    KeepCount(fs, Bots);
    KeepCount(fs, Inactive);
    KeepCount(fs, Suspicious);
    Stats(|fs|, |Keep(fs, Bots)|, |Keep(fs, Inactive)|, |Keep(fs, Suspicious)|)
  }

  /** Filtering by a weaker criterion keeps at least as many followers. */
  lemma {:induction false} KeepMonotone(fs: seq<Follower>, c: Criterion, d: Criterion)
    requires forall i :: 0 <= i < |fs| ==> Meets(fs[i], c) ==> Meets(fs[i], d)
    ensures |Keep(fs, c)| <= |Keep(fs, d)|
    decreases |fs|
  {
    if fs != [] {
      KeepMonotone(fs[1..], c, d);
    }
  }

  /** Among analysed followers a suspicious one is also a bot, so the suspicious count never
      exceeds the bot count. */
  lemma SuspiciousAtMostBots(fs: seq<Follower>)
    requires forall i :: 0 <= i < |fs| ==> Consistent(fs[i])
    ensures StatsOf(fs).suspicious <= StatsOf(fs).bots
  {
    KeepMonotone(fs, Suspicious, Bots);
  }

  // ---------------------------------------------------------------------------
  // the page

  datatype Page = Page(followers: seq<Follower>, selected: set<string>, stats: Stats, showImport: bool)

  /** The page before anything is loaded. */
  function InitialPage(): (p: Page)
    ensures p.followers == [] && p.selected == {} && p.stats == StatsOf([]) && !p.showImport
  {
    Page([], {}, Stats(0, 0, 0, 0), false)
  }

  /** The statistics on the page are those of the followers it shows. */
  predicate StatsCurrent(p: Page) {
    p.stats == StatsOf(p.followers)
  }

  /** `analyzeFollowers`: `fetched` is what `getFollowers` resolved to, `None` when it threw, in
      which case the page is left as it was. The selection is kept either way. */
  function LoadFollowers(p: Page, fetched: Option<seq<TwitterUser>>, clock: Clock): (q: Page)
    ensures fetched.None? ==> q == p
    ensures fetched.Some? ==> (
      && |q.followers| == |fetched.value| && StatsCurrent(q)
      && (forall i :: 0 <= i < |q.followers| ==> q.followers[i].user == fetched.value[i])
      && q.stats.suspicious <= q.stats.bots)
    ensures q.selected == p.selected && q.showImport == p.showImport
  {
    match fetched
    case None => p
    case Some(users) =>
      var fs := AnalyzeAll(users, clock);
      SuspiciousAtMostBots(fs);
      p.(followers := fs, stats := StatsOf(fs))
  }

  /** `handleCSVImport`: the imported records are analysed, the statistics recomputed, the
      import dialog closed. The selection is kept. */
  function ImportCsv(p: Page, users: seq<TwitterUser>, clock: Clock): (q: Page)
    ensures |q.followers| == |users| && StatsCurrent(q)
    ensures forall i :: 0 <= i < |q.followers| ==> q.followers[i].user == users[i]
    ensures q.stats.suspicious <= q.stats.bots
    ensures q.selected == p.selected && !q.showImport
  {
    var fs := AnalyzeAll(users, clock);
    SuspiciousAtMostBots(fs);
    p.(followers := fs, stats := StatsOf(fs), showImport := false)
  }

  /** `toggleFollowerSelection`: the id leaves the selection if it was in it and joins it
      otherwise; every other id keeps its state. */
  function Toggle(selected: set<string>, id: string): (r: set<string>)
    ensures id in r <==> id !in selected
    ensures forall x :: x != id ==> (x in r <==> x in selected)
  {
    if id in selected then selected - {id} else selected + {id}
  }

  lemma ToggleTwice(selected: set<string>, id: string)
    ensures Toggle(Toggle(selected, id), id) == selected
  {
    var once := Toggle(selected, id);
    assert forall x :: x in Toggle(once, id) <==> x in selected;
  }

  /** `filter(...).map(f => f.id)`. */
  function Ids(fs: seq<Follower>): (ids: seq<string>)
    ensures |ids| == |fs| && forall i :: 0 <= i < |fs| ==> ids[i] == fs[i].user.id
  {
    seq(|fs|, i requires 0 <= i < |fs| => fs[i].user.id)
  }

  /** `new Set(ids)`. */
  function SetOf(ids: seq<string>): (s: set<string>)
    ensures forall x :: x in s <==> x in ids
  {
    set x | x in ids
  }

  /** `selectAllBots` and `selectAllInactive`: the selection becomes the ids of the followers
      meeting the criterion, whatever it held before. */
  function SelectAll(p: Page, c: Criterion): (q: Page)
    requires c != Suspicious
    ensures forall x :: x in q.selected <==> exists i :: 0 <= i < |p.followers| && Meets(p.followers[i], c) && p.followers[i].user.id == x
    ensures q.followers == p.followers && q.stats == p.stats && q.showImport == p.showImport
  {
    KeptIds(p.followers, c);
    p.(selected := SetOf(Ids(Keep(p.followers, c))))
  }

  /** The ids of the kept followers are the ids of the followers meeting the criterion. */
  lemma KeptIds(fs: seq<Follower>, c: Criterion)
    ensures forall x :: x in SetOf(Ids(Keep(fs, c))) <==> exists i :: 0 <= i < |fs| && Meets(fs[i], c) && fs[i].user.id == x
  {
    var kept := Keep(fs, c);
    forall x | x in SetOf(Ids(kept))
      ensures exists i :: 0 <= i < |fs| && Meets(fs[i], c) && fs[i].user.id == x
    {
      var j :| 0 <= j < |kept| && Ids(kept)[j] == x;
      assert kept[j] in kept;
      var i :| 0 <= i < |fs| && fs[i] == kept[j];
    }
    forall i | 0 <= i < |fs| && Meets(fs[i], c)
      ensures fs[i].user.id in SetOf(Ids(kept))
    {
      assert fs[i] in fs;
      var j :| 0 <= j < |kept| && kept[j] == fs[i];
      assert Ids(kept)[j] == fs[i].user.id;
    }
  }

  /** `removeSelectedFollowers`: only an alert, then an empty selection; the followers stay. */
  function RemoveSelected(p: Page): (q: Page)
    ensures q.selected == {}
    ensures q.followers == p.followers && q.stats == p.stats && q.showImport == p.showImport
  {
    p.(selected := {})
  }

  /** No selection action touches the followers or their statistics, so statistics that were
      current stay current. */
  lemma SelectionKeepsStatsCurrent(p: Page, id: string, c: Criterion)
    requires StatsCurrent(p) && c != Suspicious
    ensures StatsCurrent(p.(selected := Toggle(p.selected, id)))
    ensures StatsCurrent(SelectAll(p, c)) && StatsCurrent(RemoveSelected(p))
  {
  }

  // ---------------------------------------------------------------------------
  // the score colour

  /** The three colour tiers of a score, shared by the page and the follower card. */
  datatype Tier = Red | Yellow | Green

  /** `getBotScoreColor`: over 0.8 red, over 0.5 yellow, otherwise green. */
  function ScoreTier(score: int): (t: Tier)
    ensures t == Red <==> score > RedAbove
    ensures t == Yellow <==> BotThreshold < score <= RedAbove
    ensures t == Green <==> score <= BotThreshold
  {
    if score > RedAbove then Red else if score > BotThreshold then Yellow else Green
  }

  /** The class name the page gives each tier. */
  function ScoreClass(t: Tier): string {
    match t
    case Red => "text-red-600"
    case Yellow => "text-yellow-600"
    case Green => "text-green-600"
  }

  /** For an analysed follower the score is coloured green exactly when it is not a bot, and a
      red score is always a suspicious one. */
  lemma ScoreColourShowsVerdict(f: Follower)
    requires Consistent(f)
    ensures ScoreTier(f.botScore) != Green <==> f.isBot
    ensures ScoreTier(f.botScore) == Red ==> Meets(f, Suspicious)
  {
  }
}
