/**
 * The helpers of `FollowerCard`: the status shown for a follower (text, colour and icon, each
 * its own chain of `if`s), the colour of its score badge, and the account-age label.
 */
module FollowerCard {
  import opened Options
  import opened Strings
  import opened Accounts
  import opened Rules
  import opened Cleaner

  // ---------------------------------------------------------------------------
  // status

  /** `getStatusText`: Bot ranks over Inactive over Active, so a follower that is both a bot
      and inactive reads "Bot". */
  function StatusText(f: Follower): (t: string)
    ensures t == "Bot" <==> f.isBot
    ensures t == "Inactive" <==> !f.isBot && f.isInactive
    ensures t == "Active" <==> !f.isBot && !f.isInactive
  {
    if f.isBot then "Bot" else if f.isInactive then "Inactive" else "Active"
  }

  /** `getStatusColor`, as the tier of its class name: it follows the text. */
  function StatusColour(f: Follower): (c: Tier)
    ensures c == Red <==> StatusText(f) == "Bot"
    ensures c == Yellow <==> StatusText(f) == "Inactive"
    ensures c == Green <==> StatusText(f) == "Active"
  {
    if f.isBot then Red else if f.isInactive then Yellow else Green
  }

  datatype Shape = AlertTriangle | CheckCircle

  /** The icon `getStatusIcon` draws: its shape and the tier of its colour. */
  datatype Icon = Icon(shape: Shape, tier: Tier)

  /** `getStatusIcon`: coloured like the status, a check mark only for "Active". */
  function StatusIcon(f: Follower): (i: Icon)
    ensures i.tier == StatusColour(f)
    ensures i.shape == CheckCircle <==> StatusText(f) == "Active"
  {
    if f.isBot then Icon(AlertTriangle, Red)
    else if f.isInactive then Icon(AlertTriangle, Yellow)
    else Icon(CheckCircle, Green)
  }

  // ---------------------------------------------------------------------------
  // score badge

  /** The card's `getBotScoreColor`: the same three tiers as the page, with a background. */
  function BadgeClass(score: int): (c: string)
    ensures ScoreTier(score) == Red ==> c == "text-red-600 bg-red-50"
    ensures ScoreTier(score) == Yellow ==> c == "text-yellow-600 bg-yellow-50"
    ensures ScoreTier(score) == Green ==> c == "text-green-600 bg-green-50"
  {
    if score > RedAbove then "text-red-600 bg-red-50"
    else if score > BotThreshold then "text-yellow-600 bg-yellow-50"
    else "text-green-600 bg-green-50"
  }

  /** An analysed follower's badge is red or yellow exactly when its status is "Bot". */
  lemma BadgeAgreesWithStatus(f: Follower)
    requires Consistent(f)
    ensures BadgeClass(f.botScore) != "text-green-600 bg-green-50" <==> StatusText(f) == "Bot"
  {
    ScoreColourShowsVerdict(f);
  }

  // ---------------------------------------------------------------------------
  // account age

  datatype AgeUnit = Days | Months | Years

  /** The label `getAccountAge` builds: an amount, `None` where the source prints `NaN`, and a unit. */
  datatype AgeLabel = AgeLabel(amount: Option<int>, unit: AgeUnit) {
    function Text(): string {
      var number := match amount case Some(n) => IntToString(n) case None => "NaN";
      number + match unit case Days => " days" case Months => " months" case Years => " years"
    }
  }

  /** `getAccountAge` over the whole days since creation. Fewer than 30 days are counted in
      days, fewer than 365 in months of 30 days, the rest in years of 365 days; `NaN` fails both
      comparisons and ends up as `NaN years`. */
  function AgeOfDays(days: Option<int>): (l: AgeLabel)
    ensures days.None? ==> l == AgeLabel(None, Years)
    ensures days.Some? && days.value < 30 ==> l == AgeLabel(days, Days)
    ensures days.Some? && 30 <= days.value < 365 ==>
      && l.unit == Months && l.amount.Some?
      && 1 <= l.amount.value <= 12
      && l.amount.value * 30 <= days.value < (l.amount.value + 1) * 30
    ensures days.Some? && days.value >= 365 ==>
      && l.unit == Years && l.amount.Some?
      && l.amount.value >= 1
      && l.amount.value * 365 <= days.value < (l.amount.value + 1) * 365
  {
    match days
    case None => AgeLabel(None, Years)
    case Some(d) =>
      if d < 30 then AgeLabel(Some(d), Days)
      else if d < 365 then AgeLabel(Some(d / 30), Months)
      else AgeLabel(Some(d / 365), Years)
  }

  /** The label on a follower's card. */
  function CardAge(f: Follower, clock: Clock): AgeLabel {
    AgeOfDays(AccountAge(f.user, clock))
  }

  /** The card counts an account's age in days exactly when the classifiers' age rule calls it
      a new account. */
  lemma AgeInDaysIffNewAccount(f: Follower, clock: Clock)
    ensures CardAge(f, clock).unit == Days <==> NewAccount in Reasons(AgeRule(f.user, clock))
  {
    match AccountAge(f.user, clock)
    case None =>
    case Some(d) =>
      if d < 30 {
        assert Reasons([Hit(20, NewAccount)]) == [NewAccount];
      } else {
        assert AgeRule(f.user, clock) == [];
      }
  }

  /** Reading the label back with `parseInt` recovers its amount. */
  lemma AgeTextReadsBack(l: AgeLabel)
    requires l.amount.Some?
    ensures ParseInt(l.Text()) == l.amount
  {
    var unit := match l.unit case Days => " days" case Months => " months" case Years => " years";
    assert l.Text() == "" + IntToString(l.amount.value) + unit;
    ParseIntReadsDecimal("", l.amount.value, unit);
  }
}
