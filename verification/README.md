# Twitter bot cleaner, modelled in Dafny

The twitter-bot-cleaner web app fetches or imports a user's followers and scores each one with a
rule-based bot classifier (`analyzeUser`). It shows a verdict per follower (bot, inactive, active)
and page statistics, and lets the user select followers by verdict. A second page, the strategy
dashboard, derives insights and statistics from a list of analysed tweets. The OAuth login builds
a PKCE verifier and challenge with base64url encoding.

This project models:

* the three classifier variants: the OAuth service, the alternative service, and the older,
  reduced `twitterService`;
* the two CSV importers;
* the two JSON-to-`TwitterUser` mappers;
* the page logic of `TwitterBotCleaner` and `FollowerCard`;
* the integer parts of the strategy dashboard;
* the base64url step of PKCE.

## How the model is built

* Scores are integers in hundredths: 0.15 is 15, the bot threshold 0.5 is 50, the cap 1 is 100.
* Dates stay strings. Reading a date and the current time come in as a `Clock` parameter. A date
  that does not parse is `None`; the source gets `NaN` there, and every comparison with `NaN` is
  false.
* `Math.floor` over milliseconds is Dafny's Euclidean division. This is floor division for the
  positive day length.
* Reasons are a `Reason` datatype. `Reason.Text` gives the exact string each service pushes.
* The six regular expressions of `hasBotLikeUsername` are stated as ghost predicates over every
  start position and repetition count. The executable window checks are proved equal to them.
* `parseInt` covers decimal digits after leading white space, with an optional minus sign.
  `|| 0` maps `NaN` to 0.
* `description.length` is the UTF-16 length: a character above U+FFFF counts twice.
* Random bytes and the SHA-256 digest come in as parameters. `btoa` and the three `replace`
  calls are modelled character by character.

Modules, one per file:

* `Options` and `Strings`: helpers.
* `Accounts`: the records.
* `Rules`: one function per rule of `analyzeUser`.
* `BotPatterns`.
* `OAuthService`, `AlternativeService` and `ReducedService`.
* `VariantFacts`: how the three classifiers relate.
* `Scenarios`: worked examples.
* `CsvImport`.
* `Cleaner`: the page.
* `FollowerCard`.
* `Strategy`.
* `Base64Url`.

## Model

| member | source | states |
|---|---|---|
| Accounts.ReasonTextRoundTrip | src/services/oauthTwitterService.ts:222-266 | the eleven reason texts the services push are pairwise distinct, so the text of a reason identifies it |
| Accounts.DaysSince | src/services/alternativeTwitterService.ts:224-234 | a day count exists exactly when the date parses. It is the number of whole days from the date to now, rounded down, so a future date gives a negative count |
| Accounts.InactivityReadsOnlyLastTweet | src/services/alternativeTwitterService.ts:236-240 | whether a follower is inactive depends on the last-tweet date alone |
| Accounts.NoLastTweetIsInactive | src/services/alternativeTwitterService.ts:237 | a follower with no last-tweet date, or an empty one, is inactive whatever the time |
| Strings.TrimIsTrimOf | src/components/CSVImport.tsx:49 | `trim` removes exactly the leading and trailing white space. What is left is a slice of the input that neither starts nor ends with white space |
| Strings.TrimIdempotent | src/components/CSVImport.tsx:49-52 | trimming an already trimmed value changes nothing |
| Strings.TrimEmptyIff | src/components/CSVImport.tsx:49-50 | a line is skipped as empty exactly when it is all white space |
| Strings.Split | src/components/CSVImport.tsx:41 | `split` yields one more part than there are separators. No part holds the separator, and joining the parts back gives the input |
| Strings.SplitJoin | src/components/CSVImport.tsx:41 | splitting the join of separator-free parts gives those parts back |
| Strings.Contains | src/services/oauthTwitterService.ts:262-263 | `includes` holds exactly when the needle occurs at some index |
| Strings.ParseIntReadsDecimal | src/components/CSVImport.tsx:59-61 | `parseInt` skips leading white space, reads the decimal numeral of any integer, and stops at the first non-digit |
| Strings.ParseIntIgnoresTrim | src/services/alternativeTwitterService.ts:103-105 | `parseInt` of a trimmed value equals `parseInt` of the untrimmed one |
| Strings.Utf16Length | src/services/oauthTwitterService.ts:250 | the JavaScript length of a string is its number of code points plus the number of those above U+FFFF, which UTF-16 writes as two units. So it lies between the number of code points and twice that |
| BotPatterns.ContainsWord | src/services/oauthTwitterService.ts:296-299 | a case-insensitive search for a lower-case word succeeds exactly when the word matches, under ECMAScript's canonical case folding, at some index of the name |
| BotPatterns.FourDigitsIffDigitRun | src/services/oauthTwitterService.ts:300 | a window of four digits exists exactly when `/[0-9]{4,}/` matches |
| BotPatterns.LetterWindowIffLettersThenDigits | src/services/oauthTwitterService.ts:301 | one lower-case letter followed by three digits exists exactly when `/[a-z]{1,2}[0-9]{3,}/` matches |
| BotPatterns.HasBotLikeUsername | src/services/oauthTwitterService.ts:294-305 | true exactly when at least one of the six regular expressions matches somewhere in the name |
| Rules.Conclude | src/services/oauthTwitterService.ts:268-276 | the score is the sum of the points, or the cap of 100 when the sum exceeds it. It never exceeds the sum. The bot flag is the capped score being over 50. The reasons are pushed in rule order. Inactivity is passed through |
| Rules.AgeRule | src/services/oauthTwitterService.ts:220-225 | at most one hit, "New account", worth at most 20 |
| Rules.RatioAboveIsDivision | src/services/oauthTwitterService.ts:228-232 | comparing `following > k * max(followers, 1)` in integers agrees with comparing the real quotient with `k` |
| Rules.RatioRule | src/services/oauthTwitterService.ts:227-235 | at most one hit, unusual or high ratio, worth at most 30 |
| Rules.TweetRule | src/services/oauthTwitterService.ts:237-247 | at most one of "No tweets", "Excessive tweet count" and "Very few tweets", worth at most 20 |
| Rules.ActivityRule | src/services/alternativeTwitterService.ts:181-191 | at most one of the two inactivity reasons, worth at most 25 |
| Rules.ProfileRule | src/services/oauthTwitterService.ts:249-253 | at most one hit, "Incomplete profile", worth at most 10 |
| Rules.UsernameRule | src/services/oauthTwitterService.ts:255-259 | at most one hit, "Bot-like username pattern", worth at most 20 |
| Rules.ImageRule | src/services/oauthTwitterService.ts:261-266 | at most one hit, "Default profile image", worth at most 10 |
| Rules.PlaceholderLooksDefault | src/services/oauthTwitterService.ts:262-263 | the placeholder URL the importers substitute is itself flagged as a default image |
| Rules.RatioRuleReduced | src/services/twitterService.ts:76-81 | the reduced ratio rule can only push "Unusual following/follower ratio" |
| Rules.TweetRuleReduced | src/services/twitterService.ts:83-90 | the reduced tweet rule never pushes "Very few tweets" |
| Rules.ActivityRuleReduced | src/services/twitterService.ts:92-99 | the reduced activity rule can only push "Inactive for over a year" |
| Rules.ImageRuleReduced | src/services/twitterService.ts:107-111 | the reduced image rule pushes at most "Default profile image" |
| Rules.PointsAreReasonWeights | src/services/oauthTwitterService.ts:220-266 | the points of any run of rule hits are the sum of the fixed weights of their reasons |
| OAuthService.MapApiUser | src/services/oauthTwitterService.ts:189-201 | the API user's id, username and name are kept. A present, non-empty image URL, creation date or description is kept. A missing or empty one becomes the placeholder image, `2020-01-01`, or the empty description. Verified and protected are true exactly when the API says true. No last-tweet date is set |
| OAuthService.MapApiFollowers | src/services/oauthTwitterService.ts:189 | a missing `data` array gives no followers. Otherwise there is one mapped follower per API user, in order |
| OAuthService.ApiFollowersAreInactive | src/services/oauthTwitterService.ts:189-201 | every follower mapped from the API counts as inactive, because the mapper never sets a last-tweet date |
| OAuthService.ApiCountsRead | src/services/oauthTwitterService.ts:194-196 | each of the followers, following and tweet counts is read from `public_metrics` as it is. A missing count, or missing `public_metrics`, reads as 0 |
| OAuthService.OAuthHits | src/services/oauthTwitterService.ts:220-266 | the hits come in rule order, with strictly increasing table rank, and add up to at most 110 before the cap |
| OAuthService.AnalyzeOAuth | src/services/oauthTwitterService.ts:216-277 | the score lies within 0..100 and is the capped sum of the weights of the reasons given. The bot flag is the score being over 50. Reasons are in rule order. Inactivity is the shared 180-day test |
| AlternativeService.Either | src/services/alternativeTwitterService.ts:263-265 | `a \|\| b` on text: the first value unless it is missing or empty, then the second |
| AlternativeService.CountOr0 | src/services/alternativeTwitterService.ts:267-269 | a missing count reads as 0 |
| AlternativeService.MapToTwitterUser | src/services/alternativeTwitterService.ts:261-276 | each field takes its first key when that is present and non-empty, else its second key: `id` or `user_id`, `username` or `screen_name`, `display_name` or `name`. Image, creation date and description fall back to the placeholder, `2020-01-01` and the empty text. The counts are read from `followers_count`, `friends_count` and `statuses_count`, 0 when missing. The last-tweet date is passed through unchanged. Verified and protected are true exactly when the record says true |
| AlternativeService.MapToTwitterUserFallbacks | src/services/alternativeTwitterService.ts:263-269 | a missing or empty `id` falls back to `user_id`, `username` to `screen_name`, `display_name` to `name`; a non-empty first key is kept. Follower, following and tweet counts come from `followers_count`, `friends_count` and `statuses_count` |
| AlternativeService.AlternativeHits | src/services/alternativeTwitterService.ts:152-210 | the hits come in rule order, with strictly increasing table rank, and add up to at most 135 before the cap |
| AlternativeService.AnalyzeAlternative | src/services/alternativeTwitterService.ts:148-221 | the score lies within 0..100 and is the capped sum of the weights of the reasons given. The bot flag is the score being over 50. Reasons are in rule order. Inactivity is the 180-day test |
| ReducedService.ReducedHits | src/services/twitterService.ts:69-111 | the hits come in rule order, with strictly increasing table rank, and add up to at most 115 before the cap |
| ReducedService.AnalyzeReduced | src/services/twitterService.ts:65-122 | the score lies within 0..100 and is the capped sum of the weights of the reasons given. The bot flag is the score being over 50. Inactivity is the 180-day test |
| VariantFacts.AlternativeIsOAuthPlusActivity | src/services/alternativeTwitterService.ts:181-191 | the alternative classifier's raw points are the OAuth classifier's plus those of its activity rule. Every OAuth reason is also an alternative reason |
| VariantFacts.AlternativeDominatesOAuth | src/services/alternativeTwitterService.ts:148-221 | the alternative score is never lower than the OAuth score. An OAuth bot is an alternative bot. OAuth reasons are alternative reasons |
| VariantFacts.SilentActivityAgrees | src/services/alternativeTwitterService.ts:181-191 | when the activity rule does not fire, the two classifiers give identical results |
| VariantFacts.OAuthIgnoresLastTweet | src/services/oauthTwitterService.ts:216-266 | the OAuth score, reasons and bot flag do not depend on the last-tweet date |
| VariantFacts.ReducedDominatedByAlternative | src/services/twitterService.ts:65-122 | the reduced score is never higher than the alternative score. A reduced bot is an alternative bot. Reduced reasons are alternative reasons |
| VariantFacts.InactivityAgrees | src/services/twitterService.ts:152-156 | all three classifiers agree on inactivity |
| VariantFacts.AlternativeReasonsExplained | src/services/alternativeTwitterService.ts:152-210 | a reason appears in the alternative result exactly when the condition of its own branch holds |
| VariantFacts.OAuthReasonsExplained | src/services/oauthTwitterService.ts:220-266 | a reason appears in the OAuth result exactly when it is not an activity reason and the condition of its branch, the same as in the alternative service, holds |
| VariantFacts.ReducedReasonsByRule | src/services/twitterService.ts:69-111 | a reason appears in the reduced result exactly when one of its six rules pushes it |
| VariantFacts.ReducedEarlyRulesFire | src/services/twitterService.ts:69-90 | the reduced age, ratio and tweet rules push only their own reasons, each exactly on its branch condition: age under 30 days, ratio over 10, no tweets or over 10000 |
| VariantFacts.ReducedLateRulesFire | src/services/twitterService.ts:92-111 | the reduced activity, profile and image rules push only their own reasons, each exactly on its branch condition: over 365 days since a present last tweet, a short or missing description, an image URL containing `default_profile` |
| VariantFacts.ReducedReasonsExplained | src/services/twitterService.ts:69-111 | a reason appears in the reduced result exactly when its condition holds. The reduced service never gives "High following/follower ratio", "Very few tweets", "Inactive for over 6 months" or "Bot-like username pattern" |
| VariantFacts.ApiFollowerScoresAlike | src/services/oauthTwitterService.ts:189-201 | for followers mapped from the API, the alternative and OAuth classifiers agree, and the follower is inactive |
| VariantFacts.ApiMissingImageFlagged | src/services/oauthTwitterService.ts:193 | an API user with no image URL ends up flagged with "Default profile image" |
| VariantFacts.ThirdPartyUndatedScoresAlike | src/services/alternativeTwitterService.ts:271 | third-party records without a last-tweet date are scored alike by both classifiers |
| VariantFacts.ThirdPartyMissingImageFlagged | src/services/alternativeTwitterService.ts:266 | a third-party record with no image URL ends up flagged with "Default profile image" |
| Scenarios.QuietPersonExample | src/services/alternativeTwitterService.ts:148-221 | an established account with no tweets and no last-tweet date scores 0.2, is not a bot, is inactive, and has the single reason "No tweets", under both classifiers |
| Scenarios.NewBotExample | src/services/oauthTwitterService.ts:216-277 | a week-old, tweetless account with a lopsided ratio, a short bio and a bot-like name is capped at 1.0 with five reasons in rule order |
| Scenarios.UsernameCaseMatters | src/services/oauthTwitterService.ts:301 | "ab123" is bot-like but "AB123" is not, since the last pattern has no `i` flag |
| Scenarios.QuietNameIsNotBotLike | src/services/oauthTwitterService.ts:294-305 | "janedoe42" matches none of the six patterns |
| CsvImport.RowToUser | src/components/CSVImport.tsx:54-67 | a present, non-empty column is kept; a missing or empty one gives the default: `user_<line>` for the id, the empty text for username, display name and description, the placeholder image, `2020-01-01` for the creation date, and no last-tweet date. The counts are the `parseInt` readings of columns 4 to 6. Verified and protected are true exactly when their column is the text `true` |
| CsvImport.CountFieldReadsInteger | src/components/CSVImport.tsx:59-61 | a count column holding a decimal integer, with white space before it and a non-digit after it, reads as that integer |
| CsvImport.FallbackIdsDistinct | src/components/CSVImport.tsx:55 | two rows on different lines that both lack an id get different ids |
| CsvImport.MissingImageLooksDefault | src/components/CSVImport.tsx:58 | a row without an image gets the placeholder URL, which contains "placeholder" |
| CsvImport.KeptIffFiveCommas | src/components/CSVImport.tsx:52-53 | a trimmed line becomes a row exactly when it has at least five commas, that is at least six columns |
| CsvImport.KeptLines | src/components/CSVImport.tsx:48-53 | the lines turned into rows come after the header, in increasing order |
| CsvImport.KeptLinesSound | src/components/CSVImport.tsx:49-53 | every line turned into a row passes the emptiness and column-count tests |
| CsvImport.KeptLinesComplete | src/components/CSVImport.tsx:48-53 | every line after the header that passes both tests is turned into a row |
| CsvImport.ParseCsv | src/components/CSVImport.tsx:40-73 | there are fewer followers than lines, since the header never yields one |
| CsvImport.ImportFollowersFromCsv | src/services/alternativeTwitterService.ts:87-117 | there are fewer followers than lines, since the header never yields one |
| CsvImport.ImportersReadKeptLines | src/components/CSVImport.tsx:48-67 | follower `k` of either importer is the row of the `k`-th line after the header that passes both tests, with trimmed columns for `parseCSV` and raw ones for the alternative importer; every line that passes is read |
| CsvImport.HeaderIgnored | src/components/CSVImport.tsx:46-48 | the first line has no effect on either importer's result |
| CsvImport.RowCountsIgnoreTrim | src/components/CSVImport.tsx:52 | trimming the columns does not change the three counts read from a row |
| CsvImport.ImportersAgreeOnCounts | src/services/alternativeTwitterService.ts:103-105 | both importers yield the same number of followers, with the same follower, following and tweet counts |
| CsvImport.ImportersAgreeOnTrimmedColumns | src/services/alternativeTwitterService.ts:96-110 | when no column carries surrounding white space, the two importers give identical followers |
| Base64Url.Encode | src/services/oauthTwitterService.ts:337 | `btoa` output has four characters for every started group of three bytes |
| Base64Url.UrlSafe | src/services/oauthTwitterService.ts:338-340 | after the three replacements no `+`, `/` or `=` is left |
| Base64Url.Remove | src/services/oauthTwitterService.ts:340 | removing `=` leaves no `=`, keeps every other character as often as it occurred, and, by `Base64Url.RemoveAppend`, keeps their order |
| Base64Url.RemoveAppend | src/services/oauthTwitterService.ts:340 | removing a character from a concatenation removes it from each part |
| Base64Url.Base64UrlIsUnpaddedUrlEncoding | src/services/oauthTwitterService.ts:337-340 | `btoa` followed by the three replacements is the unpadded base64url encoding of the bytes, as in section 5 of RFC 4648 |
| Base64Url.EncodeUrlAlphabet | src/services/oauthTwitterService.ts:337-340 | every character of the result is in the URL-safe alphabet |
| Base64Url.DecodeEncodeUrl | src/services/oauthTwitterService.ts:337-340 | decoding the encoding gives back the bytes |
| Base64Url.CodeVerifier | src/services/oauthTwitterService.ts:334-341 | the verifier for 32 random bytes is 43 URL-safe characters |
| Base64Url.CodeChallenge | src/services/oauthTwitterService.ts:344-352 | the challenge for a 32-byte digest is 43 characters and decodes back to the digest |
| Cleaner.AnalyzeAll | src/components/TwitterBotCleaner.tsx:53-62 | one follower per fetched record, in order. Each keeps its record and carries a score in 0..100, a bot flag equal to the score being over 50, and the inactivity of its record |
| Cleaner.Keep | src/components/TwitterBotCleaner.tsx:67-69 | the filter keeps exactly the followers meeting the criterion, each as many times as it occurs |
| Cleaner.KeepAppend | src/components/TwitterBotCleaner.tsx:67-69 | filtering a concatenation filters each part, so the kept followers stay in their order |
| Cleaner.KeepCount | src/components/TwitterBotCleaner.tsx:67-69 | the filter keeps one follower per position that meets the criterion |
| Cleaner.StatsOf | src/components/TwitterBotCleaner.tsx:65-70 | the total is the number of followers. The bot, inactive and suspicious counts are the numbers of followers that are bots, inactive, and scored over 0.7 |
| Cleaner.KeepMonotone | src/components/TwitterBotCleaner.tsx:67-69 | filtering by a criterion implied by another keeps at least as many followers |
| Cleaner.SuspiciousAtMostBots | src/components/TwitterBotCleaner.tsx:67-69 | among analysed followers the suspicious count never exceeds the bot count |
| Cleaner.InitialPage | src/components/TwitterBotCleaner.tsx:45-77 | the page starts with no followers, no selection, zero statistics and the import dialog closed |
| Cleaner.LoadFollowers | src/components/TwitterBotCleaner.tsx:45-77 | a failed fetch leaves the page unchanged. A successful one shows the analysed followers with statistics computed from them. The selection is kept either way |
| Cleaner.ImportCsv | src/components/TwitterBotCleaner.tsx:79-98 | the imported records are shown analysed, in order, with current statistics. The dialog closes and the selection is kept |
| Cleaner.Toggle | src/components/TwitterBotCleaner.tsx:100-108 | the toggled id flips membership and every other id keeps its state |
| Cleaner.ToggleTwice | src/components/TwitterBotCleaner.tsx:100-108 | toggling the same id twice restores the selection |
| Cleaner.SelectAll | src/components/TwitterBotCleaner.tsx:110-118 | the selection becomes exactly the ids of the followers that are bots (or inactive). Nothing else on the page changes |
| Cleaner.RemoveSelected | src/components/TwitterBotCleaner.tsx:120-124 | the selection is emptied and the followers stay |
| Cleaner.SelectionKeepsStatsCurrent | src/components/TwitterBotCleaner.tsx:100-124 | no selection action can make the statistics stale |
| Cleaner.ScoreTier | src/components/TwitterBotCleaner.tsx:126-130 | red exactly over 0.8, yellow exactly over 0.5 up to 0.8, green otherwise |
| Cleaner.ScoreColourShowsVerdict | src/components/TwitterBotCleaner.tsx:126-130 | for an analysed follower the score is non-green exactly when it is a bot, and a red score is always suspicious |
| FollowerCard.StatusText | src/components/FollowerCard.tsx:44-48 | "Bot" exactly for bots. "Inactive" exactly for inactive non-bots. "Active" otherwise |
| FollowerCard.StatusColour | src/components/FollowerCard.tsx:50-54 | the colour follows the text: red for "Bot", yellow for "Inactive", green for "Active" |
| FollowerCard.StatusIcon | src/components/FollowerCard.tsx:34-42 | the icon has the status colour and is a check mark exactly for "Active" |
| FollowerCard.BadgeClass | src/components/FollowerCard.tsx:28-32 | the badge class of each score tier |
| FollowerCard.BadgeAgreesWithStatus | src/components/FollowerCard.tsx:28-48 | for an analysed follower the badge is non-green exactly when the status reads "Bot" |
| FollowerCard.AgeOfDays | src/components/FollowerCard.tsx:60-68 | an unparsable date shows "NaN years". Under 30 days the age shows in days. Below 365 days it shows in months between 1 and 12, each month 30 days. Otherwise it shows in years, each year 365 days |
| FollowerCard.AgeInDaysIffNewAccount | src/components/FollowerCard.tsx:60-68 | the card counts in days exactly when the classifier's age rule calls the account new |
| FollowerCard.AgeTextReadsBack | src/components/FollowerCard.tsx:65-67 | the amount printed in the label is read back by `parseInt` |
| Strategy.GenerateInsights | src/components/TwitterStrategyDashboard.tsx:126-175 | one to four insights, in the fixed order timing, content, engagement, trending. Trending always comes last. Timing appears exactly when a tweet was posted between 9 and 11. Content appears exactly when some rate exceeds 8. Engagement appears exactly when the average rate is below 5 |
| Strategy.AddTags | src/components/TwitterStrategyDashboard.tsx:198-200 | adding a tweet's tags raises each tag's count by its occurrences in the tweet |
| Strategy.HashtagCounts | src/components/TwitterStrategyDashboard.tsx:197-202 | the keys are exactly the tags used, and each count is the number of occurrences over all tweets |
| Strategy.SortByCount | src/components/TwitterStrategyDashboard.tsx:204-205 | the tags are reordered without loss or duplication, by non-increasing count |
| Strategy.InsertKeepsOrder | src/components/TwitterStrategyDashboard.tsx:205 | inserting into a list sorted by count keeps it sorted |
| Strategy.DistinctMultiplicity | src/components/TwitterStrategyDashboard.tsx:204 | a list has no repeats exactly when no element occurs twice in its multiset, which is how the keys of an object behave |
| Strategy.TopHashtags | src/components/TwitterStrategyDashboard.tsx:204-207 | at most five distinct tags, all used, by non-increasing count. A used tag left out implies five were shown, each used at least as often |
| Strategy.ContentBreakdown | src/components/TwitterStrategyDashboard.tsx:210-213 | a key is present exactly for the content types used. Each type is tallied with the number of tweets of that type, and the counts add up to the number of tweets |
| Strategy.CalculateStats | src/components/TwitterStrategyDashboard.tsx:177-222 | for a non-empty list the total is the number of tweets. The top hashtags meet all the properties stated for `Strategy.TopHashtags`. The breakdown tallies each content type with its number of tweets |

## Left out

* Network and browser work is not modelled, with no reason beyond being I/O: the fetches, the OAuth redirect and token exchange, `sessionStorage`, `alert`, the loading flags, and React rendering. This covers `getFollowers`, `authenticateUser`, `connectToTwitter`, the Nitter and third-party fetches, `parseFollowersFromHTML`, and the mock-follower generators. `getFollowers` appears only through its result, which is either a list of records or a failure.
* `crypto.getRandomValues` and `crypto.subtle.digest` are parameters: 32 random bytes and a 32-byte digest. Encoding the verifier to bytes with `TextEncoder` is part of hashing and is left out with it.
* `new Date(s)`, `getTime`, `getHours` and `new Date()` are parameters, in the `Clock` and the `hourOf` reader. The model says nothing about which strings parse.
* Cleaner.StatsOf: scores are exact hundredths. The source adds doubles, and `0.2 + 0.3 + 0.2` is `0.7000000000000001` in doubles. So a follower that is exactly at 0.7 after such a sum is counted as suspicious by the source but not by the model. The same holds for `Cleaner.Meets` with `Suspicious`. The bot threshold 0.5 and the red tier 0.8 agree with the doubles for every combination of rules.
* Strategy.CalculateStats: the average engagement, its rounding to one decimal, and `bestTime` are left out. They divide doubles, and `bestTime` depends on the engine's sort of averaged groups. Engagement rates are kept in hundredths, so the insight tests "over 8" and "average below 5" are exact.
* Strategy.TopHashtags: among tags with equal counts the order is not pinned. The source inherits it from the object's key order, which puts integer-like keys first, and from the sort's stability.
* Strategy.GenerateInsights: the insight record holds the kind, priority and texts. The icons and colours picked for them in the render (`getPriorityColor`, `getInsightIcon`) are left out.
* Strings.ParseInt: only decimal numerals are read. `parseInt` also reads `0x`-prefixed hexadecimal, and the model instead reads the leading `0`.
* AlternativeService.MapToTwitterUser: a field that is missing from both of its candidates becomes the empty string. The source leaves it `undefined`.
* CsvImport.ParseCsv: the column layout follows the code, which starts with `id`. The comment above it and the downloadable sample CSV both lack the `id` column, so with the sample every column shifts by one. The model follows the code. There is no round trip from records back to CSV text, because the app never writes CSV.
* FollowerCard: `formatDate` is left out because it depends on the locale.
* An account with no last-tweet date gets no activity reason: the activity rule runs only when a date is present (src/services/alternativeTwitterService.ts:182). A quiet, established account without tweets therefore scores 0.2 with the single reason "No tweets"; see `Scenarios.QuietPersonExample`.
* The letters-then-digits username pattern has no `i` flag, unlike the other five, so it matches only lower-case letters; see `Scenarios.UsernameCaseMatters`.
* Cleaner.ImportCsv: importing keeps the previous selection, even though its ids may no longer be on the page. This is what the code does, and it is modelled as such.
* Rules.AgeRule: the contract gives only the reason the rule can push and its weight. When it fires is stated once for all rules, by `VariantFacts.AlternativeReasonsExplained`.
* Rules.RatioRule: as for `Rules.AgeRule`; the firing condition is in `VariantFacts.AlternativeReasonsExplained`, backed by `Rules.RatioAboveIsDivision`.
* Rules.TweetRule: as for `Rules.AgeRule`.
* Rules.ActivityRule: as for `Rules.AgeRule`.
* Rules.ProfileRule: as for `Rules.AgeRule`.
* Rules.UsernameRule: as for `Rules.AgeRule`; the pattern itself is stated by `BotPatterns.HasBotLikeUsername`.
* Rules.ImageRule: as for `Rules.AgeRule`.
* Rules.RatioRuleReduced: the reduced rules' own contracts give only the reasons they can push and their largest weight. When they fire is stated once, by `VariantFacts.ReducedEarlyRulesFire`, `VariantFacts.ReducedLateRulesFire` and `VariantFacts.ReducedReasonsExplained`. The same holds for `Rules.TweetRuleReduced`, `Rules.ActivityRuleReduced` and `Rules.ImageRuleReduced`.
* Rules.TweetRuleReduced: see `Rules.RatioRuleReduced`.
* Rules.ActivityRuleReduced: see `Rules.RatioRuleReduced`.
* Rules.ImageRuleReduced: see `Rules.RatioRuleReduced`.
* Strings.ParseCount: `parseInt` returns a double, so a numeral beyond 2^53 loses precision and a very long one gives `Infinity`. The model reads every numeral exactly.
* Strategy.HashtagCounts: the tally is a plain `{}` object, so a tag named like an inherited property (`constructor`, `toString`) starts from that property rather than from nothing, and `__proto__` is not stored as a key at all. The model treats every tag as a fresh key.
