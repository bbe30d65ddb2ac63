/**
 * `parseCSV` of `CSVImport.tsx`, and the row mapping it shares with `importFollowersFromCSV`
 * of the alternative service.
 *
 * The text is split on every newline; line 0 is the header and is never read; a line that is
 * blank once trimmed is skipped; a line yields a record when it splits on every comma (no
 * quoting) into six or more values. The columns are, in order: id, username, display name,
 * image URL, followers, following, tweets, created at, last tweet date, description, verified,
 * protected. A column past the end of a short row is `undefined`.
 */
module CsvImport {
  import opened Options
  import opened Strings
  import opened Accounts

  /** `values[k]`: `undefined` past the end of the row. */
  function Column(values: seq<string>, k: nat): Option<string> {
    if k < |values| then Some(values[k]) else None
  }

  /** `v || undefined`: the empty string becomes absent. */
  function Present(v: Option<string>): (r: Option<string>)
    ensures v.Some? && v.value != "" ==> r == v
    ensures v.None? || v.value == "" ==> r.None?
  {
    if v.Some? && v.value != "" then v else None
  }

  /** `parseInt(v) || 0`: `parseInt(undefined)` is `NaN`, and `NaN` and `0` both give 0. */
  function CountField(v: Option<string>): int {
    match v
    case None => 0
    case Some(s) => ParseCount(s)
  }

  /** `values[k] === 'true'` */
  function Flag(values: seq<string>, k: nat): bool {
    Column(values, k) == Some("true")
  }

  /** One row as both importers map it; `line` is the row's index among all the lines of the
      text, skipped lines included. */
  function RowToUser(values: seq<string>, line: nat): (u: TwitterUser)
    ensures u.id == OrElse(Column(values, 0), "user_" + Decimal(line))
    ensures u.username == OrElse(Column(values, 1), "")
    ensures u.displayName == OrElse(Column(values, 2), "")
    ensures u.profileImageUrl == OrElse(Column(values, 3), PlaceholderImage)
    ensures u.followersCount == CountField(Column(values, 4))
    ensures u.followingCount == CountField(Column(values, 5))
    ensures u.tweetCount == CountField(Column(values, 6))
    ensures u.createdAt == OrElse(Column(values, 7), DefaultCreatedAt)
    ensures u.lastTweetDate == Present(Column(values, 8))
    ensures u.description == Some(OrElse(Column(values, 9), ""))
    ensures u.id != "" && u.profileImageUrl != "" && u.createdAt != ""
    ensures u.verified <==> |values| > 10 && values[10] == "true"
    ensures u.protected <==> |values| > 11 && values[11] == "true"
  {
    TwitterUser(
      id := OrElse(Column(values, 0), "user_" + Decimal(line)),
      username := OrElse(Column(values, 1), ""),
      displayName := OrElse(Column(values, 2), ""),
      profileImageUrl := OrElse(Column(values, 3), PlaceholderImage),
      followersCount := CountField(Column(values, 4)),
      followingCount := CountField(Column(values, 5)),
      tweetCount := CountField(Column(values, 6)),
      createdAt := OrElse(Column(values, 7), DefaultCreatedAt),
      lastTweetDate := Present(Column(values, 8)),
      description := Some(OrElse(Column(values, 9), "")),
      verified := Flag(values, 10),
      protected := Flag(values, 11))
  }

  /** A count column holding an integer as a template literal writes it reads back as that
      integer, whatever white space precedes it and whatever non-digit text follows. */
  lemma CountFieldReadsInteger(pre: string, i: int, post: string)
    requires AllSpace(pre, 0, |pre|)
    requires post == [] || !IsDigit(post[0])
    ensures CountField(Some(pre + IntToString(i) + post)) == i
  {
    ParseIntReadsDecimal(pre, i, post);
  }

  /** Two rows on different lines that both lack an id get different fallback ids. */
  lemma {:induction false} FallbackIdsDistinct(v: seq<string>, i: nat, w: seq<string>, j: nat)
    requires i != j
    requires Column(v, 0).None? || Column(v, 0) == Some("")
    requires Column(w, 0).None? || Column(w, 0) == Some("")
    ensures RowToUser(v, i).id != RowToUser(w, j).id
  {
    assert RowToUser(v, i).id == "user_" + Decimal(i);
    assert RowToUser(w, j).id == "user_" + Decimal(j);
    assert ("user_" + Decimal(i))[5..] == Decimal(i);
    assert ("user_" + Decimal(j))[5..] == Decimal(j);
  }

  /** A row with no image gets the placeholder, which the image rule of the OAuth and the
      alternative service then flags. */
  lemma MissingImageLooksDefault(values: seq<string>, line: nat)
    requires |values| <= 3 || values[3] == ""
    ensures Contains(RowToUser(values, line).profileImageUrl, "placeholder")
  {
    assert OccursAt(PlaceholderImage, "placeholder", 12);
  }

  /** `lines.map(l => l.trim())`: the loop trims each line before looking at it. */
  function TrimLines(lines: seq<string>): (trimmed: seq<string>)
    ensures |trimmed| == |lines|
    ensures forall k :: 0 <= k < |lines| ==> trimmed[k] == Trim(lines[k])
  {
    seq(|lines|, k requires 0 <= k < |lines| => Trim(lines[k]))
  }

  /** A trimmed line that is not blank and splits into six or more values. */
  predicate Kept(line: string) {
    line != [] && |Split(line, ',')| >= 6
  }

  /** A line yields a record exactly when it holds at least five commas. */
  lemma KeptIffFiveCommas(line: string)
    ensures Kept(line) <==> Occurrences(line, ',') >= 5
  {
    if line == [] {
      assert Occurrences(line, ',') == 0;
    }
  }

  /** The indices, from `from` on, of the lines that yield a record, in increasing order.
      `KeptLinesSound` and `KeptLinesComplete` show that these are exactly the kept lines. */
  function KeptLines(lines: seq<string>, from: nat): (kept: seq<nat>)
    requires from <= |lines|
    ensures |kept| <= |lines| - from
    ensures forall k :: 0 <= k < |kept| ==> from <= kept[k] < |lines|
    ensures forall a, b :: 0 <= a < b < |kept| ==> kept[a] < kept[b]
    decreases |lines| - from
  {
    if from == |lines| then []
    else
      var rest := KeptLines(lines, from + 1);
      if Kept(lines[from]) then
        var kept := [from] + rest;
        assert forall k :: 1 <= k < |kept| ==> kept[k] == rest[k - 1];
        kept
      else rest
  }

  /** Every listed line yields a record. */
  lemma {:induction false} KeptLinesSound(lines: seq<string>, from: nat, k: nat)
    requires from <= |lines| && k < |KeptLines(lines, from)|
    ensures Kept(lines[KeptLines(lines, from)[k]])
    decreases |lines| - from
  {
    var rest := KeptLines(lines, from + 1);
    if Kept(lines[from]) {
      if k > 0 {
        KeptLinesSound(lines, from + 1, k - 1);
      }
    } else {
      KeptLinesSound(lines, from + 1, k);
    }
  }

  /** Every line from `from` on that yields a record is listed. */
  lemma {:induction false} KeptLinesComplete(lines: seq<string>, from: nat, j: nat)
    requires from <= j < |lines| && Kept(lines[j])
    ensures j in KeptLines(lines, from)
    decreases |lines| - from
  {
    if from < j {
      KeptLinesComplete(lines, from + 1, j);
    }
  }

  /** `line.split(',')` of a trimmed line, the columns of `importFollowersFromCSV`. */
  function RawValues(line: string): seq<string> {
    Split(line, ',')
  }

  /** `line.split(',').map(v => v.trim())` of a trimmed line, the columns of `parseCSV`. */
  function TrimmedValues(line: string): (values: seq<string>)
    ensures |values| == |RawValues(line)|
    ensures forall k :: 0 <= k < |values| ==> values[k] == Trim(RawValues(line)[k])
  {
    var raw := RawValues(line);
    seq(|raw|, k requires 0 <= k < |raw| => Trim(raw[k]))
  }

  /** The records of the kept lines, in order, with trimmed or raw columns. */
  function Records(lines: seq<string>, kept: seq<nat>, trimmed: bool): (users: seq<TwitterUser>)
    requires forall k :: 0 <= k < |kept| ==> kept[k] < |lines|
    ensures |users| == |kept|
  {
    seq(|kept|, k requires 0 <= k < |kept| =>
      RowToUser(if trimmed then TrimmedValues(lines[kept[k]]) else RawValues(lines[kept[k]]), kept[k]))
  }

  /** `parseCSV` */
  function ParseCsv(text: string): (followers: seq<TwitterUser>)
    ensures |followers| < |Split(text, '\n')|
  {
    var lines := TrimLines(Split(text, '\n'));
    Records(lines, KeptLines(lines, 1), true)
  }

  /** `importFollowersFromCSV` of the alternative service: the same rows, untrimmed columns. */
  function ImportFollowersFromCsv(text: string): (followers: seq<TwitterUser>)
    ensures |followers| < |Split(text, '\n')|
  {
    var lines := TrimLines(Split(text, '\n'));
    Records(lines, KeptLines(lines, 1), false)
  }

  /** Follower `k` of either importer is the row of the `k`-th line after the header that yields
      a record, numbered by that line's index; every such line yields one. */
  lemma {:induction false} ImportersReadKeptLines(text: string)
    ensures var lines := TrimLines(Split(text, '\n'));
      var kept := KeptLines(lines, 1);
      && |ParseCsv(text)| == |ImportFollowersFromCsv(text)| == |kept|
      && (forall k :: 0 <= k < |kept| ==>
          && 1 <= kept[k] < |lines| && Kept(lines[kept[k]])
          && ParseCsv(text)[k] == RowToUser(TrimmedValues(lines[kept[k]]), kept[k])
          && ImportFollowersFromCsv(text)[k] == RowToUser(RawValues(lines[kept[k]]), kept[k]))
      && (forall j :: 1 <= j < |lines| && Kept(lines[j]) ==> j in kept)
  {
    var lines := TrimLines(Split(text, '\n'));
    var kept := KeptLines(lines, 1);
    forall k | 0 <= k < |kept| ensures Kept(lines[kept[k]]) {
      KeptLinesSound(lines, 1, k);
    }
    forall j | 1 <= j < |lines| && Kept(lines[j]) ensures j in kept {
      KeptLinesComplete(lines, 1, j);
    }
  }

  /** The kept lines from `from` on depend on those lines only. */
  lemma {:induction false} KeptLinesReadsFrom(a: seq<string>, b: seq<string>, from: nat)
    requires from <= |a| == |b|
    requires forall j :: from <= j < |a| ==> a[j] == b[j]
    ensures KeptLines(a, from) == KeptLines(b, from)
    decreases |a| - from
  {
    if from < |a| {
      KeptLinesReadsFrom(a, b, from + 1);
    }
  }

  /** The records read the kept lines and nothing else. */
  lemma RecordsReadKeptLines(a: seq<string>, b: seq<string>, kept: seq<nat>, trimmed: bool)
    requires |a| == |b|
    requires forall k :: 0 <= k < |kept| ==> kept[k] < |a| && a[kept[k]] == b[kept[k]]
    ensures Records(a, kept, trimmed) == Records(b, kept, trimmed)
  {
  }

  /** The header line is never read: any two headers give the same records. */
  lemma HeaderIgnored(h1: string, h2: string, body: string)
    requires '\n' !in h1 && '\n' !in h2
    ensures ParseCsv(h1 + "\n" + body) == ParseCsv(h2 + "\n" + body)
    ensures ImportFollowersFromCsv(h1 + "\n" + body) == ImportFollowersFromCsv(h2 + "\n" + body)
  {
    var a := TrimLines(Split(h1 + "\n" + body, '\n'));
    var b := TrimLines(Split(h2 + "\n" + body, '\n'));
    assert |a| == |b| && forall j :: 1 <= j < |a| ==> a[j] == b[j] by {
      SplitAfterPart(h1, '\n', body);
      SplitAfterPart(h2, '\n', body);
    }
    KeptLinesReadsFrom(a, b, 1);
    var kept := KeptLines(a, 1);
    RecordsReadKeptLines(a, b, kept, true);
    RecordsReadKeptLines(a, b, kept, false);
  }

  /** Trimming the columns of a row does not change the counts read from it. */
  lemma RowCountsIgnoreTrim(line: string, i: nat)
    ensures RowToUser(TrimmedValues(line), i).followersCount == RowToUser(RawValues(line), i).followersCount
    ensures RowToUser(TrimmedValues(line), i).followingCount == RowToUser(RawValues(line), i).followingCount
    ensures RowToUser(TrimmedValues(line), i).tweetCount == RowToUser(RawValues(line), i).tweetCount
  {
    var raw, trimmed := RawValues(line), TrimmedValues(line);
    ColumnCountIgnoresTrim(raw, trimmed, 4);
    ColumnCountIgnoresTrim(raw, trimmed, 5);
    ColumnCountIgnoresTrim(raw, trimmed, 6);
  }

  lemma ColumnCountIgnoresTrim(raw: seq<string>, trimmed: seq<string>, k: nat)
    requires |trimmed| == |raw| && forall j :: 0 <= j < |raw| ==> trimmed[j] == Trim(raw[j])
    ensures CountField(Column(trimmed, k)) == CountField(Column(raw, k))
  {
    if k < |raw| {
      ParseIntIgnoresTrim(raw[k]);
    }
  }

  /** The two importers keep the same lines, and read the same counts from them: `parseInt`
      skips the white space that only `parseCSV` trims. */
  lemma ImportersAgreeOnCounts(text: string)
    ensures |ParseCsv(text)| == |ImportFollowersFromCsv(text)|
    ensures forall k :: 0 <= k < |ParseCsv(text)| ==>
      && ParseCsv(text)[k].followersCount == ImportFollowersFromCsv(text)[k].followersCount
      && ParseCsv(text)[k].followingCount == ImportFollowersFromCsv(text)[k].followingCount
      && ParseCsv(text)[k].tweetCount == ImportFollowersFromCsv(text)[k].tweetCount
  {
    var lines := TrimLines(Split(text, '\n'));
    var kept := KeptLines(lines, 1);
    forall k | 0 <= k < |kept|
      ensures Records(lines, kept, true)[k].followersCount == Records(lines, kept, false)[k].followersCount
      ensures Records(lines, kept, true)[k].followingCount == Records(lines, kept, false)[k].followingCount
      ensures Records(lines, kept, true)[k].tweetCount == Records(lines, kept, false)[k].tweetCount
    {
      RowCountsIgnoreTrim(lines[kept[k]], kept[k]);
    }
  }

  lemma TrimmedEqualsRaw(line: string)
    requires forall v :: v in RawValues(line) ==> Trim(v) == v
    ensures TrimmedValues(line) == RawValues(line)
  {
    var raw := RawValues(line);
    assert forall i :: 0 <= i < |raw| ==> raw[i] in raw;
  }

  lemma RecordsOfUntrimmedColumns(lines: seq<string>, kept: seq<nat>)
    requires forall k :: 0 <= k < |kept| ==> kept[k] < |lines| && TrimmedValues(lines[kept[k]]) == RawValues(lines[kept[k]])
    ensures Records(lines, kept, true) == Records(lines, kept, false)
  {
  }

  /** Where no column carries white space at its ends, the two importers return the same
      records. */
  lemma ImportersAgreeOnTrimmedColumns(text: string)
    requires forall line, v :: line in Split(text, '\n') && v in Split(Trim(line), ',') ==> Trim(v) == v
    ensures ParseCsv(text) == ImportFollowersFromCsv(text)
  {
    var split := Split(text, '\n');
    var lines := TrimLines(split);
    var kept := KeptLines(lines, 1);
    forall k | 0 <= k < |kept| ensures TrimmedValues(lines[kept[k]]) == RawValues(lines[kept[k]]) {
      var j := kept[k];
      assert split[j] in split;
      assert lines[j] == Trim(split[j]);
      TrimmedEqualsRaw(lines[j]);
    }
    RecordsOfUntrimmedColumns(lines, kept);
  }
}
