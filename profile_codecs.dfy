/**
 * The two text codecs a profile registers for its bookkeeping properties:
 * the source log in the older line format
 * "field|source|yyyy-MM-dd HH:mm|user|" followed by three columns per
 * history entry, and the hash log, one "property:hash" line per property.
 * Both are stored in profile properties of at most 2000 characters.
 */
module ProfileCodecs {
  import opened Wrappers
  import Text
  import Dates
  import opened Dicts
  import opened SourceLogs

  // ---------------------------------------------------------------------------
  // Source log, older format: writing

  /** The three columns of one history entry: source, date, user. */
  function OldHistoryColumns(h: HistoryEntry): (cols: seq<string>)
    requires Dates.Valid(h.updated)
    ensures |cols| == 3
  {
    [h.source, Dates.Format(h.updated), h.user]
  }

  /** "{0}|{1:yyyy-MM-dd HH:mm}|{2}" of one history entry. */
  function OldHistoryText(h: HistoryEntry): string
    requires Dates.Valid(h.updated)
  {
    Text.Join(OldHistoryColumns(h), "|")
  }

  function OldHistoryTexts(hs: seq<HistoryEntry>): (r: seq<string>)
    requires HistoryDatesValid(hs)
    ensures |r| == |hs|
  {
    if |hs| == 0 then [] else [OldHistoryText(hs[0])] + OldHistoryTexts(hs[1..])
  }

  /** The line of one field, written with the history entries hs. */
  function OldEntryTextOf(e: SourceLogEntry, hs: seq<HistoryEntry>): string
    requires Dates.Valid(e.updated) && HistoryDatesValid(hs)
  {
    e.field + "|" + e.source + "|" + Dates.Format(e.updated) + "|" + e.user + "|"
    + Text.Join(OldHistoryTexts(hs), "|")
  }

  /** Enumerable.Take(n): the first n elements. */
  function Take<T>(s: seq<T>, n: nat): (r: seq<T>)
    ensures |r| == (if n < |s| then n else |s|)
    ensures r == s[..|r|]
  {
    if n < |s| then s[..n] else s
  }

  lemma TakeDatesValid(hs: seq<HistoryEntry>, n: nat)
    requires HistoryDatesValid(hs)
    ensures HistoryDatesValid(Take(hs, n)) && HistoryDatesValid(LastN(hs, n))
  {
    var t, l := Take(hs, n), LastN(hs, n);
    forall i | 0 <= i < |t| ensures Dates.Valid(t[i].updated) {
      assert t[i] == hs[i];
    }
    forall i | 0 <= i < |l| ensures Dates.Valid(l[i].updated) {
      assert l[i] == hs[|hs| - |l| + i];
    }
  }

  /**
   * Which history entries a line keeps when only mh are written: the
   * profile's serializer keeps the first ones, Take(mh), where the current
   * serializer keeps the last ones, the most recent.
   */
  datatype HistoryKept = FirstKept | LastKept

  function Kept(hs: seq<HistoryEntry>, mh: nat, keep: HistoryKept): (r: seq<HistoryEntry>)
    ensures keep.FirstKept? ==> r == Take(hs, mh)
    ensures keep.LastKept? ==> r == LastN(hs, mh)
  {
    match keep
    case FirstKept => Take(hs, mh)
    case LastKept => LastN(hs, mh)
  }

  /** The line of one field keeping mh of its history entries. */
  function OldEntryText(e: SourceLogEntry, mh: nat, keep: HistoryKept): string
    requires Dates.Valid(e.updated) && HistoryDatesValid(e.history)
  {
    TakeDatesValid(e.history, mh);
    OldEntryTextOf(e, Kept(e.history, mh, keep))
  }

  function OldEntryTexts(log: Log, mh: nat, keep: HistoryKept): (r: seq<string>)
    requires DatesValid(log)
    ensures |r| == |log|
  {
    if |log| == 0 then [] else [OldEntryText(log[0].1, mh, keep)] + OldEntryTexts(log[1..], mh, keep)
  }

  function OldLogText(log: Log, mh: nat, keep: HistoryKept): string
    requires DatesValid(log)
  {
    Text.Join(OldEntryTexts(log, mh, keep), "\n")
  }

  /** The log written with 0, 1, ..., 5 history entries per field. */
  function OldCandidates(log: Log, keep: HistoryKept): (c: seq<string>)
    requires DatesValid(log)
    ensures |c| == ProfileHistory + 1
  {
    seq(ProfileHistory + 1, k requires 0 <= k <= ProfileHistory => OldLogText(log, k, keep))
  }

  /** The largest number of history entries the profile's serializer tries to keep. */
  const ProfileHistory: nat := 5

  /**
   * The older serializer: 5 history entries per field, then 4, ..., 0 while
   * the text is 2000 characters or more, then cut.
   */
  function OldSerializeKeeping(log: Log, keep: HistoryKept): (r: string)
    requires DatesValid(log)
    ensures |r| <= MaxLength
  {
    FirstFit(OldCandidates(log, keep), ProfileHistory)
  }

  /** The profile's source log serializer as written: each field keeps its first history entries. */
  function OldSerialize(log: Log): (r: string)
    requires DatesValid(log)
    ensures |r| <= MaxLength
  {
    OldSerializeKeeping(log, FirstKept)
  }

  /** The same serializer keeping each field's most recent history entries instead. */
  function OldSerializeNewest(log: Log): (r: string)
    requires DatesValid(log)
    ensures |r| <= MaxLength
  {
    OldSerializeKeeping(log, LastKept)
  }

  /** The serializer keeps the largest history depth that fits. */
  lemma OldSerializeKeepsDeepestFit(log: Log, keep: HistoryKept, k: nat)
    requires DatesValid(log) && k <= ProfileHistory
    requires |OldLogText(log, k, keep)| < MaxLength
    requires forall j :: k < j <= ProfileHistory ==> |OldLogText(log, j, keep)| >= MaxLength
    ensures OldSerializeKeeping(log, keep) == OldLogText(log, k, keep)
  {
    var c := OldCandidates(log, keep);
    forall j | k < j <= ProfileHistory ensures |c[j]| >= MaxLength {
      assert c[j] == OldLogText(log, j, keep);
    }
    FirstFitKeepsDeepest(c, ProfileHistory, k);
  }

  // ---------------------------------------------------------------------------
  // Source log, older format: reading

  /** The profile's loader knows only the older formats: every '|' line is read as one. */
  function ClassifyProfileLine(l: string): LineOutcome {
    if '<' in l then Skipped
    else if '|' in l then OldLine(l)
    else ReallyOldLine(l)
  }

  function ClassifyProfileLines(lines: seq<string>): (r: seq<LineOutcome>)
    ensures |r| == |lines|
    ensures forall i :: 0 <= i < |lines| ==> r[i] == ClassifyProfileLine(lines[i])
  {
    seq(|lines|, i requires 0 <= i < |lines| => ClassifyProfileLine(lines[i]))
  }

  function LoadProfileLogText(text: string): Result<Log, string> {
    if text == "" then Success([]) else ApplyAll([], ClassifyProfileLines(Text.SplitLines(text)))
  }

  /** The profile's source log loader: a parse failure fails the load of the profile. */
  method LoadProfileLog(text: string) returns (r: Result<Log, string>)
    ensures r == LoadProfileLogText(text)
  {
    if text == "" {
      return Success([]);
    }
    var ll := Text.SplitLines(text);
    ghost var outcomes := ClassifyProfileLines(ll);
    var dsl: Log := [];
    var k := 0;
    while k < |ll|
      invariant 0 <= k <= |ll|
      invariant ApplyAll([], outcomes) == ApplyAll(dsl, outcomes[k..])
    {
      assert outcomes[k..][0] == ClassifyProfileLine(ll[k]) && outcomes[k..][1..] == outcomes[k + 1..];
      var o := ClassifyProfileLine(ll[k]);
      if o.Malformed? {
        return Failure(BadDate);
      }
      dsl := Apply(dsl, o);
      k := k + 1;
    }
    return Success(dsl);
  }

  // ---------------------------------------------------------------------------
  // Source log, older format: the round trip

  /** What an older-format history entry reads back as: minutes only, no value or hash. */
  function NormalizeOldHistoryEntry(h: HistoryEntry): HistoryEntry {
    HistoryEntry(h.source, Dates.ToMinute(h.updated), h.user, None, None)
  }

  function NormalizeOldHistory(hs: seq<HistoryEntry>): (r: seq<HistoryEntry>)
    ensures |r| == |hs|
    ensures forall i :: 0 <= i < |hs| ==> r[i] == NormalizeOldHistoryEntry(hs[i])
  {
    if |hs| == 0 then [] else [NormalizeOldHistoryEntry(hs[0])] + NormalizeOldHistory(hs[1..])
  }

  function NormalizeOldEntryWith(e: SourceLogEntry, hs: seq<HistoryEntry>): SourceLogEntry {
    e.(updated := Dates.ToMinute(e.updated), history := NormalizeOldHistory(hs))
  }

  function NormalizeOld(log: Log, mh: nat, keep: HistoryKept): (r: Log)
    ensures |r| == |log|
    ensures forall i :: 0 <= i < |log| ==>
      r[i] == (log[i].0, NormalizeOldEntryWith(log[i].1, Kept(log[i].1.history, mh, keep)))
  {
    if |log| == 0 then []
    else [(log[0].0, NormalizeOldEntryWith(log[0].1, Kept(log[0].1.history, mh, keep)))] + NormalizeOld(log[1..], mh, keep)
  }

  function AllOldHistoryColumns(hs: seq<HistoryEntry>): (cols: seq<string>)
    requires HistoryDatesValid(hs)
    ensures |cols| == 3 * |hs|
  {
    if |hs| == 0 then [] else OldHistoryColumns(hs[0]) + AllOldHistoryColumns(hs[1..])
  }

  /** The columns of an older-format line, as Split('|') finds them. */
  function OldEntryColumns(e: SourceLogEntry, hs: seq<HistoryEntry>): seq<string>
    requires Dates.Valid(e.updated) && HistoryDatesValid(hs)
  {
    [e.field, e.source, Dates.Format(e.updated), e.user] + (if |hs| == 0 then [""] else AllOldHistoryColumns(hs))
  }

  lemma {:induction false} OldHistoryTextsColumns(hs: seq<HistoryEntry>)
    requires HistoryDatesValid(hs) && |hs| > 0
    ensures Text.Join(OldHistoryTexts(hs), "|") == Text.Join(AllOldHistoryColumns(hs), "|")
  {
    if |hs| == 1 {
      assert AllOldHistoryColumns(hs) == OldHistoryColumns(hs[0]);
    } else {
      OldHistoryTextsColumns(hs[1..]);
      Text.JoinConcat(OldHistoryColumns(hs[0]), AllOldHistoryColumns(hs[1..]), "|");
    }
  }

  lemma Join4(a: string, b: string, c: string, d: string, sep: string)
    ensures Text.Join([a, b, c, d], sep) == a + sep + b + sep + c + sep + d
  {
    assert [c, d][1..] == [d];
    var cd := Text.Join([c, d], sep);
    assert cd == c + sep + d;
    assert [b, c, d][1..] == [c, d];
    var bcd := Text.Join([b, c, d], sep);
    assert bcd == b + sep + cd;
    assert [a, b, c, d][1..] == [b, c, d];
    assert Text.Join([a, b, c, d], sep) == a + sep + bcd;
  }

  lemma OldEntryTextIsJoin(e: SourceLogEntry, hs: seq<HistoryEntry>)
    requires Dates.Valid(e.updated) && HistoryDatesValid(hs)
    ensures OldEntryTextOf(e, hs) == Text.Join(OldEntryColumns(e, hs), "|")
  {
    var head := [e.field, e.source, Dates.Format(e.updated), e.user];
    Join4(e.field, e.source, Dates.Format(e.updated), e.user, "|");
    if |hs| == 0 {
      Text.JoinAppend(head, "", "|");
    } else {
      OldHistoryTextsColumns(hs);
      Text.JoinConcat(head, AllOldHistoryColumns(hs), "|");
    }
  }

  lemma {:induction false} AllOldHistoryColumnsPlain(hs: seq<HistoryEntry>)
    requires PlainHistories(hs)
    ensures AllPlain(AllOldHistoryColumns(hs))
  {
    if |hs| > 0 {
      FormatColumnPlain(hs[0].updated);
      assert PlainHistories(hs[1..]);
      AllOldHistoryColumnsPlain(hs[1..]);
      AllPlainConcat(OldHistoryColumns(hs[0]), AllOldHistoryColumns(hs[1..]));
    }
  }

  lemma AllPlainFour(a: string, b: string, c: string, d: string)
    requires PlainColumn(a) && PlainColumn(b) && PlainColumn(c) && PlainColumn(d)
    ensures AllPlain([a, b, c, d])
  {
  }

  lemma OldEntryColumnsPlain(e: SourceLogEntry, hs: seq<HistoryEntry>)
    requires PlainColumns(e) && PlainHistories(hs)
    ensures |OldEntryColumns(e, hs)| >= 5
    ensures AllPlain(OldEntryColumns(e, hs))
  {
    var tail := if |hs| == 0 then [""] else AllOldHistoryColumns(hs);
    AllOldHistoryColumnsPlain(hs);
    FormatColumnPlain(e.updated);
    AllPlainFour(e.field, e.source, Dates.Format(e.updated), e.user);
    AllPlainConcat([e.field, e.source, Dates.Format(e.updated), e.user], tail);
  }

  /** An older-format line is one non-empty line, with '|' and without '<'. */
  lemma OldEntryLineShape(e: SourceLogEntry, hs: seq<HistoryEntry>)
    requires PlainColumns(e) && PlainHistories(hs)
    ensures Text.Split(OldEntryTextOf(e, hs), '|') == OldEntryColumns(e, hs)
    ensures '|' in OldEntryTextOf(e, hs) && '<' !in OldEntryTextOf(e, hs)
    ensures OldEntryTextOf(e, hs) != "" && Text.IsLineText(OldEntryTextOf(e, hs))
  {
    var l := OldEntryTextOf(e, hs);
    var cols := OldEntryColumns(e, hs);
    OldEntryTextIsJoin(e, hs);
    OldEntryColumnsPlain(e, hs);
    Text.SplitJoin(cols, '|');
    Text.JoinNoChar(cols, "|", '<');
    Text.JoinNoChar(cols, "|", '\n');
    Text.JoinNoChar(cols, "|", '\r');
    assert l[|e.field|] == '|';
  }

  lemma OldHistoryStep(cl: seq<string>, i: nat, h: HistoryEntry, rest: seq<string>)
    requires Dates.Valid(h.updated)
    requires i <= |cl| && cl[i..] == OldHistoryColumns(h) + rest
    ensures i + 3 <= |cl| && cl[i + 3..] == rest
    ensures OldHistory(cl, i) == Prepend([NormalizeOldHistoryEntry(h)], OldHistory(cl, i + 3))
  {
    SplitColumns(cl, i, OldHistoryColumns(h), rest);
    assert cl[i + 1] == Dates.Format(h.updated);
    ParseFormattedColumn(h.updated);
  }

  lemma {:induction false} OldHistoryReads(cl: seq<string>, i: nat, hs: seq<HistoryEntry>)
    requires PlainHistories(hs)
    requires i <= |cl| && cl[i..] == AllOldHistoryColumns(hs)
    ensures OldHistory(cl, i) == Success(NormalizeOldHistory(hs))
    decreases |hs|
  {
    if |hs| == 0 {
      assert |cl| == i;
    } else {
      OldHistoryStep(cl, i, hs[0], AllOldHistoryColumns(hs[1..]));
      assert PlainHistories(hs[1..]);
      OldHistoryReads(cl, i + 3, hs[1..]);
      assert NormalizeOldHistory(hs) == [NormalizeOldHistoryEntry(hs[0])] + NormalizeOldHistory(hs[1..]);
    }
  }

  lemma OldEntryDateRead(e: SourceLogEntry, hs: seq<HistoryEntry>)
    requires Dates.Valid(e.updated) && HistoryDatesValid(hs)
    ensures ParseDate(OldEntryColumns(e, hs)[2]) == Some(Dates.ToMinute(e.updated))
  {
    assert OldEntryColumns(e, hs)[2] == Dates.Format(e.updated);
    ParseFormattedColumn(e.updated);
  }

  lemma OldEntryHistoryRead(e: SourceLogEntry, hs: seq<HistoryEntry>)
    requires Dates.Valid(e.updated) && PlainHistories(hs)
    ensures OldHistory(OldEntryColumns(e, hs), 4) == Success(NormalizeOldHistory(hs))
  {
    var cols := OldEntryColumns(e, hs);
    if |hs| == 0 {
      assert |cols| == 5;
    } else {
      assert cols[4..] == AllOldHistoryColumns(hs);
      OldHistoryReads(cols, 4, hs);
    }
  }

  lemma OldLineReads(e: SourceLogEntry, hs: seq<HistoryEntry>)
    requires PlainEntry(e) && PlainHistories(hs)
    ensures OldLine(OldEntryTextOf(e, hs)) == Parsed(NormalizeOldEntryWith(e, hs))
  {
    var l := OldEntryTextOf(e, hs);
    var cols := OldEntryColumns(e, hs);
    OldEntryLineShape(e, hs);
    OldEntryDateRead(e, hs);
    OldEntryHistoryRead(e, hs);
    OldEntryColumnsHead(e, hs);
    OldColumnsRead(l, cols, Dates.ToMinute(e.updated), NormalizeOldHistory(hs));
  }

  lemma OldEntryColumnsHead(e: SourceLogEntry, hs: seq<HistoryEntry>)
    requires Dates.Valid(e.updated) && HistoryDatesValid(hs)
    ensures |OldEntryColumns(e, hs)| >= 4
    ensures OldEntryColumns(e, hs)[0] == e.field && OldEntryColumns(e, hs)[1] == e.source
    ensures OldEntryColumns(e, hs)[3] == e.user
  {
  }

  /** A line of at least four columns is read by its columns in the older format. */
  lemma OldColumnsRead(l: string, cols: seq<string>, d: Dates.DateTime, h: seq<HistoryEntry>)
    requires Text.Split(l, '|') == cols && |cols| >= 4
    requires ParseDate(cols[2]) == Some(d) && OldHistory(cols, 4) == Success(h)
    ensures OldLine(l) == Parsed(SourceLogEntry(Text.Trim(cols[0]), Text.Trim(cols[1]), d, Text.Trim(cols[3]), h))
  {
  }

  /** Every older-format line reads back as its entry with the history that was written. */
  lemma OldEntryLineRoundTrip(e: SourceLogEntry, hs: seq<HistoryEntry>)
    requires PlainEntry(e) && PlainHistories(hs)
    ensures ClassifyProfileLine(OldEntryTextOf(e, hs)) == Parsed(NormalizeOldEntryWith(e, hs))
    ensures OldEntryTextOf(e, hs) != "" && Text.IsLineText(OldEntryTextOf(e, hs))
  {
    OldEntryLineShape(e, hs);
    OldLineReads(e, hs);
  }

  /**
   * The serializer as written keeps the first mh history entries: once a
   * field has more than mh entries, reading its line back loses the most
   * recent one, which SetUpdated appends last.
   */
  lemma OldSaveLosesNewest(e: SourceLogEntry, mh: nat)
    requires PlainEntry(e) && mh < |e.history|
    requires forall j :: 0 <= j < mh ==> e.history[j].source != e.history[|e.history| - 1].source
    ensures HistoryDatesValid(e.history)
    ensures ClassifyProfileLine(OldEntryText(e, mh, FirstKept)) == Parsed(NormalizeOldEntryWith(e, Take(e.history, mh)))
    ensures forall j :: 0 <= j < mh ==>
      NormalizeOldEntryWith(e, Take(e.history, mh)).history[j].source != e.history[|e.history| - 1].source
  {
    var h := e.history;
    TakeDatesValid(h, mh);
    TakePlain(h, mh);
    OldEntryLineRoundTrip(e, Take(h, mh));
  }

  lemma TakePlain(hs: seq<HistoryEntry>, n: nat)
    requires PlainHistories(hs)
    ensures PlainHistories(Take(hs, n)) && PlainHistories(LastN(hs, n))
  {
    LastNPlain(hs, n);
  }

  /** Keeping the last mh entries instead, the most recent one is read back last. */
  lemma OldSaveKeepsNewest(e: SourceLogEntry, mh: nat)
    requires PlainEntry(e) && 0 < mh && 0 < |e.history|
    ensures HistoryDatesValid(e.history)
    ensures ClassifyProfileLine(OldEntryText(e, mh, LastKept)) == Parsed(NormalizeOldEntryWith(e, LastN(e.history, mh)))
    ensures var r := NormalizeOldEntryWith(e, LastN(e.history, mh)).history;
      |r| > 0 && r[|r| - 1] == NormalizeOldHistoryEntry(e.history[|e.history| - 1])
  {
    KeptLineRoundTrip(e, mh, LastKept);
    NewestKeptLast(e, mh);
  }

  /**
   * A line the older serializer writes reads back with the history it kept.
   * `PlainEntry` is the precondition of the current codec's round trip too.
   * The older format never writes the history's value and hash columns, so
   * their clauses are not used here; they only keep both round trips about
   * the same entries, the ones the profile code builds.
   */
  lemma KeptLineRoundTrip(e: SourceLogEntry, mh: nat, keep: HistoryKept)
    requires PlainEntry(e)
    ensures HistoryDatesValid(e.history)
    ensures ClassifyProfileLine(OldEntryText(e, mh, keep)) == Parsed(NormalizeOldEntryWith(e, Kept(e.history, mh, keep)))
    ensures OldEntryText(e, mh, keep) != "" && Text.IsLineText(OldEntryText(e, mh, keep))
  {
    TakeDatesValid(e.history, mh);
    TakePlain(e.history, mh);
    OldEntryLineRoundTrip(e, Kept(e.history, mh, keep));
  }

  /** The last mh entries end with the most recent one. */
  lemma NewestKeptLast(e: SourceLogEntry, mh: nat)
    requires 0 < mh && 0 < |e.history|
    ensures var r := NormalizeOldEntryWith(e, LastN(e.history, mh)).history;
      |r| > 0 && r[|r| - 1] == NormalizeOldHistoryEntry(e.history[|e.history| - 1])
  {
    var k := LastN(e.history, mh);
    assert k[|k| - 1] == e.history[|e.history| - 1];
  }

  lemma OldEntryTextsAt(log: Log, mh: nat, keep: HistoryKept, i: nat)
    requires DatesValid(log) && i < |log|
    ensures OldEntryTexts(log, mh, keep)[i] == OldEntryText(log[i].1, mh, keep)
  {
    if i > 0 {
      OldEntryTextsAt(log[1..], mh, keep, i - 1);
    }
  }

  lemma OldEntryLineAt(log: Log, mh: nat, keep: HistoryKept, i: nat)
    requires PlainLog(log) && i < |log|
    ensures DatesValid(log)
    ensures ClassifyProfileLine(OldEntryTexts(log, mh, keep)[i]) == Parsed(NormalizeOld(log, mh, keep)[i].1)
    ensures OldEntryTexts(log, mh, keep)[i] != "" && Text.IsLineText(OldEntryTexts(log, mh, keep)[i])
  {
    PlainLogDatesValid(log);
    OldEntryTextsAt(log, mh, keep, i);
    var e := log[i].1;
    assert PlainEntry(e);
    KeptLineRoundTrip(e, mh, keep);
  }

  lemma NormalizeOldKeys(log: Log, mh: nat, keep: HistoryKept)
    requires PlainLog(log)
    ensures FreshFields([], NormalizeOld(log, mh, keep))
  {
    assert Keys<SourceLogEntry>([]) == [];
  }

  /**
   * Loading what the older serializer wrote with history depth mh gives back
   * the log: the same fields in the same order, dates to the minute, and of
   * each field's history the entries kept (the first mh as the profile
   * writes them, or the last mh) without values or hashes. `PlainLog` is the
   * precondition of the current codec's round trip too; its clauses on
   * history values and hashes are not used here, since the older format
   * never writes those columns.
   */
  lemma OldLogRoundTrip(log: Log, mh: nat, keep: HistoryKept)
    requires PlainLog(log)
    ensures DatesValid(log)
    ensures LoadProfileLogText(OldLogText(log, mh, keep)) == Success(NormalizeOld(log, mh, keep))
  {
    PlainLogDatesValid(log);
    if |log| == 0 {
      assert OldLogText(log, mh, keep) == "";
    } else {
      var lines := OldEntryTexts(log, mh, keep);
      forall i | 0 <= i < |lines| ensures lines[i] != "" && Text.IsLineText(lines[i]) {
        OldEntryLineAt(log, mh, keep, i);
      }
      JoinNonEmpty(lines, "\n");
      Text.SplitLinesJoin(lines);
      OldLoadParsed(log, mh, keep);
    }
  }

  lemma OldLoadParsed(log: Log, mh: nat, keep: HistoryKept)
    requires PlainLog(log)
    ensures DatesValid(log)
    ensures ApplyAll([], ClassifyProfileLines(OldEntryTexts(log, mh, keep))) == Success(NormalizeOld(log, mh, keep))
  {
    PlainLogDatesValid(log);
    var n := NormalizeOld(log, mh, keep);
    forall i | 0 <= i < |log|
      ensures ClassifyProfileLines(OldEntryTexts(log, mh, keep))[i] == ParsedAll(n)[i]
    {
      OldEntryLineAt(log, mh, keep, i);
    }
    assert ClassifyProfileLines(OldEntryTexts(log, mh, keep)) == ParsedAll(n);
    NormalizeOldKeys(log, mh, keep);
    ApplyParsed([], n);
    assert [] + n == n;
  }

  // ---------------------------------------------------------------------------
  // Hash log: one "property:hash" line per property

  /** The hash log: property name to the hash of its last imported value, possibly null. */
  type HashLog = Dict<Option<string>>

  function HashLine(kv: (string, Option<string>)): string {
    kv.0 + ":" + FormatOptional(kv.1)
  }

  function HashLines(d: HashLog): (r: seq<string>)
    ensures |r| == |d|
    ensures forall i :: 0 <= i < |d| ==> r[i] == HashLine(d[i])
  {
    seq(|d|, i requires 0 <= i < |d| => HashLine(d[i]))
  }

  /** The hash log serializer. */
  function SaveHashLog(d: HashLog): string {
    Text.Join(HashLines(d), "\n")
  }

  /**
   * One line of the hash log loader: lines without ':' and lines with '<' are
   * skipped (None); otherwise the trimmed name and the trimmed text up to the
   * next ':' are added.
   */
  function HashLineEntry(l: string): (r: Option<(string, string)>)
    ensures r.Some? <==> ':' in l && '<' !in l
  {
    if ':' !in l then None
    else if '<' in l then None
    else
      var cl := Text.Split(l, ':');
      Some((Text.Trim(cl[0]), Text.Trim(cl[1])))
  }

  /** Dictionary.Add for every line read: a repeated name throws and fails the load. */
  function AddAll(d: HashLog, lines: seq<string>): (r: Result<HashLog, string>)
    decreases |lines|
  {
    if |lines| == 0 then Success(d)
    else match HashLineEntry(lines[0])
      case None => AddAll(d, lines[1..])
      case Some((k, v)) =>
        match Add(d, k, Some(v))
        case Failure(err) => Failure(err)
        case Success(d') => AddAll(d', lines[1..])
  }

  function LoadHashLogText(text: string): Result<HashLog, string> {
    if text == "" then Success([]) else AddAll([], Text.SplitLines(text))
  }

  /** The hash log loader. */
  method LoadHashLog(text: string) returns (r: Result<HashLog, string>)
    ensures r == LoadHashLogText(text)
  {
    var dsl: HashLog := [];
    if text == "" {
      return Success(dsl);
    }
    var ll := Text.SplitLines(text);
    var k := 0;
    while k < |ll|
      invariant 0 <= k <= |ll|
      invariant AddAll([], ll) == AddAll(dsl, ll[k..])
    {
      assert ll[k..][0] == ll[k] && ll[k..][1..] == ll[k + 1..];
      var l := ll[k];
      k := k + 1;
      if ':' !in l || '<' in l {
        continue;
      }
      var cl := Text.Split(l, ':');
      var pn := Text.Trim(cl[0]);
      var cs := Text.Trim(cl[1]);
      if ContainsKey(dsl, pn) {
        return Failure("An item with the same key has already been added.");
      }
      dsl := dsl + [(pn, Some(cs))];
    }
    return Success(dsl);
  }

  // ---------------------------------------------------------------------------
  // Hash log: the round trip

  /** A name or hash the hash log can carry unchanged. */
  predicate HashColumn(s: string) {
    HashText(s) && Text.Trim(s) == s
  }

  predicate PlainHashLog(d: HashLog) {
    && UniqueKeys(d)
    && forall i :: 0 <= i < |d| ==> HashColumn(d[i].0) && HashColumn(FormatOptional(d[i].1))
  }

  /** A null hash is written as the empty text and reads back as the empty text. */
  function NormalizeHashes(d: HashLog): (r: HashLog)
    ensures |r| == |d|
    ensures forall i :: 0 <= i < |d| ==> r[i] == (d[i].0, Some(FormatOptional(d[i].1)))
  {
    seq(|d|, i requires 0 <= i < |d| => (d[i].0, Some(FormatOptional(d[i].1))))
  }

  /** A name or hash the hash log can carry: no ':', no '<', no line break. */
  predicate HashText(s: string) {
    ':' !in s && '<' !in s && Text.IsLineText(s)
  }

  lemma HashLineSplit(k: string, v: string)
    requires HashText(k) && HashText(v)
    ensures Text.Split(k + ":" + v, ':') == [k, v]
    ensures ':' in k + ":" + v && '<' !in k + ":" + v && Text.IsLineText(k + ":" + v)
  {
    assert k + ":" + v == Text.Join([k, v], ":") by {
      assert [k, v][1..] == [v];
    }
    Text.SplitJoin([k, v], ':');
    assert (k + ":" + v)[|k|] == ':';
  }

  lemma HashLineRead(kv: (string, Option<string>))
    requires HashColumn(kv.0) && HashColumn(FormatOptional(kv.1))
    ensures HashLineEntry(HashLine(kv)) == Some((kv.0, FormatOptional(kv.1)))
    ensures HashLine(kv) != "" && Text.IsLineText(HashLine(kv))
  {
    HashLineSplit(kv.0, FormatOptional(kv.1));
  }

  lemma {:induction false} AddAllFresh(acc: HashLog, d: HashLog, lines: seq<string>)
    requires UniqueKeys(acc + d) && |lines| == |d|
    requires forall i :: 0 <= i < |d| ==> d[i].1.Some? && HashLineEntry(lines[i]) == Some((d[i].0, d[i].1.value))
    ensures AddAll(acc, lines) == Success(acc + d)
    decreases |d|
  {
    if |d| == 0 {
      assert acc + d == acc;
    } else {
      AddAllFreshStep(acc, d, lines);
      AddAllFresh(acc + [d[0]], d[1..], lines[1..]);
    }
  }

  /** The first line adds its fresh name to the log read so far. */
  lemma AddAllFreshStep(acc: HashLog, d: HashLog, lines: seq<string>)
    requires UniqueKeys(acc + d) && |lines| == |d| > 0
    requires d[0].1.Some? && HashLineEntry(lines[0]) == Some((d[0].0, d[0].1.value))
    ensures AddAll(acc, lines) == AddAll(acc + [d[0]], lines[1..])
    ensures acc + d == (acc + [d[0]]) + d[1..]
  {
    var k := d[0].0;
    assert (acc + d)[|acc|].0 == k;
    forall j | 0 <= j < |acc| ensures acc[j].0 != k {
      assert (acc + d)[j] == acc[j];
    }
    assert acc + d == (acc + [d[0]]) + d[1..];
    assert Add(acc, k, Some(d[0].1.value)) == Success(acc + [d[0]]);
  }

  lemma HashLinesRead(d: HashLog)
    requires PlainHashLog(d)
    ensures forall i :: 0 <= i < |d| ==>
      HashLineEntry(HashLines(d)[i]) == Some((d[i].0, FormatOptional(d[i].1)))
    ensures forall i :: 0 <= i < |d| ==> HashLines(d)[i] != "" && Text.IsLineText(HashLines(d)[i])
  {
    forall i | 0 <= i < |d|
      ensures HashLineEntry(HashLines(d)[i]) == Some((d[i].0, FormatOptional(d[i].1)))
      ensures HashLines(d)[i] != "" && Text.IsLineText(HashLines(d)[i])
    {
      HashLineRead(d[i]);
    }
  }

  lemma NormalizeHashesUnique(d: HashLog)
    requires UniqueKeys(d)
    ensures UniqueKeys(NormalizeHashes(d))
  {
  }

  lemma HashLinesAdd(d: HashLog)
    requires PlainHashLog(d)
    ensures AddAll([], HashLines(d)) == Success(NormalizeHashes(d))
  {
    var n := NormalizeHashes(d);
    HashLinesRead(d);
    NormalizeHashesUnique(d);
    assert [] + n == n;
    AddAllFresh([], n, HashLines(d));
  }

  /** Loading a saved hash log gives it back, a null hash as the empty text. */
  lemma HashLogRoundTrip(d: HashLog)
    requires PlainHashLog(d)
    ensures LoadHashLogText(SaveHashLog(d)) == Success(NormalizeHashes(d))
  {
    var lines := HashLines(d);
    HashLinesRead(d);
    if |d| == 0 {
      assert SaveHashLog(d) == "";
    } else {
      JoinNonEmpty(lines, "\n");
      Text.SplitLinesJoin(lines);
      HashLinesAdd(d);
    }
  }
}
