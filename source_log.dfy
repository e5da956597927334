/**
 * The per-property source log of a profile: for every property, the source
 * that last set it, when and by whom, and a short audit history. It is kept
 * in the profile store as one text of at most 2000 characters, one line per
 * property. This module models the current codec (the SourceLog class):
 * "field|source|yyyy-MM-dd HH:mm|user|5|" followed by five columns per
 * history entry, and the loaders of the two older line formats it still reads.
 */
module SourceLogs {
  import opened Wrappers
  import Text
  import Dates
  import opened Dicts

  datatype HistoryEntry = HistoryEntry(
    source: string,
    updated: Dates.DateTime,
    user: string,
    value: Option<string>,
    hash: Option<string>)

  datatype SourceLogEntry = SourceLogEntry(
    field: string,
    source: string,
    updated: Dates.DateTime,
    user: string,
    history: seq<HistoryEntry>)

  /** The log, keyed by field name, in the order the fields were first logged. */
  type Log = Dict<SourceLogEntry>

  /** The longest text the store property holds. */
  const MaxLength: nat := 2000

  /** The largest number of history entries the serializer tries to keep per field. */
  const MaxHistory: nat := 10

  // ---------------------------------------------------------------------------
  // Serialization

  /** string.Format writes a null argument as the empty text. */
  function FormatOptional(v: Option<string>): string {
    v.GetOr("")
  }

  /** Reverse().Take(n).Reverse(): the last n elements, in their order. */
  function LastN<T>(s: seq<T>, n: nat): (r: seq<T>)
    ensures |r| == (if n < |s| then n else |s|)
    ensures r == s[|s| - |r|..]
  {
    if n < |s| then s[|s| - n..] else s
  }

  predicate HistoryDatesValid(hs: seq<HistoryEntry>) {
    forall i :: 0 <= i < |hs| ==> Dates.Valid(hs[i].updated)
  }

  predicate DatesValid(log: Log) {
    forall i :: 0 <= i < |log| ==> Dates.Valid(log[i].1.updated) && HistoryDatesValid(log[i].1.history)
  }

  /** The five columns of one history entry. */
  function HistoryColumns(h: HistoryEntry): (cols: seq<string>)
    requires Dates.Valid(h.updated)
    ensures |cols| == 5
  {
    [h.source, Dates.Format(h.updated), h.user, FormatOptional(h.value), FormatOptional(h.hash)]
  }

  /** "{0}|{1:yyyy-MM-dd HH:mm}|{2}|{3}|{4}" of one history entry. */
  function HistoryText(h: HistoryEntry): string
    requires Dates.Valid(h.updated)
  {
    Text.Join(HistoryColumns(h), "|")
  }

  function HistoryTexts(hs: seq<HistoryEntry>): (r: seq<string>)
    requires HistoryDatesValid(hs)
    ensures |r| == |hs|
  {
    if |hs| == 0 then [] else [HistoryText(hs[0])] + HistoryTexts(hs[1..])
  }

  /** The line of one field, keeping at most mh history entries, the most recent ones. */
  function EntryText(e: SourceLogEntry, mh: nat): string
    requires Dates.Valid(e.updated) && HistoryDatesValid(e.history)
  {
    e.field + "|" + e.source + "|" + Dates.Format(e.updated) + "|" + e.user + "|5|"
    + Text.Join(HistoryTexts(LastN(e.history, mh)), "|")
  }

  function EntryTexts(log: Log, mh: nat): (r: seq<string>)
    requires DatesValid(log)
    ensures |r| == |log|
  {
    if |log| == 0 then [] else [EntryText(log[0].1, mh)] + EntryTexts(log[1..], mh)
  }

  /** The whole log with at most mh history entries per field. */
  function LogText(log: Log, mh: nat): string
    requires DatesValid(log)
  {
    Text.Join(EntryTexts(log, mh), "\n")
  }

  /**
   * The chain of fall-backs of the serializer: candidates[mh] is the log with
   * mh history entries per field; the first one under 2000 characters, trying
   * mh, mh - 1, ..., 0, is kept, and the last one is cut when none fits.
   */
  function FirstFit(candidates: seq<string>, mh: nat): (r: string)
    requires mh < |candidates|
    ensures |r| <= MaxLength
  {
    var t := candidates[mh];
    if |t| < MaxLength then t
    else if mh == 0 then t[..MaxLength]
    else FirstFit(candidates, mh - 1)
  }

  /** The log written with 0, 1, ..., 10 history entries per field. */
  function Candidates(log: Log): (c: seq<string>)
    requires DatesValid(log)
    ensures |c| == MaxHistory + 1
  {
    seq(MaxHistory + 1, k requires 0 <= k <= MaxHistory => LogText(log, k))
  }

  /** SourceLog.Serialize. */
  function Serialize(log: Log): (r: string)
    requires DatesValid(log)
    ensures |r| <= MaxLength
  {
    FirstFit(Candidates(log), MaxHistory)
  }

  /**
   * The serializer keeps the largest history depth that fits: when candidate
   * k is under 2000 characters and every deeper one is not, candidate k is the
   * stored text.
   */
  lemma {:induction false} FirstFitKeepsDeepest(candidates: seq<string>, mh: nat, k: nat)
    requires mh < |candidates|
    requires k <= mh && |candidates[k]| < MaxLength
    requires forall j :: k < j <= mh ==> |candidates[j]| >= MaxLength
    ensures FirstFit(candidates, mh) == candidates[k]
    decreases mh
  {
    if k < mh {
      FirstFitKeepsDeepest(candidates, mh - 1, k);
    }
  }

  /** When no depth fits, the history-free candidate is cut at 2000 characters. */
  lemma {:induction false} FirstFitTruncates(candidates: seq<string>, mh: nat)
    requires mh < |candidates|
    requires forall j :: 0 <= j <= mh ==> |candidates[j]| >= MaxLength
    ensures FirstFit(candidates, mh) == candidates[0][..MaxLength]
    decreases mh
  {
    if mh > 0 {
      FirstFitTruncates(candidates, mh - 1);
    }
  }

  /** The log with the most history that fits is the stored text. */
  lemma SerializeKeepsDeepestFit(log: Log, k: nat)
    requires DatesValid(log)
    requires k <= MaxHistory && |LogText(log, k)| < MaxLength
    requires forall j :: k < j <= MaxHistory ==> |LogText(log, j)| >= MaxLength
    ensures Serialize(log) == LogText(log, k)
  {
    FirstFitKeepsDeepest(Candidates(log), MaxHistory, k);
  }

  // ---------------------------------------------------------------------------
  // Loading

  /** What one line of the stored text contributes. */
  datatype LineOutcome =
    | Skipped                        // the line is ignored
    | Parsed(entry: SourceLogEntry)  // the line sets the entry of its field
    | Malformed                      // DateTime.Parse throws: the whole load fails

  /** DateTime.Parse(text.Trim()). */
  function ParseDate(text: string): Option<Dates.DateTime> {
    Dates.Parse(Text.Trim(text))
  }

  /** Prefixes the history read so far to the outcome of reading the rest. */
  function Prepend(acc: seq<HistoryEntry>, r: Result<seq<HistoryEntry>, string>): Result<seq<HistoryEntry>, string> {
    match r
    case Success(rest) => Success(acc + rest)
    case Failure(e) => Failure(e)
  }

  lemma PrependNothing(r: Result<seq<HistoryEntry>, string>)
    ensures Prepend([], r) == r
  {
    if r.Success? {
      assert [] + r.value == r.value;
    }
  }

  lemma PrependTwice(a: seq<HistoryEntry>, b: seq<HistoryEntry>, r: Result<seq<HistoryEntry>, string>)
    ensures Prepend(a, Prepend(b, r)) == Prepend(a + b, r)
  {
    if r.Success? {
      assert a + (b + r.value) == (a + b) + r.value;
    }
  }

  const BadDate: string := "String was not recognized as a valid DateTime."

  /** The history quintuples of a current-format line, from column i on. */
  function CurrentHistory(cl: seq<string>, i: nat): Result<seq<HistoryEntry>, string>
    decreases |cl| - i
  {
    if i + 4 >= |cl| then Success([])
    else match ParseDate(cl[i + 1])
      case None => Failure(BadDate)
      case Some(d) =>
        Prepend([HistoryEntry(cl[i], d, cl[i + 2], Some(cl[i + 3]), Some(cl[i + 4]))], CurrentHistory(cl, i + 5))
  }

  /** The history triples of an old-format line, from column i on. */
  function OldHistory(cl: seq<string>, i: nat): Result<seq<HistoryEntry>, string>
    decreases |cl| - i
  {
    if i + 2 >= |cl| then Success([])
    else match ParseDate(cl[i + 1])
      case None => Failure(BadDate)
      case Some(d) => Prepend([HistoryEntry(cl[i], d, cl[i + 2], None, None)], OldHistory(cl, i + 3))
  }

  /** "field|source|date|user|5|history…": at least five columns. */
  function CurrentLine(l: string): LineOutcome {
    var cl := Text.Split(l, '|');
    if |cl| < 5 then Skipped
    else match ParseDate(cl[2])
      case None => Malformed
      case Some(d) =>
        match CurrentHistory(cl, 5)
        case Failure(_) => Malformed
        case Success(h) => Parsed(SourceLogEntry(Text.Trim(cl[0]), Text.Trim(cl[1]), d, Text.Trim(cl[3]), h))
  }

  /** "field|source|date|user|history…": at least four columns, triples of history. */
  function OldLine(l: string): LineOutcome {
    var cl := Text.Split(l, '|');
    if |cl| < 4 then Skipped
    else match ParseDate(cl[2])
      case None => Malformed
      case Some(d) =>
        match OldHistory(cl, 4)
        case Failure(_) => Malformed
        case Success(h) => Parsed(SourceLogEntry(Text.Trim(cl[0]), Text.Trim(cl[1]), d, Text.Trim(cl[3]), h))
  }

  /** "field:source": no date, no user, no history. */
  function ReallyOldLine(l: string): LineOutcome {
    if ':' !in l then Skipped
    else
      var cl := Text.Split(l, ':');
      if |cl| < 2 then Skipped
      else Parsed(SourceLogEntry(Text.Trim(cl[0]), Text.Trim(cl[1]), Dates.MinValue, "", []))
  }

  /** The format of a line is told by its columns: HTML lines are dropped. */
  function ClassifyLine(l: string): LineOutcome {
    if '<' in l then Skipped
    else if '|' in l then
      var cl := Text.Split(l, '|');
      if |cl| > 4 && cl[4] == "5" then CurrentLine(l) else OldLine(l)
    else ReallyOldLine(l)
  }

  /** this[entry.Field] = entry for a parsed line; nothing otherwise. */
  function Apply(log: Log, o: LineOutcome): Log {
    if o.Parsed? then Set(log, o.entry.field, o.entry) else log
  }

  function ClassifyLines(lines: seq<string>): (r: seq<LineOutcome>)
    ensures |r| == |lines|
    ensures forall i :: 0 <= i < |lines| ==> r[i] == ClassifyLine(lines[i])
  {
    seq(|lines|, i requires 0 <= i < |lines| => ClassifyLine(lines[i]))
  }

  /** The lines applied in order; a later line for a field replaces an earlier one. */
  function ApplyAll(log: Log, outcomes: seq<LineOutcome>): Result<Log, string>
    decreases |outcomes|
  {
    if |outcomes| == 0 then Success(log)
    else if outcomes[0].Malformed? then Failure(BadDate)
    else ApplyAll(Apply(log, outcomes[0]), outcomes[1..])
  }

  function LoadText(text: string): Result<Log, string> {
    if text == "" then Success([]) else ApplyAll([], ClassifyLines(Text.SplitLines(text)))
  }

  class SourceLog {
    var entries: Log

    constructor()
      ensures entries == []
    {
      entries := [];
    }

    method LoadReallyOldFormat(l: string)
      modifies this
      ensures entries == Apply(old(entries), ReallyOldLine(l))
    {
      if ':' !in l {
        return;
      }
      var cl := Text.Split(l, ':');
      if |cl| < 2 {
        return;
      }
      var entry := SourceLogEntry(Text.Trim(cl[0]), Text.Trim(cl[1]), Dates.MinValue, "", []);
      entries := Set(entries, entry.field, entry);
    }

    method LoadOldFormat(l: string) returns (ok: bool)
      modifies this
      ensures ok <==> !OldLine(l).Malformed?
      ensures entries == Apply(old(entries), OldLine(l))
    {
      var cl := Text.Split(l, '|');
      if |cl| < 4 {
        return true;
      }
      var updated := ParseDate(cl[2]);
      if updated.None? {
        return false;
      }
      // after the first four columns come the history triples
      var history := ReadOldHistory(cl);
      if history.Failure? {
        return false;
      }
      var entry := SourceLogEntry(Text.Trim(cl[0]), Text.Trim(cl[1]), updated.value, Text.Trim(cl[3]), history.value);
      assert OldLine(l) == Parsed(entry);
      entries := Set(entries, entry.field, entry);
      ok := true;
    }

    static method ReadOldHistory(cl: seq<string>) returns (r: Result<seq<HistoryEntry>, string>)
      ensures r == OldHistory(cl, 4)
    {
      var history: seq<HistoryEntry> := [];
      var i := 4;
      PrependNothing(OldHistory(cl, 4));
      while i + 2 < |cl|
        invariant OldHistory(cl, 4) == Prepend(history, OldHistory(cl, i))
        decreases |cl| - i
      {
        var d := ParseDate(cl[i + 1]);
        if d.None? {
          return Failure(BadDate);
        }
        var he := HistoryEntry(cl[i], d.value, cl[i + 2], None, None);
        PrependTwice(history, [he], OldHistory(cl, i + 3));
        history := history + [he];
        i := i + 3;
      }
      assert history + [] == history;
      return Success(history);
    }

    method LoadCurrentFormat(l: string) returns (ok: bool)
      modifies this
      ensures ok <==> !CurrentLine(l).Malformed?
      ensures entries == Apply(old(entries), CurrentLine(l))
    {
      var cl := Text.Split(l, '|');
      if |cl| < 5 {
        return true;
      }
      var updated := ParseDate(cl[2]);
      if updated.None? {
        return false;
      }
      // the fifth column is the width of a history entry, always 5
      var history := ReadCurrentHistory(cl);
      if history.Failure? {
        return false;
      }
      var entry := SourceLogEntry(Text.Trim(cl[0]), Text.Trim(cl[1]), updated.value, Text.Trim(cl[3]), history.value);
      assert CurrentLine(l) == Parsed(entry);
      entries := Set(entries, entry.field, entry);
      ok := true;
    }

    static method ReadCurrentHistory(cl: seq<string>) returns (r: Result<seq<HistoryEntry>, string>)
      ensures r == CurrentHistory(cl, 5)
    {
      var history: seq<HistoryEntry> := [];
      var i := 5;
      PrependNothing(CurrentHistory(cl, 5));
      while i + 4 < |cl|
        invariant CurrentHistory(cl, 5) == Prepend(history, CurrentHistory(cl, i))
        decreases |cl| - i
      {
        var d := ParseDate(cl[i + 1]);
        if d.None? {
          return Failure(BadDate);
        }
        var he := HistoryEntry(cl[i], d.value, cl[i + 2], Some(cl[i + 3]), Some(cl[i + 4]));
        PrependTwice(history, [he], CurrentHistory(cl, i + 5));
        history := history + [he];
        i := i + 5;
      }
      assert history + [] == history;
      return Success(history);
    }

    /** One line of SourceLog.Load: its format is told by its columns, HTML lines are dropped. */
    method LoadLine(l: string) returns (ok: bool)
      modifies this
      ensures ok <==> !ClassifyLine(l).Malformed?
      ensures entries == Apply(old(entries), ClassifyLine(l))
    {
      if '<' in l {
        return true;
      }
      if '|' in l {
        var cl := Text.Split(l, '|');
        if |cl| > 4 && cl[4] == "5" {
          ok := LoadCurrentFormat(l);
        } else {
          ok := LoadOldFormat(l);
        }
      } else {
        LoadReallyOldFormat(l);
        ok := true;
      }
    }

    /** SourceLog.Load: a parse failure on any line fails the whole load. */
    static method Load(text: string) returns (r: Result<SourceLog, string>)
      ensures r.Failure? <==> LoadText(text).Failure?
      ensures r.Success? ==> fresh(r.value) && r.value.entries == LoadText(text).value
    {
      var dsl := new SourceLog();
      if text == "" {
        return Success(dsl);
      }
      var ll := Text.SplitLines(text);
      ghost var outcomes := ClassifyLines(ll);
      var k := 0;
      while k < |ll|
        invariant 0 <= k <= |ll|
        invariant ApplyAll([], outcomes) == ApplyAll(dsl.entries, outcomes[k..])
        invariant fresh(dsl)
      {
        assert outcomes[k..][0] == ClassifyLine(ll[k]) && outcomes[k..][1..] == outcomes[k + 1..];
        var ok := dsl.LoadLine(ll[k]);
        if !ok {
          return Failure(BadDate);
        }
        k := k + 1;
      }
      return Success(dsl);
    }
  }

  // ---------------------------------------------------------------------------
  // The round trip

  /** A column the codec can carry: no column or line delimiter, no HTML. */
  predicate PlainColumn(s: string) {
    '|' !in s && '<' !in s && Text.IsLineText(s)
  }

  predicate PlainHistory(h: HistoryEntry) {
    && PlainColumn(h.source) && Dates.Valid(h.updated) && PlainColumn(h.user)
    && PlainColumn(FormatOptional(h.value)) && PlainColumn(FormatOptional(h.hash))
  }

  predicate PlainHistories(hs: seq<HistoryEntry>) {
    && HistoryDatesValid(hs)
    && forall i :: 0 <= i < |hs| ==> PlainHistory(hs[i])
  }

  /** An entry whose every column the codec can carry. */
  predicate PlainColumns(e: SourceLogEntry) {
    && PlainColumn(e.field) && PlainColumn(e.source) && Dates.Valid(e.updated) && PlainColumn(e.user)
    && PlainHistories(e.history)
  }

  /** The loader trims the field, source and user columns: they must already be trimmed. */
  predicate PlainEntry(e: SourceLogEntry) {
    && PlainColumns(e)
    && Text.Trim(e.field) == e.field && Text.Trim(e.source) == e.source && Text.Trim(e.user) == e.user
  }

  /** A log the profile code builds: keyed by field name, plain texts. */
  predicate PlainLog(log: Log) {
    && UniqueKeys(log)
    && forall i :: 0 <= i < |log| ==> log[i].0 == log[i].1.field && PlainEntry(log[i].1)
  }

  /** What a history entry reads back as: minutes only, null texts become empty. */
  function NormalizeHistoryEntry(h: HistoryEntry): HistoryEntry {
    h.(updated := Dates.ToMinute(h.updated), value := Some(FormatOptional(h.value)), hash := Some(FormatOptional(h.hash)))
  }

  function NormalizeHistory(hs: seq<HistoryEntry>): (r: seq<HistoryEntry>)
    ensures |r| == |hs|
    ensures forall i :: 0 <= i < |hs| ==> r[i] == NormalizeHistoryEntry(hs[i])
  {
    if |hs| == 0 then [] else [NormalizeHistoryEntry(hs[0])] + NormalizeHistory(hs[1..])
  }

  function NormalizeEntry(e: SourceLogEntry, mh: nat): SourceLogEntry {
    e.(updated := Dates.ToMinute(e.updated), history := NormalizeHistory(LastN(e.history, mh)))
  }

  /** What a log reads back as after being written with at most mh history entries per field. */
  function Normalize(log: Log, mh: nat): (r: Log)
    ensures |r| == |log|
    ensures forall i :: 0 <= i < |log| ==> r[i] == (log[i].0, NormalizeEntry(log[i].1, mh))
  {
    if |log| == 0 then [] else [(log[0].0, NormalizeEntry(log[0].1, mh))] + Normalize(log[1..], mh)
  }

  function AllHistoryColumns(hs: seq<HistoryEntry>): (cols: seq<string>)
    requires HistoryDatesValid(hs)
    ensures |cols| == 5 * |hs|
  {
    if |hs| == 0 then [] else HistoryColumns(hs[0]) + AllHistoryColumns(hs[1..])
  }

  /** The columns of an entry line, as Split('|') finds them. */
  function EntryColumns(e: SourceLogEntry, mh: nat): seq<string>
    requires Dates.Valid(e.updated) && HistoryDatesValid(e.history)
  {
    var hs := LastN(e.history, mh);
    [e.field, e.source, Dates.Format(e.updated), e.user, "5"] + (if |hs| == 0 then [""] else AllHistoryColumns(hs))
  }

  lemma {:induction false} HistoryTextsColumns(hs: seq<HistoryEntry>)
    requires HistoryDatesValid(hs) && |hs| > 0
    ensures Text.Join(HistoryTexts(hs), "|") == Text.Join(AllHistoryColumns(hs), "|")
  {
    if |hs| == 1 {
      assert AllHistoryColumns(hs) == HistoryColumns(hs[0]);
    } else {
      HistoryTextsColumns(hs[1..]);
      Text.JoinConcat(HistoryColumns(hs[0]), AllHistoryColumns(hs[1..]), "|");
    }
  }

  lemma Join5(a: string, b: string, c: string, d: string, e: string, sep: string)
    ensures Text.Join([a, b, c, d, e], sep) == a + sep + b + sep + c + sep + d + sep + e
  {
    assert [d, e][1..] == [e];
    var de := Text.Join([d, e], sep);
    assert de == d + sep + e;
    assert [c, d, e][1..] == [d, e];
    var cde := Text.Join([c, d, e], sep);
    assert cde == c + sep + de;
    assert [b, c, d, e][1..] == [c, d, e];
    var bcde := Text.Join([b, c, d, e], sep);
    assert bcde == b + sep + cde;
    assert [a, b, c, d, e][1..] == [b, c, d, e];
    assert Text.Join([a, b, c, d, e], sep) == a + sep + bcde;
  }

  lemma EntryTextIsJoin(e: SourceLogEntry, mh: nat)
    requires Dates.Valid(e.updated) && HistoryDatesValid(e.history)
    ensures EntryText(e, mh) == Text.Join(EntryColumns(e, mh), "|")
  {
    var hs := LastN(e.history, mh);
    var head := [e.field, e.source, Dates.Format(e.updated), e.user, "5"];
    Join5(e.field, e.source, Dates.Format(e.updated), e.user, "5", "|");
    if |hs| == 0 {
      Text.JoinAppend(head, "", "|");
    } else {
      HistoryTextsColumns(hs);
      Text.JoinConcat(head, AllHistoryColumns(hs), "|");
    }
  }

  lemma {:induction false} AllHistoryColumnsPlain(hs: seq<HistoryEntry>)
    requires PlainHistories(hs)
    ensures AllPlain(AllHistoryColumns(hs))
  {
    if |hs| > 0 {
      FormatColumnPlain(hs[0].updated);
      AllHistoryColumnsPlain(hs[1..]);
      AllPlainConcat(HistoryColumns(hs[0]), AllHistoryColumns(hs[1..]));
    }
  }

  lemma FormatColumnPlain(d: Dates.DateTime)
    requires Dates.Valid(d)
    ensures PlainColumn(Dates.Format(d))
  {
    Dates.FormatIsPlain(d);
  }

  lemma ParseFormattedColumn(d: Dates.DateTime)
    requires Dates.Valid(d)
    ensures ParseDate(Dates.Format(d)) == Some(Dates.ToMinute(d))
  {
    Dates.FormatIsTrimmed(d);
    Dates.ParseFormat(d);
  }

  lemma SplitColumns(cl: seq<string>, i: nat, a: seq<string>, b: seq<string>)
    requires i <= |cl| && cl[i..] == a + b
    ensures |cl| == i + |a| + |b|
    ensures forall j :: 0 <= j < |a| ==> cl[i + j] == a[j]
    ensures cl[i + |a|..] == b
  {
    forall j | 0 <= j < |a| ensures cl[i + j] == a[j] {
      assert cl[i..][j] == (a + b)[j];
    }
    assert cl[i + |a|..] == cl[i..][|a|..];
  }

  lemma CurrentHistoryStep(cl: seq<string>, i: nat, h: HistoryEntry, rest: seq<string>)
    requires Dates.Valid(h.updated)
    requires i <= |cl| && cl[i..] == HistoryColumns(h) + rest
    ensures i + 5 <= |cl| && cl[i + 5..] == rest
    ensures CurrentHistory(cl, i) == Prepend([NormalizeHistoryEntry(h)], CurrentHistory(cl, i + 5))
  {
    SplitColumns(cl, i, HistoryColumns(h), rest);
    assert cl[i + 1] == Dates.Format(h.updated);
    ParseFormattedColumn(h.updated);
  }

  lemma {:induction false} CurrentHistoryReads(cl: seq<string>, i: nat, hs: seq<HistoryEntry>)
    requires PlainHistories(hs)
    requires i <= |cl| && cl[i..] == AllHistoryColumns(hs)
    ensures CurrentHistory(cl, i) == Success(NormalizeHistory(hs))
    decreases |hs|
  {
    if |hs| == 0 {
      assert |cl| == i;
    } else {
      CurrentHistoryStep(cl, i, hs[0], AllHistoryColumns(hs[1..]));
      assert PlainHistories(hs[1..]);
      CurrentHistoryReads(cl, i + 5, hs[1..]);
      assert NormalizeHistory(hs) == [NormalizeHistoryEntry(hs[0])] + NormalizeHistory(hs[1..]);
    }
  }

  lemma LastNPlain(hs: seq<HistoryEntry>, mh: nat)
    requires PlainHistories(hs)
    ensures PlainHistories(LastN(hs, mh))
  {
    var r := LastN(hs, mh);
    forall i | 0 <= i < |r| ensures PlainHistory(r[i]) && Dates.Valid(r[i].updated) {
      assert r[i] == hs[|hs| - |r| + i];
    }
  }

  predicate AllPlain(cols: seq<string>) {
    forall i :: 0 <= i < |cols| ==> PlainColumn(cols[i])
  }

  lemma AllPlainConcat(a: seq<string>, b: seq<string>)
    requires AllPlain(a) && AllPlain(b)
    ensures AllPlain(a + b)
  {
    forall i | 0 <= i < |a + b| ensures PlainColumn((a + b)[i]) {
      if i >= |a| {
        assert (a + b)[i] == b[i - |a|];
      }
    }
  }

  lemma AllPlainFive(a: string, b: string, c: string, d: string, e: string)
    requires PlainColumn(a) && PlainColumn(b) && PlainColumn(c) && PlainColumn(d) && PlainColumn(e)
    ensures AllPlain([a, b, c, d, e])
  {
  }

  lemma HeadColumnsPlain(e: SourceLogEntry)
    requires PlainColumns(e)
    ensures AllPlain([e.field, e.source, Dates.Format(e.updated), e.user, "5"])
  {
    FormatColumnPlain(e.updated);
    assert PlainColumn("5");
    AllPlainFive(e.field, e.source, Dates.Format(e.updated), e.user, "5");
  }

  /** The columns of a serialized entry line carry no delimiter; the fifth is "5". */
  lemma EntryColumnsPlain(e: SourceLogEntry, mh: nat)
    requires PlainColumns(e)
    ensures |EntryColumns(e, mh)| >= 6 && EntryColumns(e, mh)[4] == "5"
    ensures AllPlain(EntryColumns(e, mh))
  {
    var hs := LastN(e.history, mh);
    LastNPlain(e.history, mh);
    var tail := if |hs| == 0 then [""] else AllHistoryColumns(hs);
    AllHistoryColumnsPlain(hs);
    HeadColumnsPlain(e);
    AllPlainConcat([e.field, e.source, Dates.Format(e.updated), e.user, "5"], tail);
  }

  /** A serialized entry line is one non-empty line, with '|' and without '<'. */
  lemma EntryLineShape(e: SourceLogEntry, mh: nat)
    requires PlainColumns(e)
    ensures Text.Split(EntryText(e, mh), '|') == EntryColumns(e, mh)
    ensures '|' in EntryText(e, mh) && '<' !in EntryText(e, mh)
    ensures EntryText(e, mh) != "" && Text.IsLineText(EntryText(e, mh))
  {
    var l := EntryText(e, mh);
    var cols := EntryColumns(e, mh);
    EntryTextIsJoin(e, mh);
    EntryColumnsPlain(e, mh);
    Text.SplitJoin(cols, '|');
    Text.JoinNoChar(cols, "|", '<');
    Text.JoinNoChar(cols, "|", '\n');
    Text.JoinNoChar(cols, "|", '\r');
    assert l[|e.field|] == '|';
  }

  /** The columns of a serialized entry read back as the normalized entry. */
  lemma EntryColumnsRead(e: SourceLogEntry, mh: nat)
    requires PlainColumns(e)
    ensures CurrentHistory(EntryColumns(e, mh), 5) == Success(NormalizeHistory(LastN(e.history, mh)))
    ensures ParseDate(EntryColumns(e, mh)[2]) == Some(Dates.ToMinute(e.updated))
  {
    var cols := EntryColumns(e, mh);
    assert ParseDate(cols[2]) == Some(Dates.ToMinute(e.updated)) by {
      assert cols[2] == Dates.Format(e.updated);
      ParseFormattedColumn(e.updated);
    }
    EntryHistoryRead(e, mh);
  }

  lemma EntryHistoryRead(e: SourceLogEntry, mh: nat)
    requires PlainColumns(e)
    ensures CurrentHistory(EntryColumns(e, mh), 5) == Success(NormalizeHistory(LastN(e.history, mh)))
  {
    var hs := LastN(e.history, mh);
    var cols := EntryColumns(e, mh);
    LastNPlain(e.history, mh);
    if |hs| == 0 {
      assert |cols| == 6;
    } else {
      assert cols[5..] == AllHistoryColumns(hs);
      CurrentHistoryReads(cols, 5, hs);
    }
  }

  /** Every line the serializer writes loads back as the normalized entry. */
  lemma EntryLineRoundTrip(e: SourceLogEntry, mh: nat)
    requires PlainEntry(e)
    ensures HistoryDatesValid(e.history)
    ensures ClassifyLine(EntryText(e, mh)) == Parsed(NormalizeEntry(e, mh))
    ensures EntryText(e, mh) != "" && Text.IsLineText(EntryText(e, mh))
  {
    EntryLineShape(e, mh);
    EntryColumnsRead(e, mh);
    var cols := EntryColumns(e, mh);
    EntryColumnsHead(e, mh);
    CurrentColumnsRead(EntryText(e, mh), cols, Dates.ToMinute(e.updated), NormalizeHistory(LastN(e.history, mh)));
  }

  lemma EntryColumnsHead(e: SourceLogEntry, mh: nat)
    requires Dates.Valid(e.updated) && HistoryDatesValid(e.history)
    ensures |EntryColumns(e, mh)| > 4
    ensures EntryColumns(e, mh)[0] == e.field && EntryColumns(e, mh)[1] == e.source
    ensures EntryColumns(e, mh)[3] == e.user && EntryColumns(e, mh)[4] == "5"
  {
  }

  /** A '|' line without '<' whose fifth column is "5" is read by its columns in the current format. */
  lemma CurrentColumnsRead(l: string, cols: seq<string>, d: Dates.DateTime, h: seq<HistoryEntry>)
    requires Text.Split(l, '|') == cols && '<' !in l && '|' in l
    requires |cols| > 4 && cols[4] == "5"
    requires ParseDate(cols[2]) == Some(d) && CurrentHistory(cols, 5) == Success(h)
    ensures ClassifyLine(l) == Parsed(SourceLogEntry(Text.Trim(cols[0]), Text.Trim(cols[1]), d, Text.Trim(cols[3]), h))
  {
  }

  lemma PlainLogDatesValid(log: Log)
    requires PlainLog(log)
    ensures DatesValid(log)
  {
    forall i | 0 <= i < |log| ensures Dates.Valid(log[i].1.updated) && HistoryDatesValid(log[i].1.history) {
      assert PlainEntry(log[i].1);
    }
  }

  lemma AppendFreshEntry(acc: Log, k: string, n: SourceLogEntry)
    requires UniqueKeys(acc) && k !in Keys(acc)
    ensures Set(acc, k, n) == acc + [(k, n)]
    ensures Keys(acc + [(k, n)]) == Keys(acc) + [k]
  {
    ContainsKeyIff(acc, k);
    assert Add(acc, k, n).Success?;
  }

  function ParsedAll(log: Log): (r: seq<LineOutcome>)
    ensures |r| == |log|
    ensures forall i :: 0 <= i < |log| ==> r[i] == Parsed(log[i].1)
  {
    seq(|log|, i requires 0 <= i < |log| => Parsed(log[i].1))
  }

  /** A log whose keys are its fields, none of them already in acc. */
  predicate FreshFields(acc: Log, log: Log) {
    && UniqueKeys(acc) && UniqueKeys(log)
    && forall i :: 0 <= i < |log| ==> log[i].0 == log[i].1.field && log[i].0 !in Keys(acc)
  }

  lemma ApplyParsedStep(acc: Log, log: Log)
    requires FreshFields(acc, log) && |log| > 0
    ensures ApplyAll(acc, ParsedAll(log)) == ApplyAll(acc + [log[0]], ParsedAll(log[1..]))
    ensures FreshFields(acc + [log[0]], log[1..])
  {
    var k := log[0].0;
    AppendFreshEntry(acc, k, log[0].1);
    assert ParsedAll(log)[1..] == ParsedAll(log[1..]);
    FreshFieldsStep(acc, log);
  }

  lemma FreshFieldsStep(acc: Log, log: Log)
    requires FreshFields(acc, log) && |log| > 0
    requires Keys(acc + [log[0]]) == Keys(acc) + [log[0].0]
    ensures FreshFields(acc + [log[0]], log[1..])
  {
    var acc' := acc + [log[0]];
    forall i | 0 <= i < |log[1..]| ensures log[1..][i].0 !in Keys(acc') {
      assert log[1..][i].0 == log[i + 1].0 != log[0].0;
    }
  }

  lemma AppendHead<T>(acc: seq<T>, s: seq<T>)
    requires |s| > 0
    ensures (acc + [s[0]]) + s[1..] == acc + s
  {
    assert s == [s[0]] + s[1..];
  }

  lemma {:induction false} ApplyParsed(acc: Log, log: Log)
    requires FreshFields(acc, log)
    ensures ApplyAll(acc, ParsedAll(log)) == Success(acc + log)
    decreases |log|
  {
    if |log| == 0 {
      assert acc + log == acc;
    } else {
      ApplyParsedStep(acc, log);
      ApplyParsed(acc + [log[0]], log[1..]);
      AppendHead(acc, log);
    }
  }

  lemma ClassifyEntryTexts(log: Log, mh: nat)
    requires PlainLog(log)
    ensures DatesValid(log)
    ensures ClassifyLines(EntryTexts(log, mh)) == ParsedAll(Normalize(log, mh))
  {
    PlainLogDatesValid(log);
    forall i | 0 <= i < |log|
      ensures ClassifyLines(EntryTexts(log, mh))[i] == ParsedAll(Normalize(log, mh))[i]
    {
      EntryTextsAt(log, mh, i);
      assert PlainEntry(log[i].1);
      EntryLineRoundTrip(log[i].1, mh);
    }
  }

  lemma NormalizeKeys(log: Log, mh: nat)
    requires PlainLog(log)
    ensures UniqueKeys(Normalize(log, mh))
    ensures forall i :: 0 <= i < |log| ==> Normalize(log, mh)[i].0 == Normalize(log, mh)[i].1.field
  {
  }

  /**
   * Loading what the serializer wrote with history depth mh gives back the log:
   * the same fields in the same order, dates to the minute, the last mh history
   * entries of each field, null history values read back as empty texts.
   */
  lemma LogRoundTrip(log: Log, mh: nat)
    requires PlainLog(log)
    ensures DatesValid(log)
    ensures LoadText(LogText(log, mh)) == Success(Normalize(log, mh))
  {
    PlainLogDatesValid(log);
    if |log| == 0 {
      assert LogText(log, mh) == "";
    } else {
      var lines := EntryTexts(log, mh);
      EntryTextsAreLines(log, mh);
      JoinNonEmpty(lines, "\n");
      Text.SplitLinesJoin(lines);
      LoadParsed(log, mh);
    }
  }

  lemma LoadParsed(log: Log, mh: nat)
    requires PlainLog(log)
    ensures DatesValid(log)
    ensures ApplyAll([], ClassifyLines(EntryTexts(log, mh))) == Success(Normalize(log, mh))
  {
    PlainLogDatesValid(log);
    ClassifyEntryTexts(log, mh);
    NormalizeKeys(log, mh);
    assert Keys<SourceLogEntry>([]) == [];
    ApplyParsed([], Normalize(log, mh));
    assert [] + Normalize(log, mh) == Normalize(log, mh);
  }

  lemma EntryTextsAreLines(log: Log, mh: nat)
    requires PlainLog(log)
    ensures DatesValid(log)
    ensures forall i :: 0 <= i < |EntryTexts(log, mh)| ==>
      EntryTexts(log, mh)[i] != "" && Text.IsLineText(EntryTexts(log, mh)[i])
  {
    PlainLogDatesValid(log);
    var lines := EntryTexts(log, mh);
    forall i | 0 <= i < |lines| ensures lines[i] != "" && Text.IsLineText(lines[i]) {
      EntryTextsAt(log, mh, i);
      assert PlainColumns(log[i].1);
      EntryLineShape(log[i].1, mh);
    }
  }

  lemma JoinNonEmpty(lines: seq<string>, sep: string)
    requires |lines| > 0 && lines[0] != ""
    ensures Text.Join(lines, sep) != ""
  {
    if |lines| > 1 {
      Text.JoinConcat([lines[0]], lines[1..], sep);
      assert [lines[0]] + lines[1..] == lines;
    }
  }

  lemma EntryTextsAt(log: Log, mh: nat, i: nat)
    requires DatesValid(log) && i < |log|
    ensures EntryTexts(log, mh)[i] == EntryText(log[i].1, mh)
  {
    if i > 0 {
      EntryTextsAt(log[1..], mh, i - 1);
    }
  }

  // ---------------------------------------------------------------------------
  // Loading a truncated text

  lemma PlainPrefix(s: string, q: nat)
    requires PlainColumn(s) && q <= |s|
    ensures PlainColumn(s[..q])
  {
    Text.LinePrefix(s, q);
    assert forall k :: 0 <= k < q ==> s[..q][k] == s[k];
  }

  /**
   * A history-free entry line cut anywhere still loads: its columns are a
   * prefix of "field|source|date|user|5|", so the date column, when there are
   * enough columns to read one, is whole.
   */
  lemma CutLineLoads(e: SourceLogEntry, n: nat)
    requires PlainColumns(e) && n <= |EntryText(e, 0)|
    ensures !ClassifyLine(EntryText(e, 0)[..n]).Malformed?
  {
    var cols := EntryColumns(e, 0);
    EntryTextIsJoin(e, 0);
    EntryColumnsPlain(e, 0);
    assert LastN(e.history, 0) == [];
    assert |cols| == 6 && cols[2] == Dates.Format(e.updated);
    ParseFormattedColumn(e.updated);
    CutJoinLoads(cols, n);
  }

  /** Six plain columns with a date third, joined on '|' and cut anywhere. */
  lemma CutJoinLoads(cols: seq<string>, n: nat)
    requires |cols| == 6 && AllPlain(cols) && ParseDate(cols[2]).Some?
    requires n <= |Text.Join(cols, "|")|
    ensures !ClassifyLine(Text.Join(cols, "|")[..n]).Malformed?
  {
    var m, q := Text.JoinPrefix(cols, '|', n);
    var parts := cols[..m] + [cols[m][..q]];
    PlainPrefix(cols[m], q);
    forall i | 0 <= i < |parts| ensures '|' !in parts[i] {
      if i < m {
        assert parts[i] == cols[i];
      }
    }
    Text.SplitJoin(parts, '|');
    if m >= 3 {
      assert parts[2] == cols[2];
    }
    CutColumnsLoad(Text.Join(cols, "|")[..n], parts);
  }

  /** A line whose columns are at most six, with a whole date third when there are four or more. */
  lemma CutColumnsLoad(l: string, parts: seq<string>)
    requires Text.Split(l, '|') == parts && |parts| <= 6
    requires |parts| >= 4 ==> ParseDate(parts[2]).Some?
    ensures !ClassifyLine(l).Malformed?
  {
    if '<' !in l && '|' in l {
      if |parts| > 4 && parts[4] == "5" {
        assert CurrentHistory(parts, 5) == Success([]);
      } else if |parts| >= 4 {
        assert OldHistory(parts, 4) == Success([]);
      }
    }
  }

  lemma {:induction false} NothingMalformedLoads(log: Log, outcomes: seq<LineOutcome>)
    requires forall i :: 0 <= i < |outcomes| ==> !outcomes[i].Malformed?
    ensures ApplyAll(log, outcomes).Success?
    decreases |outcomes|
  {
    if |outcomes| > 0 {
      NothingMalformedLoads(Apply(log, outcomes[0]), outcomes[1..]);
    }
  }

  /** Every prefix of the line, the whole line included, loads without error. */
  predicate CutsLoad(l: string) {
    forall q :: 0 <= q <= |l| ==> !ClassifyLine(l[..q]).Malformed?
  }

  /** Lines that load however they are cut, joined on "\n" and cut anywhere. */
  lemma CutLinesLoad(lines: seq<string>, n: nat)
    requires |lines| >= 1 && n <= |Text.Join(lines, "\n")|
    requires forall i :: 0 <= i < |lines| ==> Text.IsLineText(lines[i]) && CutsLoad(lines[i])
    ensures LoadText(Text.Join(lines, "\n")[..n]).Success?
  {
    var m, q := Text.JoinPrefix(lines, '\n', n);
    var raw := lines[..m] + [lines[m][..q]];
    Text.LinePrefix(lines[m], q);
    forall i | 0 <= i < |raw| ensures Text.IsLineText(raw[i]) && !ClassifyLine(raw[i]).Malformed? {
      if i < m {
        assert raw[i] == lines[i];
        assert lines[i][..|lines[i]|] == lines[i];
      }
    }
    Text.SplitLinesRawJoin(raw);
    var kept := Text.SplitLines(Text.Join(lines, "\n")[..n]);
    forall j | 0 <= j < |kept| ensures !ClassifyLines(kept)[j].Malformed? {
      assert kept[j] in raw;
    }
    NothingMalformedLoads([], ClassifyLines(kept));
  }

  /**
   * The history-free log cut at any length loads without error: every whole
   * line reads back, and the cut line is at worst skipped.
   */
  lemma CutLogLoads(log: Log, n: nat)
    requires PlainLog(log)
    ensures DatesValid(log)
    ensures n <= |LogText(log, 0)| ==> LoadText(LogText(log, 0)[..n]).Success?
  {
    PlainLogDatesValid(log);
    if n <= |LogText(log, 0)| && |log| > 0 {
      var lines := EntryTexts(log, 0);
      EntryTextsAreLines(log, 0);
      forall i | 0 <= i < |lines| ensures CutsLoad(lines[i]) {
        EntryTextsAt(log, 0, i);
        assert PlainEntry(log[i].1);
        forall q | 0 <= q <= |lines[i]| ensures !ClassifyLine(lines[i][..q]).Malformed? {
          CutLineLoads(log[i].1, q);
        }
      }
      CutLinesLoad(lines, n);
    }
  }

  /** More history per field never makes the log shorter. */
  lemma LogTextGrows(log: Log, k: nat)
    requires DatesValid(log)
    ensures |LogText(log, 0)| <= |LogText(log, k)|
  {
    forall i | 0 <= i < |log| ensures |EntryTexts(log, 0)[i]| <= |EntryTexts(log, k)[i]| {
      EntryTextsAt(log, 0, i);
      EntryTextsAt(log, k, i);
    }
    Text.JoinLonger(EntryTexts(log, 0), EntryTexts(log, k), "\n");
  }

  /**
   * When even the history-free log is 2000 characters or more, the stored text
   * is that log cut at 2000 characters, and it still loads.
   */
  lemma TruncatedStillLoads(log: Log)
    requires PlainLog(log) && |LogText(log, 0)| >= MaxLength
    ensures Serialize(log) == LogText(log, 0)[..MaxLength]
    ensures LoadText(Serialize(log)).Success?
  {
    forall j | 0 <= j <= MaxHistory ensures |LogText(log, j)| >= MaxLength {
      LogTextGrows(log, j);
    }
    SerializeTruncates(log);
    CutLogLoads(log, MaxLength);
  }

  lemma SerializeTruncates(log: Log)
    requires DatesValid(log)
    requires forall j :: 0 <= j <= MaxHistory ==> |LogText(log, j)| >= MaxLength
    ensures Serialize(log) == LogText(log, 0)[..MaxLength]
  {
    FirstFitTruncates(Candidates(log), MaxHistory);
  }

  /** FirstFit returns a candidate that fits, when the history-free one does. */
  lemma {:induction false} FirstFitPicks(candidates: seq<string>, mh: nat) returns (k: nat)
    requires mh < |candidates| && |candidates[0]| < MaxLength
    ensures k <= mh && FirstFit(candidates, mh) == candidates[k]
    decreases mh
  {
    if |candidates[mh]| < MaxLength || mh == 0 {
      k := mh;
    } else {
      k := FirstFitPicks(candidates, mh - 1);
    }
  }

  /** Whatever the serializer stores for a plain log loads without error. */
  lemma SerializeLoads(log: Log)
    requires PlainLog(log)
    ensures DatesValid(log)
    ensures LoadText(Serialize(log)).Success?
  {
    PlainLogDatesValid(log);
    if |LogText(log, 0)| >= MaxLength {
      TruncatedStillLoads(log);
    } else {
      var k := FirstFitPicks(Candidates(log), MaxHistory);
      LogRoundTrip(log, k);
    }
  }
}
