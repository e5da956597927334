/**
 * The strongly typed user profile (ProfileBase): its typed property values,
 * the source log and hash log it keeps beside them, the list of properties
 * changed since it was loaded, and the profile-store record it writes back
 * to on Save, queueing the audiences that a written value may affect.
 */
module Profiles {
  import opened Wrappers
  import Text
  import Dates
  import opened Dicts
  import opened SourceLogs
  import opened ProfileCodecs
  import opened AudienceQueues
  import opened ProfileAttributes

  // ---------------------------------------------------------------------------
  // Property values

  /**
   * A property value as the profile code sees it: null, a string, a scalar
   * (number, bool, date) through its ToString text, or a list of strings.
   */
  datatype Value = Null | Str(s: string) | Scalar(text: string) | StringList(items: seq<string>)

  /** What List<string>.ToString() returns: the type's name, whatever the items. */
  const StringListText: string := "System.Collections.Generic.List`1[System.String]"

  /** object.ToString() on a value; None for null. */
  function ToText(v: Value): (r: Option<string>)
    ensures r.None? <==> v.Null?
  {
    match v
    case Null => None
    case Str(s) => Some(s)
    case Scalar(t) => Some(t)
    case StringList(_) => Some(StringListText)
  }

  /** `value as string`: the text of a string value, null for anything else. */
  function AsString(v: Value): Option<string> {
    if v.Str? then Some(v.s) else None
  }

  // ---------------------------------------------------------------------------
  // GetHash

  type Byte = b: int | 0 <= b < 256

  /** A SHA-1 digest: twenty bytes. */
  type Digest = d: seq<Byte> | |d| == 20 witness seq(20, i => 0)

  predicate IsHexDigit(c: char) {
    '0' <= c <= '9' || 'A' <= c <= 'F'
  }

  function HexDigit(n: int): (c: char)
    requires 0 <= n < 16
    ensures IsHexDigit(c)
  {
    if n < 10 then ('0' as int + n) as char else ('A' as int + n - 10) as char
  }

  function HexValue(c: char): int
    requires IsHexDigit(c)
  {
    if c <= '9' then c as int - '0' as int else c as int - 'A' as int + 10
  }

  /** Byte.ToString("X2"). */
  function Hex2(b: Byte): (r: string)
    ensures |r| == 2 && IsHexDigit(r[0]) && IsHexDigit(r[1])
  {
    [HexDigit(b / 16), HexDigit(b % 16)]
  }

  /** The byte a two-digit hex text names. */
  function ReadHex2(t: string): int
    requires |t| == 2 && IsHexDigit(t[0]) && IsHexDigit(t[1])
  {
    HexValue(t[0]) * 16 + HexValue(t[1])
  }

  lemma ReadHex2Inverse(b: Byte)
    ensures ReadHex2(Hex2(b)) == b
  {
    assert HexValue(HexDigit(b / 16)) == b / 16;
    assert HexValue(HexDigit(b % 16)) == b % 16;
  }

  /**
   * GetHash: null for a null or empty text; otherwise the first four bytes of
   * the SHA-1 digest of the text, in upper-case hex. The digest function
   * (SHA-1 over the UTF-8 bytes) is the parameter sha1.
   */
  function GetHash(s: Option<string>, sha1: string -> Digest): (r: Option<string>)
    ensures r.None? <==> s.None? || s.value == ""
    ensures r.Some? ==> |r.value| == 8 && forall i :: 0 <= i < 8 ==> IsHexDigit(r.value[i])
  {
    if s.None? || s.value == "" then None
    else
      var d := sha1(s.value);
      Some(Hex2(d[0]) + Hex2(d[1]) + Hex2(d[2]) + Hex2(d[3]))
  }

  /** The hash names exactly the first four bytes of the digest. */
  lemma GetHashDigest(s: string, sha1: string -> Digest)
    requires s != ""
    ensures var h := GetHash(Some(s), sha1).value;
      forall j :: 0 <= j < 4 ==> ReadHex2(h[2 * j..2 * j + 2]) == sha1(s)[j]
  {
    var d := sha1(s);
    var h := GetHash(Some(s), sha1).value;
    forall j | 0 <= j < 4 ensures ReadHex2(h[2 * j..2 * j + 2]) == d[j] {
      assert h[2 * j..2 * j + 2] == Hex2(d[j]);
      ReadHex2Inverse(d[j]);
    }
  }

  /** A hash can be stored in the hash log and read back unchanged. */
  lemma HashIsColumn(h: string)
    requires |h| == 8 && forall i :: 0 <= i < 8 ==> IsHexDigit(h[i])
    ensures HashColumn(h)
  {
    assert forall c :: c in h ==> IsHexDigit(c);
    Text.TrimNoop(h);
  }

  /** GetCurrentSource: the source that last set p, null when p was never logged. */
  function CurrentSource(log: Log, p: string): (r: Option<string>)
    ensures r.None? <==> !ContainsKey(log, p)
    ensures r.Some? ==> exists e :: (p, e) in log && e.source == r.value
  {
    if ContainsKey(log, p) then
      GetIsEntry(log, p);
      Some(Get(log, p).value.source)
    else None
  }

  // ---------------------------------------------------------------------------
  // SetUpdated

  /** The history entry that records a field's previous setting. */
  function Previous(e: SourceLogEntry): HistoryEntry {
    HistoryEntry(e.source, e.updated, e.user, None, None)
  }

  /** How many earlier history entries SetUpdated keeps before it records the previous setting. */
  const KeptHistory: nat := 5

  /** The source log after SetUpdated(p, source) at time now by user. */
  function Updated(log: Log, p: string, source: string, now: Dates.DateTime, user: string): Log {
    match Get(log, p)
    case Some(e) => Set(log, p, SourceLogEntry(e.field, source, now, user, LastN(e.history, KeptHistory) + [Previous(e)]))
    case None => Set(log, p, SourceLogEntry(p, source, now, user, []))
  }

  /**
   * After SetUpdated, p's entry names the new source, time and user; the entry
   * of every other field is unchanged.
   */
  lemma UpdatedRecordsSetting(log: Log, p: string, source: string, now: Dates.DateTime, user: string)
    ensures var r := Updated(log, p, source, now, user);
      && Get(r, p).Some?
      && Get(r, p).value.source == source && Get(r, p).value.updated == now && Get(r, p).value.user == user
      && (Get(log, p).None? ==> Get(r, p).value.field == p)
      && forall q :: q != p ==> Get(r, q) == Get(log, q)
  {
  }

  /**
   * The history after SetUpdated holds at most six entries: the newest five
   * (or fewer) of the old history in their order, then the previous setting.
   * A field logged for the first time has no history.
   */
  lemma UpdatedHistory(log: Log, p: string, source: string, now: Dates.DateTime, user: string)
    ensures var h := Get(Updated(log, p, source, now, user), p).value.history;
      && |h| <= KeptHistory + 1
      && (Get(log, p).None? ==> h == [])
      && (Get(log, p).Some? ==>
            var e := Get(log, p).value;
            && |h| == (if |e.history| < KeptHistory then |e.history| else KeptHistory) + 1
            && h[|h| - 1] == Previous(e)
            && forall i :: 0 <= i < |h| - 1 ==> h[i] == e.history[|e.history| - (|h| - 1) + i])
  {
  }

  /** SetUpdated keeps field names unique and every date in range. */
  lemma UpdatedValid(log: Log, p: string, source: string, now: Dates.DateTime, user: string)
    requires UniqueKeys(log) && DatesValid(log) && Dates.Valid(now)
    ensures UniqueKeys(Updated(log, p, source, now, user)) && DatesValid(Updated(log, p, source, now, user))
  {
    var ne: SourceLogEntry;
    match Get(log, p)
    case Some(e) =>
      GetIsEntry(log, p);
      var i :| 0 <= i < |log| && log[i] == (p, e);
      ne := SourceLogEntry(e.field, source, now, user, LastN(e.history, KeptHistory) + [Previous(e)]);
      assert HistoryDatesValid(ne.history) by {
        forall j | 0 <= j < |ne.history| ensures Dates.Valid(ne.history[j].updated) {
          if j < |ne.history| - 1 {
            assert ne.history[j] == e.history[|e.history| - (|ne.history| - 1) + j];
          }
        }
      }
    case None =>
      ne := SourceLogEntry(p, source, now, user, []);
    SetKeepsDatesValid(log, p, ne);
  }

  lemma SetKeepsDatesValid(log: Log, p: string, e: SourceLogEntry)
    requires DatesValid(log) && Dates.Valid(e.updated) && HistoryDatesValid(e.history)
    ensures DatesValid(Set(log, p, e))
  {
    SetEntries(log, p, e);
    var r := Set(log, p, e);
    forall i | 0 <= i < |r| ensures Dates.Valid(r[i].1.updated) && HistoryDatesValid(r[i].1.history) {
      if r[i] != (p, e) {
        var j :| 0 <= j < |log| && log[j] == r[i];
      }
    }
  }

  // ---------------------------------------------------------------------------
  // The hash log across a save and a reload

  /**
   * What ImportedPropertyChanged compares: the hash logged for p differs from
   * the hash of the imported value, or none is logged.
   */
  predicate HashChanged(log: HashLog, p: string, h: Option<string>) {
    Get(log, p) != Some(h)
  }

  lemma SetKeepsPlainHashLog(d: HashLog, p: string, h: Option<string>)
    requires PlainHashLog(d) && HashColumn(p) && HashColumn(FormatOptional(h))
    ensures PlainHashLog(Set(d, p, h))
  {
    SetEntries(d, p, h);
    var r := Set(d, p, h);
    forall i | 0 <= i < |r| ensures HashColumn(r[i].0) && HashColumn(FormatOptional(r[i].1)) {
      if r[i] != (p, h) {
        var j :| 0 <= j < |d| && d[j] == r[i];
      }
    }
  }

  /** Reading a saved hash log keeps the names: a hash is found where it was stored. */
  lemma GetNormalizeHashes(d: HashLog, p: string)
    ensures Get(NormalizeHashes(d), p) == if Get(d, p).Some? then Some(Some(FormatOptional(Get(d, p).value))) else None
  {
    var n := NormalizeHashes(d);
    assert Keys(n) == Keys(d);
    SameKeysSameIndex(d, n);
  }

  /**
   * Record the hash of an imported value, save the hash log and load it
   * again: importing the same value once more reports a change exactly when
   * the value is empty, since a null hash is written as "" and read back as "".
   */
  lemma ReloadedHashChanged(d: HashLog, p: string, v: Option<string>, sha1: string -> Digest)
    requires PlainHashLog(d) && HashColumn(p)
    ensures var r := LoadHashLogText(SaveHashLog(Set(d, p, GetHash(v, sha1))));
      && r.Success?
      && (HashChanged(r.value, p, GetHash(v, sha1)) <==> v.None? || v.value == "")
  {
    var h := GetHash(v, sha1);
    var d1 := Set(d, p, h);
    assert PlainHashLog(d1) by {
      HashOfValueIsColumn(v, sha1);
      SetKeepsPlainHashLog(d, p, h);
    }
    HashLogRoundTrip(d1);
    assert Get(NormalizeHashes(d1), p) == Some(Some(FormatOptional(h))) by {
      GetNormalizeHashes(d1, p);
      assert Get(d1, p) == Some(h);
    }
  }

  lemma HashOfValueIsColumn(v: Option<string>, sha1: string -> Digest)
    ensures HashColumn(FormatOptional(GetHash(v, sha1)))
  {
    OptionalHashIsColumn(GetHash(v, sha1));
  }

  lemma OptionalHashIsColumn(h: Option<string>)
    requires h.Some? ==> |h.value| == 8 && forall i :: 0 <= i < 8 ==> IsHexDigit(h.value[i])
    ensures HashColumn(FormatOptional(h))
  {
    if h.Some? {
      HashIsColumn(h.value);
    } else {
      Text.TrimNoop("");
    }
  }

  // ---------------------------------------------------------------------------
  // Writing to the profile store

  /** A property of the profile-store record: its value and how the store declares it. */
  datatype StoreProperty = StoreProperty(value: Value, multivalued: bool, required: bool)

  /** How a property's value is turned into its stored form. */
  datatype SaveFunction =
    | AsIs          // o => o
    | SourceLogText // the source log serializer
    | HashLogText   // the hash log serializer

  /** A stored property of the profile class: its name, storage name, audiences and save function. */
  datatype PropertyAction = PropertyAction(
    name: string,
    dataPropertyName: string,
    isBool: bool,
    affectedAudiences: seq<AudienceAttribute>,
    save: SaveFunction)

  /** What Save reads of the profile: it does not change during a save. */
  datatype Snapshot = Snapshot(changed: seq<string>, values: map<string, Value>, sourceLog: Log, hashLog: HashLog)

  /** fval(pi.GetValue(this)): the value of a property in its stored form. */
  function SaveValue(snap: Snapshot, a: PropertyAction): Value
    requires DatesValid(snap.sourceLog)
  {
    match a.save
    case AsIs => if a.name in snap.values then snap.values[a.name] else Null
    case SourceLogText => Str(OldSerialize(snap.sourceLog))
    case HashLogText => Str(SaveHashLog(snap.hashLog))
  }

  /**
   * The record after a value is written to it: a required property is never
   * cleared; any other value replaces the stored one (a list's items go into
   * a multi-valued property, a nullable date is written as the date or null).
   */
  function Written(pp: StoreProperty, val: Value): (r: StoreProperty)
    ensures r.multivalued == pp.multivalued && r.required == pp.required
    ensures pp.required && (val.Null? || ToText(val) == Some("")) ==> r == pp
    ensures !(pp.required && (val.Null? || ToText(val) == Some(""))) ==> r.value == val
  {
    if val.StringList? && pp.multivalued then pp.(value := val)
    else if pp.required && (val.Null? || ToText(val) == Some("")) then pp
    else pp.(value := val)
  }

  /**
   * Whether writing val to a property whose stored text was oldval queues the
   * audience: always for an audience without a filter or a bool property;
   * otherwise when the old text or the new string contains the filter.
   */
  predicate AudienceTriggered(aa: AudienceAttribute, oldval: Option<string>, isBool: bool, val: Value) {
    || aa.filter == ""
    || (oldval.Some? && Text.Contains(oldval.value, aa.filter))
    || isBool
    || (val.Str? && Text.Contains(val.s, aa.filter))
  }

  /** The names of the audiences a write queues, in attribute order. */
  function Triggered(aas: seq<AudienceAttribute>, oldval: Option<string>, isBool: bool, val: Value): (r: seq<string>)
    decreases |aas|
  {
    if |aas| == 0 then []
    else
      var last := aas[|aas| - 1];
      Triggered(aas[..|aas| - 1], oldval, isBool, val) + (if AudienceTriggered(last, oldval, isBool, val) then [last.audienceName] else [])
  }

  /** A write queues exactly the audiences it triggers. */
  lemma {:induction false} TriggeredSpec(aas: seq<AudienceAttribute>, oldval: Option<string>, isBool: bool, val: Value)
    ensures forall x :: x in Triggered(aas, oldval, isBool, val) <==>
      exists i :: 0 <= i < |aas| && aas[i].audienceName == x && AudienceTriggered(aas[i], oldval, isBool, val)
    decreases |aas|
  {
    if |aas| > 0 {
      var front := aas[..|aas| - 1];
      TriggeredSpec(front, oldval, isBool, val);
      assert forall i :: 0 <= i < |front| ==> front[i] == aas[i];
    }
  }

  /** The queue after every name is pushed in turn. */
  function PushAll(q: seq<string>, names: seq<string>): seq<string>
    decreases |names|
  {
    if |names| == 0 then q else Pushed(PushAll(q, names[..|names| - 1]), names[|names| - 1])
  }

  lemma TriggeredStep(aas: seq<AudienceAttribute>, k: nat, oldval: Option<string>, isBool: bool, val: Value)
    requires k < |aas|
    ensures Triggered(aas[..k + 1], oldval, isBool, val) ==
      if AudienceTriggered(aas[k], oldval, isBool, val)
      then Triggered(aas[..k], oldval, isBool, val) + [aas[k].audienceName]
      else Triggered(aas[..k], oldval, isBool, val)
  {
    assert aas[..k + 1][..k] == aas[..k] && aas[..k + 1][k] == aas[k];
    assert Triggered(aas[..k], oldval, isBool, val) + [] == Triggered(aas[..k], oldval, isBool, val);
  }

  lemma PushAllAppend(q: seq<string>, names: seq<string>, n: string)
    ensures PushAll(q, names + [n]) == Pushed(PushAll(q, names), n)
  {
    assert (names + [n])[..|names|] == names;
  }

  /**
   * Pushing names keeps the queue free of repeats; afterwards it holds the
   * names it held and the names pushed, nothing else.
   */
  lemma {:induction false} PushAllSpec(q: seq<string>, names: seq<string>)
    requires Unique(q)
    ensures Unique(PushAll(q, names))
    ensures forall x :: x in PushAll(q, names) <==> x in q || x in names
    decreases |names|
  {
    if |names| > 0 {
      var front := names[..|names| - 1];
      var n := names[|names| - 1];
      assert names == front + [n];
      PushAllSpec(q, front);
      var p := PushAll(q, front);
      PushedSpec(p, n);
      assert PushAll(q, names) == Pushed(p, n);
      forall x ensures x in Pushed(p, n) <==> x in q || x in names {
        assert x in names <==> x in front || x == n;
      }
    }
  }

  /** The part of a save's state that a failed save leaves behind too. */
  datatype SaveState = SaveState(store: map<string, StoreProperty>, queue: seq<string>)

  /** The null reference a missing store property throws on. */
  const NullReference: string := "Object reference not set to an instance of an object."

  /**
   * SetIfChanged for one property: nothing for a property that has not
   * changed or has no storage name; a failure for one the store lacks;
   * otherwise the write, then the audiences it triggers are queued.
   */
  function SaveProperty(changed: seq<string>, st: SaveState, a: PropertyAction, val: Value): Result<SaveState, string> {
    if a.name !in changed || a.dataPropertyName == "" then Success(st)
    else if a.dataPropertyName !in st.store then Failure(NullReference)
    else
      var pp := st.store[a.dataPropertyName];
      Success(SaveState(
        st.store[a.dataPropertyName := Written(pp, val)],
        PushAll(st.queue, Triggered(a.affectedAudiences, AsString(pp.value), a.isBool, val))))
  }

  /** Every action in turn; the first failure stops the save and keeps the state reached. */
  function SaveAll(snap: Snapshot, st: SaveState, actions: seq<PropertyAction>): (SaveState, bool)
    requires DatesValid(snap.sourceLog)
    decreases |actions|
  {
    if |actions| == 0 then (st, true)
    else match SaveProperty(snap.changed, st, actions[0], SaveValue(snap, actions[0]))
      case Failure(_) => (st, false)
      case Success(st') => SaveAll(snap, st', actions[1..])
  }

  /** A save writes only the store properties of changed properties. */
  lemma {:induction false} SaveAllWritesChangedOnly(snap: Snapshot, st: SaveState, actions: seq<PropertyAction>, dp: string)
    requires DatesValid(snap.sourceLog) && dp in st.store
    requires forall i :: 0 <= i < |actions| && actions[i].dataPropertyName == dp ==> actions[i].name !in snap.changed
    ensures var r := SaveAll(snap, st, actions).0;
      dp in r.store && r.store[dp] == st.store[dp]
    decreases |actions|
  {
    if |actions| > 0 {
      var o := SaveProperty(snap.changed, st, actions[0], SaveValue(snap, actions[0]));
      if o.Success? {
        assert dp in o.value.store && o.value.store[dp] == st.store[dp];
        SaveAllWritesChangedOnly(snap, o.value, actions[1..], dp);
      }
    }
  }

  /**
   * A save fails exactly when a changed property with a storage name is
   * missing from the store.
   */
  lemma {:induction false} SaveAllFails(snap: Snapshot, st: SaveState, actions: seq<PropertyAction>)
    requires DatesValid(snap.sourceLog)
    ensures !SaveAll(snap, st, actions).1 <==>
      exists i :: 0 <= i < |actions| && actions[i].name in snap.changed
        && actions[i].dataPropertyName != "" && actions[i].dataPropertyName !in st.store
    decreases |actions|
  {
    if |actions| > 0 {
      var a := actions[0];
      var o := SaveProperty(snap.changed, st, a, SaveValue(snap, a));
      if o.Success? {
        assert o.value.store.Keys == st.store.Keys;
        SaveAllFails(snap, o.value, actions[1..]);
        if !SaveAll(snap, st, actions).1 {
          var i :| 0 <= i < |actions[1..]| && actions[1..][i].name in snap.changed
            && actions[1..][i].dataPropertyName != "" && actions[1..][i].dataPropertyName !in o.value.store;
          assert actions[i + 1] == actions[1..][i];
        } else {
          forall i | 0 <= i < |actions| && actions[i].name in snap.changed && actions[i].dataPropertyName != ""
            ensures actions[i].dataPropertyName in st.store
          {
            if i > 0 {
              assert actions[i] == actions[1..][i - 1];
            }
          }
        }
      }
    }
  }

  /** A queue without repeats stays without repeats through a save. */
  lemma {:induction false} SaveAllQueueUnique(snap: Snapshot, st: SaveState, actions: seq<PropertyAction>)
    requires DatesValid(snap.sourceLog) && Unique(st.queue)
    ensures Unique(SaveAll(snap, st, actions).0.queue)
    decreases |actions|
  {
    if |actions| > 0 {
      var a := actions[0];
      var o := SaveProperty(snap.changed, st, a, SaveValue(snap, a));
      if o.Success? {
        if a.name in snap.changed && a.dataPropertyName != "" {
          PushAllSpec(st.queue, Triggered(a.affectedAudiences, AsString(st.store[a.dataPropertyName].value), a.isBool, SaveValue(snap, a)));
        }
        SaveAllQueueUnique(snap, o.value, actions[1..]);
      }
    }
  }

  // ---------------------------------------------------------------------------
  // Loading

  const InvalidCast: string := "Specified cast is not valid."

  /** (string)ppvc.Value of a store property: null reads as the empty text. */
  function StoredText(store: map<string, StoreProperty>, name: string): (r: Result<string, string>)
    ensures r.Success? <==> name in store && (store[name].value.Null? || store[name].value.Str?)
  {
    if name !in store then Failure(NullReference)
    else match store[name].value
      case Null => Success("")
      case Str(s) => Success(s)
      case _ => Failure(InvalidCast)
  }

  /** The source log and the hash log, read from the store's "SourceLog" and "HashLog". */
  function LoadLogs(store: map<string, StoreProperty>): Result<(Log, HashLog), string> {
    var slText :- StoredText(store, "SourceLog");
    var sl :- LoadProfileLogText(slText);
    var hlText :- StoredText(store, "HashLog");
    var hl :- LoadHashLogText(hlText);
    Success((sl, hl))
  }

  lemma {:induction false} OldHistoryValid(cl: seq<string>, i: nat)
    ensures OldHistory(cl, i).Success? ==> HistoryDatesValid(OldHistory(cl, i).value)
    decreases |cl| - i
  {
    if i + 2 < |cl| && ParseDate(cl[i + 1]).Some? {
      OldHistoryValid(cl, i + 3);
    }
  }

  lemma ProfileLineValid(l: string)
    ensures ClassifyProfileLine(l).Parsed? ==>
      Dates.Valid(ClassifyProfileLine(l).entry.updated) && HistoryDatesValid(ClassifyProfileLine(l).entry.history)
  {
    if '<' !in l && '|' in l {
      OldHistoryValid(Text.Split(l, '|'), 4);
    }
  }

  lemma {:induction false} ApplyAllValid(log: Log, lines: seq<string>)
    requires UniqueKeys(log) && DatesValid(log)
    ensures var r := ApplyAll(log, ClassifyProfileLines(lines));
      r.Success? ==> UniqueKeys(r.value) && DatesValid(r.value)
    decreases |lines|
  {
    var os := ClassifyProfileLines(lines);
    if |lines| > 0 && !os[0].Malformed? {
      ProfileLineValid(lines[0]);
      if os[0].Parsed? {
        SetKeepsDatesValid(log, os[0].entry.field, os[0].entry);
      }
      assert os[1..] == ClassifyProfileLines(lines[1..]);
      ApplyAllValid(Apply(log, os[0]), lines[1..]);
    }
  }

  lemma {:induction false} AddAllUnique(d: HashLog, lines: seq<string>)
    requires UniqueKeys(d)
    ensures AddAll(d, lines).Success? ==> UniqueKeys(AddAll(d, lines).value)
    decreases |lines|
  {
    if |lines| > 0 {
      match HashLineEntry(lines[0])
      case None => AddAllUnique(d, lines[1..]);
      case Some((k, v)) =>
        if Add(d, k, Some(v)).Success? {
          AddAllUnique(Add(d, k, Some(v)).value, lines[1..]);
        }
    }
  }

  /** Logs read from the store have distinct keys and dates in range. */
  lemma LoadLogsValid(store: map<string, StoreProperty>)
    ensures LoadLogs(store).Success? ==>
      && UniqueKeys(LoadLogs(store).value.0) && DatesValid(LoadLogs(store).value.0)
      && UniqueKeys(LoadLogs(store).value.1)
  {
    var slText := StoredText(store, "SourceLog");
    var hlText := StoredText(store, "HashLog");
    if slText.Success? && slText.value != "" {
      ApplyAllValid([], Text.SplitLines(slText.value));
    }
    if hlText.Success? && hlText.value != "" {
      AddAllUnique([], Text.SplitLines(hlText.value));
    }
  }

  // ---------------------------------------------------------------------------
  // The profile

  class Profile {
    var lanId: string
    /** The typed properties, by property name. */
    var values: map<string, Value>
    var sourceLog: Log
    var hashLog: HashLog
    var changedProperties: seq<string>
    /** The profile-store record the profile was loaded from and saves to, by storage name. */
    var store: map<string, StoreProperty>

    predicate Valid()
      reads this
    {
      UniqueKeys(sourceLog) && DatesValid(sourceLog) && UniqueKeys(hashLog)
    }

    function Snap(): Snapshot
      reads this
    {
      Snapshot(changedProperties, values, sourceLog, hashLog)
    }

    /** The empty profile the parameterless constructor makes. */
    constructor()
      ensures Valid()
      ensures changedProperties == [] && sourceLog == [] && hashLog == []
      ensures lanId == "" && values == map[] && store == map[]
    {
      lanId := "";
      values := map[];
      sourceLog := [];
      hashLog := [];
      changedProperties := [];
      store := map[];
    }

    /**
     * The loading constructor: the login, the typed values converted from the
     * record (the conversions are the caller's), and the two logs read from
     * the record; a log that cannot be read fails the load.
     */
    static method Load(lanId: string, store: map<string, StoreProperty>, values: map<string, Value>) returns (r: Result<Profile, string>)
      ensures r.Success? <==> LoadLogs(store).Success?
      ensures r.Success? ==> fresh(r.value) && r.value.Valid()
      ensures r.Success? ==> r.value.sourceLog == LoadLogs(store).value.0 && r.value.hashLog == LoadLogs(store).value.1
      ensures r.Success? ==> r.value.changedProperties == [] && r.value.lanId == lanId
      ensures r.Success? ==> r.value.store == store && r.value.values == values
    {
      var slText := StoredText(store, "SourceLog");
      if slText.Failure? {
        return Failure(slText.error);
      }
      var sl := LoadProfileLog(slText.value);
      if sl.Failure? {
        return Failure(sl.error);
      }
      var hlText := StoredText(store, "HashLog");
      if hlText.Failure? {
        return Failure(hlText.error);
      }
      var hl := LoadHashLog(hlText.value);
      if hl.Failure? {
        return Failure(hl.error);
      }
      LoadLogsValid(store);
      var p := new Profile();
      p.lanId := lanId;
      p.store := store;
      p.values := values;
      p.sourceLog := sl.value;
      p.hashLog := hl.value;
      return Success(p);
    }

    /**
     * SetUpdated: logs that source has just set p. The history of an entry
     * already logged is first cut to its newest five entries, then the
     * previous setting is appended; the time and the user are the caller's.
     */
    method SetUpdated(p: string, source: string, now: Dates.DateTime, user: string)
      requires Valid() && Dates.Valid(now)
      modifies this
      ensures Valid()
      ensures sourceLog == Updated(old(sourceLog), p, source, now, user)
      ensures changedProperties == old(changedProperties) + [p, "SourceLog"]
      ensures hashLog == old(hashLog) && values == old(values) && store == old(store) && lanId == old(lanId)
    {
      var e: SourceLogEntry;
      var found := Get(sourceLog, p);
      if found.Some? {
        e := found.value;
        var h := DropOldest(e.history);
        e := e.(history := h + [Previous(e)]);
      } else {
        e := SourceLogEntry(p, "", Dates.MinValue, "", []);
      }
      e := e.(source := source, updated := now, user := user);
      assert Set(sourceLog, p, e) == Updated(sourceLog, p, source, now, user);
      UpdatedValid(sourceLog, p, source, now, user);
      sourceLog := Set(sourceLog, p, e);
      changedProperties := changedProperties + [p, "SourceLog"];
    }

    /** The history trim of SetUpdated: removes the oldest entry while more than five remain. */
    static method DropOldest(history: seq<HistoryEntry>) returns (h: seq<HistoryEntry>)
      ensures h == LastN(history, KeptHistory)
    {
      h := history;
      while |h| > KeptHistory
        invariant h == history[|history| - |h|..]
        invariant |h| >= KeptHistory || h == history
        decreases |h|
      {
        h := h[1..];
      }
    }

    /**
     * ImportedPropertyChanged: whether the imported value's hash differs from
     * the one logged for p; a differing or missing hash is logged and "HashLog"
     * is marked changed.
     */
    method ImportedPropertyChanged(p: string, newvalue: Option<string>, sha1: string -> Digest) returns (changed: bool)
      requires Valid()
      modifies this
      ensures Valid()
      ensures changed <==> HashChanged(old(hashLog), p, GetHash(newvalue, sha1))
      ensures changed ==> hashLog == Set(old(hashLog), p, GetHash(newvalue, sha1))
      ensures changed ==> changedProperties == old(changedProperties) + ["HashLog"]
      ensures !changed ==> hashLog == old(hashLog) && changedProperties == old(changedProperties)
      ensures !HashChanged(hashLog, p, GetHash(newvalue, sha1))
      ensures sourceLog == old(sourceLog) && values == old(values) && store == old(store) && lanId == old(lanId)
    {
      var newhash := GetHash(newvalue, sha1);
      if !ContainsKey(hashLog, p) || Get(hashLog, p).value != newhash {
        hashLog := Set(hashLog, p, newhash);
        changedProperties := changedProperties + ["HashLog"];
        return true;
      }
      return false;
    }

    /**
     * SetIfChanged for one stored property: writes its value in stored form
     * to the record and queues the audiences the write may affect. A store
     * property that does not exist throws.
     */
    method SetIfChanged(a: PropertyAction, queue: AudienceCompilationQueue) returns (ok: bool)
      requires DatesValid(sourceLog)
      modifies this, queue
      ensures var r := SaveProperty(old(changedProperties), SaveState(old(store), old(queue.data)), a, SaveValue(old(Snap()), a));
        && (ok <==> r.Success?)
        && (r.Success? ==> store == r.value.store && queue.data == r.value.queue)
        && (r.Failure? ==> store == old(store) && queue.data == old(queue.data))
      ensures Snap() == old(Snap()) && lanId == old(lanId)
    {
      if a.name !in changedProperties || a.dataPropertyName == "" {
        return true;
      }
      var val := SaveValue(Snap(), a);
      if a.dataPropertyName !in store {
        return false;
      }
      var pp := store[a.dataPropertyName];
      var oldval := AsString(pp.value);
      if val.StringList? && pp.multivalued {
        pp := pp.(value := val);
      } else if pp.required && (val.Null? || ToText(val) == Some("")) {
        // a required field is not cleared
      } else {
        pp := pp.(value := val);
      }
      store := store[a.dataPropertyName := pp];
      QueueAudiences(a.affectedAudiences, oldval, a.isBool, val, queue);
      return true;
    }

    /** The audience loop of SetIfChanged: queues every audience the write triggers, in order. */
    static method QueueAudiences(aas: seq<AudienceAttribute>, oldval: Option<string>, isBool: bool, val: Value, queue: AudienceCompilationQueue)
      modifies queue
      ensures queue.data == PushAll(old(queue.data), Triggered(aas, oldval, isBool, val))
    {
      var k := 0;
      while k < |aas|
        invariant 0 <= k <= |aas|
        invariant queue.data == PushAll(old(queue.data), Triggered(aas[..k], oldval, isBool, val))
      {
        var aa := aas[k];
        TriggeredStep(aas, k, oldval, isBool, val);
        if AudienceTriggered(aa, oldval, isBool, val)
        {
          PushAllAppend(old(queue.data), Triggered(aas[..k], oldval, isBool, val), aa.audienceName);
          queue.Push(aa.audienceName);
        }
        k := k + 1;
      }
      assert aas[..k] == aas;
    }

    /**
     * Save: nothing when no property changed. Otherwise every stored property
     * is written, then the custom properties, then the record is committed;
     * only a save that gets through all three clears the changed list. A
     * failure on the way is logged and leaves the list as it was.
     */
    method Save(actions: seq<PropertyAction>, queue: AudienceCompilationQueue, customSaved: bool, committed: bool) returns (saved: bool)
      requires Valid()
      modifies this, queue
      ensures Valid()
      ensures old(changedProperties) == [] ==> !saved && store == old(store) && queue.data == old(queue.data)
      ensures old(changedProperties) != [] ==>
        var (st, ok) := SaveAll(old(Snap()), SaveState(old(store), old(queue.data)), actions);
        && store == st.store && queue.data == st.queue
        && (saved <==> ok && customSaved && committed)
      ensures saved ==> changedProperties == []
      ensures !saved ==> changedProperties == old(changedProperties)
      ensures values == old(values) && sourceLog == old(sourceLog) && hashLog == old(hashLog) && lanId == old(lanId)
    {
      if |changedProperties| == 0 {
        return false;
      }
      ghost var snap := Snap();
      ghost var st0 := SaveState(store, queue.data);
      var i := 0;
      while i < |actions|
        invariant 0 <= i <= |actions|
        invariant Snap() == snap && lanId == old(lanId)
        invariant SaveAll(snap, st0, actions) == SaveAll(snap, SaveState(store, queue.data), actions[i..])
      {
        assert actions[i..][0] == actions[i] && actions[i..][1..] == actions[i + 1..];
        var ok := SetIfChanged(actions[i], queue);
        if !ok {
          return false;
        }
        i := i + 1;
      }
      if !customSaved || !committed {
        return false;
      }
      changedProperties := [];
      return true;
    }
  }
}
