/**
 * The per-source loader (ProfileDataLoader<TProfile, TSource>): the mappings
 * a loader registers from profile properties to functions of its source
 * record, the cache of what each mapped property allows this source to do,
 * and the merge rule that decides whether one imported value replaces the
 * value a profile holds.
 */
module Loaders {
  import opened Wrappers
  import opened Dicts
  import Dates
  import opened AudienceQueues
  import opened ProfileAttributes
  import opened Profiles

  /**
   * A registered mapping: the property its expression names, and the function
   * that computes the value to import from the profile's values and the
   * source record (None for a null source).
   */
  datatype Mapping<!S> = Mapping(property: string, valueFunction: (map<string, Value>, Option<S>) -> Value)

  /** LoadablePropertyDetails: what one mapped property lets this source do. */
  datatype PropertyDetails<!S> = PropertyDetails(
    property: string,
    isValid: bool,
    betterSources: seq<string>,
    raisePriorityOnChange: bool,
    useIfNull: bool,
    updateForNullSource: bool,
    runInSecondaryUpdate: bool,
    valueFunction: (map<string, Value>, Option<S>) -> Value)

  // ---------------------------------------------------------------------------
  // LoadablePropertyDetails

  /** The source attributes declared on a property; none for a property without any. */
  function AttributesOf(sources: map<string, seq<SourceAttribute>>, p: string): seq<SourceAttribute> {
    if p in sources then sources[p] else []
  }

  /** The first source attribute that names source (FirstOrDefault). */
  function FirstSource(attrs: seq<SourceAttribute>, source: string): (r: Option<SourceAttribute>)
    ensures r.None? <==> forall a :: a in attrs ==> a.profileSource != source
    ensures r.Some? ==> r.value in attrs && r.value.profileSource == source
  {
    if |attrs| == 0 then None
    else if attrs[0].profileSource == source then Some(attrs[0])
    else FirstSource(attrs[1..], source)
  }

  /** The sources declared with a strictly smaller order, in declaration order. */
  function BetterSources(attrs: seq<SourceAttribute>, order: int): (r: seq<string>)
    ensures forall s :: s in r <==> exists a :: a in attrs && a.order < order && a.profileSource == s
  {
    if |attrs| == 0 then []
    else
      assert forall a :: a in attrs <==> a == attrs[0] || a in attrs[1..];
      (if attrs[0].order < order then [attrs[0].profileSource] else []) + BetterSources(attrs[1..], order)
  }

  /**
   * The LoadablePropertyDetails constructor: valid exactly when the property
   * carries a source attribute for this loader; the better sources are those
   * declared with a strictly smaller order than that attribute's, so a source
   * of equal order is not better.
   */
  function NewDetails<S>(m: Mapping<S>, attrs: seq<SourceAttribute>, sourceName: string, updateForNullSource: bool, runInSecondaryUpdate: bool): (d: PropertyDetails<S>)
    ensures d.property == m.property
    ensures d.isValid <==> exists a :: a in attrs && a.profileSource == sourceName
    ensures d.isValid ==>
      var sa := FirstSource(attrs, sourceName).value;
      && (forall s :: s in d.betterSources <==> exists a :: a in attrs && a.order < sa.order && a.profileSource == s)
      && d.raisePriorityOnChange == sa.raisePriorityIfChanged && d.useIfNull == sa.useIfEmpty
      && d.updateForNullSource == updateForNullSource && d.runInSecondaryUpdate == runInSecondaryUpdate
  {
    match FirstSource(attrs, sourceName)
    case None => PropertyDetails(m.property, false, [], false, false, false, false, m.valueFunction)
    case Some(sa) =>
      PropertyDetails(m.property, true, BetterSources(attrs, sa.order), sa.raisePriorityIfChanged, sa.useIfEmpty,
        updateForNullSource, runInSecondaryUpdate, m.valueFunction)
  }

  /** When each source is declared once on a property, the loader's own source is never among the better ones. */
  lemma OwnSourceNotBetter<S>(m: Mapping<S>, attrs: seq<SourceAttribute>, sourceName: string, nullable: bool, delayed: bool)
    requires forall i, j :: 0 <= i < j < |attrs| ==> attrs[i].profileSource != attrs[j].profileSource
    ensures sourceName !in NewDetails(m, attrs, sourceName, nullable, delayed).betterSources
  {
    var d := NewDetails(m, attrs, sourceName, nullable, delayed);
    if d.isValid {
      var sa := FirstSource(attrs, sourceName).value;
      forall a | a in attrs && a.profileSource == sourceName ensures a == sa {
        var i :| 0 <= i < |attrs| && attrs[i] == a;
        var j :| 0 <= j < |attrs| && attrs[j] == sa;
        assert attrs[i].profileSource == attrs[j].profileSource;
      }
    }
  }

  // ---------------------------------------------------------------------------
  // UpdateCachedDetails

  /** Whether a mapped property carries a source attribute for this loader. */
  predicate HasSource(sources: map<string, seq<SourceAttribute>>, p: string, sourceName: string) {
    exists a :: a in AttributesOf(sources, p) && a.profileSource == sourceName
  }

  /** The properties of the mappings that are valid for this loader, in mapping order. */
  function ValidProperties<S>(ms: seq<Mapping<S>>, sources: map<string, seq<SourceAttribute>>, sourceName: string): (r: seq<string>)
    ensures |r| <= |ms|
    ensures forall p :: p in r ==> HasSource(sources, p, sourceName)
  {
    if |ms| == 0 then []
    else
      var here := if HasSource(sources, ms[0].property, sourceName) then [ms[0].property] else [];
      here + ValidProperties(ms[1..], sources, sourceName)
  }

  /** The cache entries of one mapping dictionary added to pc in order; Add fails on a property already cached. */
  function AddDetails<S>(pc: Dict<PropertyDetails<S>>, ms: seq<Mapping<S>>, sources: map<string, seq<SourceAttribute>>,
                         sourceName: string, nullable: bool, delayed: bool): Result<Dict<PropertyDetails<S>>, string>
    decreases |ms|
  {
    if |ms| == 0 then Success(pc)
    else
      var d := NewDetails(ms[0], AttributesOf(sources, ms[0].property), sourceName, nullable, delayed);
      if d.isValid then
        var pc' :- Add(pc, d.property, d);
        AddDetails(pc', ms[1..], sources, sourceName, nullable, delayed)
      else AddDetails(pc, ms[1..], sources, sourceName, nullable, delayed)
  }

  /**
   * The whole cache: plain mappings, then nullable ones (run for a null
   * source), then the delayed ones and the delayed nullable ones, both of
   * which are registered without the null-source flag.
   */
  function CachedDetails<S>(sources: map<string, seq<SourceAttribute>>, sourceName: string,
                            mappings: seq<Mapping<S>>, nullableMappings: seq<Mapping<S>>,
                            delayedMappings: seq<Mapping<S>>, delayedNullableMappings: seq<Mapping<S>>): Result<Dict<PropertyDetails<S>>, string>
  {
    var pc :- AddDetails([], mappings, sources, sourceName, false, false);
    var pc :- AddDetails(pc, nullableMappings, sources, sourceName, true, false);
    var pc :- AddDetails(pc, delayedMappings, sources, sourceName, false, true);
    AddDetails(pc, delayedNullableMappings, sources, sourceName, false, true)
  }

  /** A cache entry made for its own property with the given flags. */
  predicate CachedWith<S>(e: (string, PropertyDetails<S>), nullable: bool, delayed: bool) {
    e.1.isValid && e.1.property == e.0 && e.1.updateForNullSource == nullable && e.1.runInSecondaryUpdate == delayed
  }

  lemma UniqueKeysIff<V>(d: Dict<V>)
    ensures UniqueKeys(d) <==> Unique(Keys(d))
  {
    assert forall i :: 0 <= i < |d| ==> Keys(d)[i] == d[i].0;
  }

  lemma UniqueAppendOne(a: seq<string>, x: string)
    requires Unique(a) && x !in a
    ensures Unique(a + [x])
  {
    forall i, j | 0 <= i < j < |a + [x]| ensures (a + [x])[i] != (a + [x])[j] {
      assert (a + [x])[i] == a[i];
      if j < |a| {
        assert (a + [x])[j] == a[j];
      }
    }
  }

  lemma UniquePrefix(a: seq<string>, b: seq<string>)
    requires Unique(a + b)
    ensures Unique(a)
  {
    forall i, j | 0 <= i < j < |a| ensures a[i] != a[j] {
      assert (a + b)[i] == a[i] && (a + b)[j] == a[j];
    }
  }

  lemma UniqueNotInPrefix(a: seq<string>, x: string, b: seq<string>)
    requires x in a
    ensures !Unique(a + [x] + b)
  {
    var i :| 0 <= i < |a| && a[i] == x;
    assert (a + [x] + b)[i] == x && (a + [x] + b)[|a|] == x;
  }

  /**
   * Adding one mapping dictionary succeeds exactly when the cached
   * properties and the newly valid ones are all distinct, and then appends
   * one key per valid mapping.
   */
  lemma {:induction false} AddDetailsSpec<S>(pc: Dict<PropertyDetails<S>>, ms: seq<Mapping<S>>, sources: map<string, seq<SourceAttribute>>,
                                             sourceName: string, nullable: bool, delayed: bool)
    requires UniqueKeys(pc)
    ensures var r := AddDetails(pc, ms, sources, sourceName, nullable, delayed);
      && (r.Success? <==> Unique(Keys(pc) + ValidProperties(ms, sources, sourceName)))
      && (r.Success? ==> Keys(r.value) == Keys(pc) + ValidProperties(ms, sources, sourceName))
    decreases |ms|
  {
    UniqueKeysIff(pc);
    if |ms| > 0 {
      var d := NewDetails(ms[0], AttributesOf(sources, ms[0].property), sourceName, nullable, delayed);
      var rest := ValidProperties(ms[1..], sources, sourceName);
      if d.isValid {
        assert ValidProperties(ms, sources, sourceName) == [d.property] + rest;
        assert Keys(pc) + ([d.property] + rest) == Keys(pc) + [d.property] + rest;
        ContainsKeyIff(pc, d.property);
        if ContainsKey(pc, d.property) {
          UniqueNotInPrefix(Keys(pc), d.property, rest);
        } else {
          var pc' := pc + [(d.property, d)];
          assert Keys(pc') == Keys(pc) + [d.property];
          UniqueAppendOne(Keys(pc), d.property);
          UniqueKeysIff(pc');
          AddDetailsSpec(pc', ms[1..], sources, sourceName, nullable, delayed);
        }
      } else {
        assert ValidProperties(ms, sources, sourceName) == rest;
        AddDetailsSpec(pc, ms[1..], sources, sourceName, nullable, delayed);
      }
    }
  }

  /** The entries added follow the old ones, each made for its own property with the dictionary's flags. */
  lemma {:induction false} AddDetailsEntries<S>(pc: Dict<PropertyDetails<S>>, ms: seq<Mapping<S>>, sources: map<string, seq<SourceAttribute>>,
                                                sourceName: string, nullable: bool, delayed: bool)
    ensures var r := AddDetails(pc, ms, sources, sourceName, nullable, delayed);
      r.Success? ==>
        && |pc| <= |r.value| && r.value[..|pc|] == pc
        && forall i :: |pc| <= i < |r.value| ==> CachedWith(r.value[i], nullable, delayed)
    decreases |ms|
  {
    if |ms| > 0 {
      var d := NewDetails(ms[0], AttributesOf(sources, ms[0].property), sourceName, nullable, delayed);
      if d.isValid {
        if !ContainsKey(pc, d.property) {
          var pc' := pc + [(d.property, d)];
          AddDetailsEntries(pc', ms[1..], sources, sourceName, nullable, delayed);
          var r := AddDetails(pc', ms[1..], sources, sourceName, nullable, delayed);
          if r.Success? {
            assert r.value[..|pc|] == r.value[..|pc'|][..|pc|];
            forall i | |pc| <= i < |r.value| ensures CachedWith(r.value[i], nullable, delayed) {
              if i == |pc| {
                assert r.value[i] == r.value[..|pc'|][i] == (d.property, d);
              }
            }
          }
        }
      } else {
        AddDetailsEntries(pc, ms[1..], sources, sourceName, nullable, delayed);
      }
    }
  }

  /**
   * UpdateCachedDetails succeeds exactly when no property is valid for this
   * loader in two mappings; the cache then holds one entry per valid mapping,
   * in the order of the four dictionaries.
   */
  lemma CachedDetailsKeys<S>(sources: map<string, seq<SourceAttribute>>, sourceName: string,
                             m1: seq<Mapping<S>>, m2: seq<Mapping<S>>, m3: seq<Mapping<S>>, m4: seq<Mapping<S>>)
    ensures var v1 := ValidProperties(m1, sources, sourceName);
      var v2 := ValidProperties(m2, sources, sourceName);
      var v3 := ValidProperties(m3, sources, sourceName);
      var v4 := ValidProperties(m4, sources, sourceName);
      var r := CachedDetails(sources, sourceName, m1, m2, m3, m4);
      && (r.Success? <==> Unique(v1 + v2 + v3 + v4))
      && (r.Success? ==> UniqueKeys(r.value) && Keys(r.value) == v1 + v2 + v3 + v4)
  {
    var v1 := ValidProperties(m1, sources, sourceName);
    var v2 := ValidProperties(m2, sources, sourceName);
    var v3 := ValidProperties(m3, sources, sourceName);
    var v4 := ValidProperties(m4, sources, sourceName);
    var empty: Dict<PropertyDetails<S>> := [];
    assert Keys(empty) == [];
    AddDetailsSpec(empty, m1, sources, sourceName, false, false);
    var r1 := AddDetails(empty, m1, sources, sourceName, false, false);
    assert Keys(empty) + v1 == v1;
    if r1.Failure? {
      if Unique(v1 + v2 + v3 + v4) {
        UniquePrefix(v1 + v2 + v3, v4);
        UniquePrefix(v1 + v2, v3);
        UniquePrefix(v1, v2);
      }
      return;
    }
    UniqueKeysIff(r1.value);
    AddDetailsSpec(r1.value, m2, sources, sourceName, true, false);
    var r2 := AddDetails(r1.value, m2, sources, sourceName, true, false);
    if r2.Failure? {
      if Unique(v1 + v2 + v3 + v4) {
        UniquePrefix(v1 + v2 + v3, v4);
        UniquePrefix(v1 + v2, v3);
      }
      return;
    }
    UniqueKeysIff(r2.value);
    AddDetailsSpec(r2.value, m3, sources, sourceName, false, true);
    var r3 := AddDetails(r2.value, m3, sources, sourceName, false, true);
    if r3.Failure? {
      if Unique(v1 + v2 + v3 + v4) {
        UniquePrefix(v1 + v2 + v3, v4);
      }
      return;
    }
    UniqueKeysIff(r3.value);
    AddDetailsSpec(r3.value, m4, sources, sourceName, false, true);
    var r4 := AddDetails(r3.value, m4, sources, sourceName, false, true);
    if r4.Success? {
      UniqueKeysIff(r4.value);
    }
  }

  /**
   * The flags of the cached entries: the plain mappings first, then the
   * nullable ones, then the delayed ones; no delayed entry runs for a null
   * source.
   */
  lemma CachedDetailsFlags<S>(sources: map<string, seq<SourceAttribute>>, sourceName: string,
                              m1: seq<Mapping<S>>, m2: seq<Mapping<S>>, m3: seq<Mapping<S>>, m4: seq<Mapping<S>>)
    ensures var n1 := |ValidProperties(m1, sources, sourceName)|;
      var n2 := |ValidProperties(m2, sources, sourceName)|;
      var r := CachedDetails(sources, sourceName, m1, m2, m3, m4);
      r.Success? ==>
        && n1 + n2 <= |r.value|
        && (forall i :: 0 <= i < n1 ==> CachedWith(r.value[i], false, false))
        && (forall i :: n1 <= i < n1 + n2 ==> CachedWith(r.value[i], true, false))
        && (forall i :: n1 + n2 <= i < |r.value| ==> CachedWith(r.value[i], false, true))
  {
    var empty: Dict<PropertyDetails<S>> := [];
    AddDetailsSpec(empty, m1, sources, sourceName, false, false);
    AddDetailsEntries(empty, m1, sources, sourceName, false, false);
    var r1 := AddDetails(empty, m1, sources, sourceName, false, false);
    if r1.Failure? {
      return;
    }
    var p1 := r1.value;
    UniqueKeysIff(p1);
    AddDetailsSpec(p1, m2, sources, sourceName, true, false);
    AddDetailsEntries(p1, m2, sources, sourceName, true, false);
    var r2 := AddDetails(p1, m2, sources, sourceName, true, false);
    if r2.Failure? {
      return;
    }
    var p2 := r2.value;
    UniqueKeysIff(p2);
    AddDetailsSpec(p2, m3, sources, sourceName, false, true);
    AddDetailsEntries(p2, m3, sources, sourceName, false, true);
    var r3 := AddDetails(p2, m3, sources, sourceName, false, true);
    if r3.Failure? {
      return;
    }
    var p3 := r3.value;
    UniqueKeysIff(p3);
    AddDetailsEntries(p3, m4, sources, sourceName, false, true);
    var r4 := AddDetails(p3, m4, sources, sourceName, false, true);
    if r4.Success? {
      var p4 := r4.value;
      assert |Keys(p1)| == |p1| && |Keys(p2)| == |p2|;
      CombineFlags(p1, p2, p3, p4);
    }
  }

  /** The flags of four cache stages, each extending the one before. */
  lemma CombineFlags<S>(p1: Dict<PropertyDetails<S>>, p2: Dict<PropertyDetails<S>>, p3: Dict<PropertyDetails<S>>, p4: Dict<PropertyDetails<S>>)
    requires |p1| <= |p2| <= |p3| <= |p4|
    requires p2[..|p1|] == p1 && p3[..|p2|] == p2 && p4[..|p3|] == p3
    requires forall i :: 0 <= i < |p1| ==> CachedWith(p1[i], false, false)
    requires forall i :: |p1| <= i < |p2| ==> CachedWith(p2[i], true, false)
    requires forall i :: |p2| <= i < |p3| ==> CachedWith(p3[i], false, true)
    requires forall i :: |p3| <= i < |p4| ==> CachedWith(p4[i], false, true)
    ensures forall i :: 0 <= i < |p1| ==> CachedWith(p4[i], false, false)
    ensures forall i :: |p1| <= i < |p2| ==> CachedWith(p4[i], true, false)
    ensures forall i :: |p2| <= i < |p4| ==> CachedWith(p4[i], false, true)
  {
    forall i | 0 <= i < |p1| ensures CachedWith(p4[i], false, false) {
      assert p4[i] == p4[..|p3|][i] == p3[..|p2|][i] == p2[..|p1|][i];
    }
    forall i | |p1| <= i < |p2| ensures CachedWith(p4[i], true, false) {
      assert p4[i] == p4[..|p3|][i] == p3[..|p2|][i];
    }
    forall i | |p2| <= i < |p4| ensures CachedWith(p4[i], false, true) {
      if i < |p3| {
        assert p4[i] == p4[..|p3|][i];
      }
    }
  }

  // ---------------------------------------------------------------------------
  // UpdateProperty

  /** PropertyInfo.GetValue: a property the map does not hold reads as null. */
  function ValueOf(values: map<string, Value>, p: string): Value {
    if p in values then values[p] else Null
  }

  /** A non-empty current source that the details rank above this loader. */
  predicate Outranked(currentSource: Option<string>, betterSources: seq<string>) {
    currentSource.Some? && currentSource.value != "" && currentSource.value in betterSources
  }

  /** `value == null || string.IsNullOrEmpty(value.ToString())`. */
  predicate IsNullOrEmptyText(v: Value) {
    ToText(v).None? || ToText(v) == Some("")
  }

  /**
   * The no-change test: both null, null against "", or two non-null values
   * with the same ToString text. Two references to one object are covered by
   * the last case, since they have the same text.
   */
  predicate SameValue(current: Value, newValue: Value) {
    || (current.Null? && newValue.Null?)
    || (current.Null? && newValue == Str(""))
    || (!current.Null? && !newValue.Null? && ToText(current) == ToText(newValue))
  }

  /**
   * UpdateProperty for an imported value nv, step by step: every guard in
   * the order the loader tests it; the hash check records the new hash even
   * when a later guard stops the write.
   */
  function UpdateWith<S>(st: Snapshot, d: PropertyDetails<S>, sourceName: string, sourceIsNull: bool, nv: Value,
                         sha1: string -> Digest, now: Dates.DateTime, user: string): Snapshot
  {
    var p := d.property;
    var cs := CurrentSource(st.sourceLog, p);
    if !d.isValid || (sourceIsNull && !d.updateForNullSource) then st
    else if !d.raisePriorityOnChange && Outranked(cs, d.betterSources) then st
    else
      var checks := d.raisePriorityOnChange && AsString(nv).Some?;
      var h := GetHash(AsString(nv), sha1);
      var rehashed := checks && HashChanged(st.hashLog, p, h);
      var st1 := if rehashed then st.(hashLog := Set(st.hashLog, p, h), changed := st.changed + ["HashLog"]) else st;
      if checks && !rehashed && Outranked(cs, d.betterSources) then st1
      else if !d.useIfNull && IsNullOrEmptyText(nv) then st1
      else if SameValue(ValueOf(st.values, p), nv) then st1
      else st1.(values := st.values[p := nv],
                sourceLog := Updated(st.sourceLog, p, sourceName, now, user),
                changed := st1.changed + [p, "SourceLog"])
  }

  /** UpdateProperty with the value the mapping computes from the profile before the update. */
  function Update<S>(st: Snapshot, d: PropertyDetails<S>, sourceName: string, source: Option<S>,
                     sha1: string -> Digest, now: Dates.DateTime, user: string): Snapshot
  {
    UpdateWith(st, d, sourceName, source.None?, d.valueFunction(st.values, source), sha1, now, user)
  }

  /** Whether the imported value's hash is checked: a valid mapping that may run, raising priority, with a string value. */
  predicate ChecksHash<S>(d: PropertyDetails<S>, sourceIsNull: bool, nv: Value) {
    d.isValid && (sourceIsNull ==> d.updateForNullSource) && d.raisePriorityOnChange && AsString(nv).Some?
  }

  /**
   * When the merge rule writes, as one condition: the mapping is valid and may
   * run for this source; a better current source is overridden only by a
   * raising source, and by one with a string value only when its hash
   * changed (a value that is not a string is never hashed, so nothing holds
   * it back); an empty value needs use-if-empty; and the value differs from
   * the one held.
   */
  predicate Writes<S>(st: Snapshot, d: PropertyDetails<S>, sourceIsNull: bool, nv: Value, sha1: string -> Digest) {
    var p := d.property;
    && d.isValid
    && (sourceIsNull ==> d.updateForNullSource)
    && (Outranked(CurrentSource(st.sourceLog, p), d.betterSources) ==>
          d.raisePriorityOnChange && (AsString(nv).Some? ==> HashChanged(st.hashLog, p, GetHash(AsString(nv), sha1))))
    && (IsNullOrEmptyText(nv) ==> d.useIfNull)
    && !SameValue(ValueOf(st.values, p), nv)
  }

  /**
   * The effect of UpdateProperty: the hash is recorded exactly when it is
   * checked and differs; the value and the source log change exactly when
   * the merge rule writes, and then SetUpdated runs once.
   */
  lemma UpdateWithSpec<S>(st: Snapshot, d: PropertyDetails<S>, sourceName: string, sourceIsNull: bool, nv: Value,
                          sha1: string -> Digest, now: Dates.DateTime, user: string)
    ensures var r := UpdateWith(st, d, sourceName, sourceIsNull, nv, sha1, now, user);
      var p := d.property;
      var h := GetHash(AsString(nv), sha1);
      var rehashed := ChecksHash(d, sourceIsNull, nv) && HashChanged(st.hashLog, p, h);
      var w := Writes(st, d, sourceIsNull, nv, sha1);
      && r.hashLog == (if rehashed then Set(st.hashLog, p, h) else st.hashLog)
      && r.values == (if w then st.values[p := nv] else st.values)
      && r.sourceLog == (if w then Updated(st.sourceLog, p, sourceName, now, user) else st.sourceLog)
      && r.changed == st.changed + (if rehashed then ["HashLog"] else []) + (if w then [p, "SourceLog"] else [])
  {
  }

  /**
   * Priority: without raise-priority, a field last set by a better source is
   * left alone entirely; with it, a string value gets through only when its
   * hash changed.
   */
  lemma BetterSourceKept<S>(st: Snapshot, d: PropertyDetails<S>, sourceName: string, sourceIsNull: bool, nv: Value,
                            sha1: string -> Digest, now: Dates.DateTime, user: string)
    requires Outranked(CurrentSource(st.sourceLog, d.property), d.betterSources)
    ensures !d.raisePriorityOnChange ==> UpdateWith(st, d, sourceName, sourceIsNull, nv, sha1, now, user) == st
    ensures var r := UpdateWith(st, d, sourceName, sourceIsNull, nv, sha1, now, user);
      r.sourceLog != st.sourceLog ==>
        d.raisePriorityOnChange && (AsString(nv).Some? ==> HashChanged(st.hashLog, d.property, GetHash(AsString(nv), sha1)))
  {
    UpdateWithSpec(st, d, sourceName, sourceIsNull, nv, sha1, now, user);
  }

  /**
   * List values: List<string>.ToString() is the type's name whatever the
   * items, so an imported list never replaces a list the profile holds, and
   * no list is ever written over a string equal to that name.
   */
  lemma ListNeverReplacesList<S>(st: Snapshot, d: PropertyDetails<S>, sourceName: string, sourceIsNull: bool, items: seq<string>,
                                 sha1: string -> Digest, now: Dates.DateTime, user: string)
    requires ValueOf(st.values, d.property).StringList? || ValueOf(st.values, d.property) == Str(StringListText)
    ensures UpdateWith(st, d, sourceName, sourceIsNull, StringList(items), sha1, now, user) == st
  {
  }

  /** Importing the same value twice in a row changes nothing the second time. */
  lemma UpdateIdempotent<S>(st: Snapshot, d: PropertyDetails<S>, sourceName: string, sourceIsNull: bool, nv: Value,
                            sha1: string -> Digest, now: Dates.DateTime, user: string)
    ensures var r := UpdateWith(st, d, sourceName, sourceIsNull, nv, sha1, now, user);
      UpdateWith(r, d, sourceName, sourceIsNull, nv, sha1, now, user) == r
  {
    var p := d.property;
    var r := UpdateWith(st, d, sourceName, sourceIsNull, nv, sha1, now, user);
    UpdateWithSpec(st, d, sourceName, sourceIsNull, nv, sha1, now, user);
    UpdateWithSpec(r, d, sourceName, sourceIsNull, nv, sha1, now, user);
    var h := GetHash(AsString(nv), sha1);
    assert ChecksHash(d, sourceIsNull, nv) ==> !HashChanged(r.hashLog, p, h);
    if Writes(st, d, sourceIsNull, nv, sha1) {
      UpdatedRecordsSetting(st.sourceLog, p, sourceName, now, user);
      assert ValueOf(r.values, p) == nv;
      assert !Writes(r, d, sourceIsNull, nv, sha1);
    } else {
      assert r.sourceLog == st.sourceLog && r.values == st.values;
      assert !Writes(r, d, sourceIsNull, nv, sha1);
    }
  }

  /** UpdateProperty touches only its own property: every other field keeps its value, log entry and hash. */
  lemma UpdateOthersUnchanged<S>(st: Snapshot, d: PropertyDetails<S>, sourceName: string, source: Option<S>,
                                 sha1: string -> Digest, now: Dates.DateTime, user: string, q: string)
    requires q != d.property
    ensures var r := Update(st, d, sourceName, source, sha1, now, user);
      && ValueOf(r.values, q) == ValueOf(st.values, q)
      && Get(r.sourceLog, q) == Get(st.sourceLog, q)
      && Get(r.hashLog, q) == Get(st.hashLog, q)
  {
    var nv := d.valueFunction(st.values, source);
    UpdateWithSpec(st, d, sourceName, source.None?, nv, sha1, now, user);
    UpdatedRecordsSetting(st.sourceLog, d.property, sourceName, now, user);
  }

  // ---------------------------------------------------------------------------
  // UpdateProfile

  /** UpdateProfile's pass over the cache: every entry of the requested kind, in cache order. */
  function UpdateAll<S>(st: Snapshot, entries: Dict<PropertyDetails<S>>, isSecondaryUpdate: bool, sourceName: string, source: Option<S>,
                        sha1: string -> Digest, now: Dates.DateTime, user: string): Snapshot
    decreases |entries|
  {
    if |entries| == 0 then st
    else
      var st1 := if entries[0].1.runInSecondaryUpdate == isSecondaryUpdate then Update(st, entries[0].1, sourceName, source, sha1, now, user) else st;
      UpdateAll(st1, entries[1..], isSecondaryUpdate, sourceName, source, sha1, now, user)
  }

  /** The properties UpdateProfile visits. */
  predicate Visits<S>(entries: Dict<PropertyDetails<S>>, isSecondaryUpdate: bool, q: string) {
    exists i :: 0 <= i < |entries| && entries[i].1.runInSecondaryUpdate == isSecondaryUpdate && entries[i].1.property == q
  }

  /** A property the pass does not visit keeps its value, its log entry and its hash. */
  lemma {:induction false} UpdateAllOthersUnchanged<S>(st: Snapshot, entries: Dict<PropertyDetails<S>>, isSecondaryUpdate: bool,
                                                        sourceName: string, source: Option<S>,
                                                        sha1: string -> Digest, now: Dates.DateTime, user: string, q: string)
    requires !Visits(entries, isSecondaryUpdate, q)
    ensures var r := UpdateAll(st, entries, isSecondaryUpdate, sourceName, source, sha1, now, user);
      && ValueOf(r.values, q) == ValueOf(st.values, q)
      && Get(r.sourceLog, q) == Get(st.sourceLog, q)
      && Get(r.hashLog, q) == Get(st.hashLog, q)
    decreases |entries|
  {
    if |entries| > 0 {
      var st1 := if entries[0].1.runInSecondaryUpdate == isSecondaryUpdate then Update(st, entries[0].1, sourceName, source, sha1, now, user) else st;
      if entries[0].1.runInSecondaryUpdate == isSecondaryUpdate {
        assert entries[0].1.property != q;
        UpdateOthersUnchanged(st, entries[0].1, sourceName, source, sha1, now, user, q);
      }
      assert !Visits(entries[1..], isSecondaryUpdate, q) by {
        forall i | 0 <= i < |entries[1..]| && entries[1..][i].1.runInSecondaryUpdate == isSecondaryUpdate
          ensures entries[1..][i].1.property != q
        {
          assert entries[1..][i] == entries[i + 1];
        }
      }
      UpdateAllOthersUnchanged(st1, entries[1..], isSecondaryUpdate, sourceName, source, sha1, now, user, q);
    }
  }

  /**
   * The delayed mappings run in the secondary update, and none of them was
   * registered for a null source: a secondary update with a null source
   * changes nothing.
   */
  lemma {:induction false} SecondaryNullSourceNoop<S>(st: Snapshot, entries: Dict<PropertyDetails<S>>, sourceName: string,
                                                      sha1: string -> Digest, now: Dates.DateTime, user: string)
    requires forall i :: 0 <= i < |entries| && entries[i].1.runInSecondaryUpdate ==> !entries[i].1.updateForNullSource
    ensures UpdateAll(st, entries, true, sourceName, None, sha1, now, user) == st
    decreases |entries|
  {
    if |entries| > 0 {
      assert forall i :: 0 <= i < |entries[1..]| ==> entries[1..][i] == entries[i + 1];
      SecondaryNullSourceNoop(st, entries[1..], sourceName, sha1, now, user);
    }
  }

  // ---------------------------------------------------------------------------
  // The loader

  class ProfileDataLoader<S> {
    const sourceName: string
    /** The source attributes each property of the profile class declares, in declaration order. */
    const propertySources: map<string, seq<SourceAttribute>>
    var mappings: seq<Mapping<S>>
    var nullableMappings: seq<Mapping<S>>
    var delayedMappings: seq<Mapping<S>>
    var delayedNullableMappings: seq<Mapping<S>>
    /** PropertyCache: None until it is built; afterwards complete. */
    var propertyCache: Option<Dict<PropertyDetails<S>>>

    constructor(sourceName: string, propertySources: map<string, seq<SourceAttribute>>)
      ensures this.sourceName == sourceName && this.propertySources == propertySources
      ensures mappings == [] && nullableMappings == [] && delayedMappings == [] && delayedNullableMappings == []
      ensures propertyCache == None
    {
      this.sourceName := sourceName;
      this.propertySources := propertySources;
      mappings := [];
      nullableMappings := [];
      delayedMappings := [];
      delayedNullableMappings := [];
      propertyCache := None;
    }

    /** The cache the current mappings give. */
    function Cache(): Result<Dict<PropertyDetails<S>>, string>
      reads this
    {
      CachedDetails(propertySources, sourceName, mappings, nullableMappings, delayedMappings, delayedNullableMappings)
    }

    /** One mapping dictionary's loop of UpdateCachedDetails. */
    static method AddAllDetails(pc: Dict<PropertyDetails<S>>, ms: seq<Mapping<S>>, sources: map<string, seq<SourceAttribute>>,
                                sourceName: string, nullable: bool, delayed: bool) returns (r: Result<Dict<PropertyDetails<S>>, string>)
      ensures r == AddDetails(pc, ms, sources, sourceName, nullable, delayed)
    {
      var cur := pc;
      var i := 0;
      while i < |ms|
        invariant 0 <= i <= |ms|
        invariant AddDetails(pc, ms, sources, sourceName, nullable, delayed) == AddDetails(cur, ms[i..], sources, sourceName, nullable, delayed)
      {
        assert ms[i..][0] == ms[i] && ms[i..][1..] == ms[i + 1..];
        var d := NewDetails(ms[i], AttributesOf(sources, ms[i].property), sourceName, nullable, delayed);
        if d.isValid {
          var added := Add(cur, d.property, d);
          if added.Failure? {
            return Failure(added.error);
          }
          cur := added.value;
        }
        i := i + 1;
      }
      return Success(cur);
    }

    /** UpdateCachedDetails: the cache is replaced only once it is complete; a duplicate property fails it. */
    method UpdateCachedDetails() returns (ok: bool)
      modifies this
      ensures ok <==> old(Cache()).Success?
      ensures ok ==> propertyCache == Some(old(Cache()).value)
      ensures !ok ==> propertyCache == old(propertyCache)
      ensures mappings == old(mappings) && nullableMappings == old(nullableMappings)
      ensures delayedMappings == old(delayedMappings) && delayedNullableMappings == old(delayedNullableMappings)
    {
      var r := AddAllDetails([], mappings, propertySources, sourceName, false, false);
      if r.Failure? { return false; }
      r := AddAllDetails(r.value, nullableMappings, propertySources, sourceName, true, false);
      if r.Failure? { return false; }
      r := AddAllDetails(r.value, delayedMappings, propertySources, sourceName, false, true);
      if r.Failure? { return false; }
      r := AddAllDetails(r.value, delayedNullableMappings, propertySources, sourceName, false, true);
      if r.Failure? { return false; }
      propertyCache := Some(r.value);
      return true;
    }

    /**
     * UpdateProperty: applies the merge rule for one cached property. The
     * time and the user SetUpdated records, and the SHA-1 digest, are the
     * caller's.
     */
    method UpdateProperty(profile: Profile, source: Option<S>, d: PropertyDetails<S>,
                          sha1: string -> Digest, now: Dates.DateTime, user: string)
      requires profile.Valid() && Dates.Valid(now)
      modifies profile
      ensures profile.Valid()
      ensures profile.Snap() == Update(old(profile.Snap()), d, sourceName, source, sha1, now, user)
      ensures profile.store == old(profile.store) && profile.lanId == old(profile.lanId)
    {
      if !d.isValid {
        return;
      }
      if source.None? && !d.updateForNullSource {
        return;
      }
      var currentsource := CurrentSource(profile.sourceLog, d.property);
      if !d.raisePriorityOnChange && Outranked(currentsource, d.betterSources) {
        return;
      }
      var currentvalue := ValueOf(profile.values, d.property);
      var newvalue := d.valueFunction(profile.values, source);
      if d.raisePriorityOnChange && AsString(newvalue).Some? {
        var changed := profile.ImportedPropertyChanged(d.property, AsString(newvalue), sha1);
        if !changed && Outranked(currentsource, d.betterSources) {
          return;
        }
      }
      if !d.useIfNull && IsNullOrEmptyText(newvalue) {
        return;
      }
      if SameValue(currentvalue, newvalue) {
        return;
      }
      profile.values := profile.values[d.property := newvalue];
      profile.SetUpdated(d.property, sourceName, now, user);
    }

    /**
     * UpdateProfile: builds the cache on first use (an exception there
     * propagates and leaves the cache unset), then updates every cached
     * property whose kind matches the pass.
     */
    method UpdateProfile(profile: Profile, source: Option<S>, isSecondaryUpdate: bool,
                         sha1: string -> Digest, now: Dates.DateTime, user: string) returns (ok: bool)
      requires profile.Valid() && Dates.Valid(now)
      modifies this, profile
      ensures profile.Valid()
      ensures old(propertyCache).Some? ==> ok && propertyCache == old(propertyCache)
      ensures old(propertyCache).None? ==> (ok <==> old(Cache()).Success?)
      ensures ok ==> propertyCache.Some? && (old(propertyCache).None? ==> propertyCache == Some(old(Cache()).value))
      ensures ok ==> profile.Snap() == UpdateAll(old(profile.Snap()), propertyCache.value, isSecondaryUpdate, sourceName, source, sha1, now, user)
      ensures !ok ==> propertyCache == old(propertyCache) && profile.Snap() == old(profile.Snap())
      ensures profile.store == old(profile.store) && profile.lanId == old(profile.lanId)
      ensures mappings == old(mappings) && nullableMappings == old(nullableMappings)
      ensures delayedMappings == old(delayedMappings) && delayedNullableMappings == old(delayedNullableMappings)
    {
      if propertyCache.None? {
        var built := UpdateCachedDetails();
        if !built {
          return false;
        }
      }
      var entries := propertyCache.value;
      ghost var st0 := profile.Snap();
      var i := 0;
      while i < |entries|
        invariant 0 <= i <= |entries|
        invariant profile.Valid()
        invariant propertyCache == Some(entries)
        invariant profile.store == old(profile.store) && profile.lanId == old(profile.lanId)
        invariant mappings == old(mappings) && nullableMappings == old(nullableMappings)
        invariant delayedMappings == old(delayedMappings) && delayedNullableMappings == old(delayedNullableMappings)
        invariant UpdateAll(st0, entries, isSecondaryUpdate, sourceName, source, sha1, now, user)
          == UpdateAll(profile.Snap(), entries[i..], isSecondaryUpdate, sourceName, source, sha1, now, user)
      {
        assert entries[i..][0] == entries[i] && entries[i..][1..] == entries[i + 1..];
        if entries[i].1.runInSecondaryUpdate == isSecondaryUpdate {
          UpdateProperty(profile, source, entries[i].1, sha1, now, user);
        }
        i := i + 1;
      }
      return true;
    }
  }
}
