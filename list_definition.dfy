/**
 * The conversions between list item text and the typed properties of a list
 * definition: enum members shown by their choice name or by their name with
 * underscores as spaces, parsed back from either, and multi-choice values
 * separated by ";#".
 */
module ListDefinitions {
  import opened Wrappers
  import Text

  /**
   * A member of an enum: its name, the display name of its ChoiceAttribute,
   * if it has one, and its value. An enum is the table of its members in
   * declaration order.
   */
  datatype EnumMember = EnumMember(name: string, choice: Option<string>, value: int)

  /** DisplayEnumValue: the choice name if there is one, else the name with '_' shown as ' '. */
  function DisplayEnumValue(m: EnumMember): (r: string)
    ensures m.choice.Some? ==> r == m.choice.value
    ensures m.choice.None? ==> r == Text.Replace(m.name, '_', ' ')
  {
    if m.choice.Some? then m.choice.value else Text.Replace(m.name, '_', ' ')
  }

  /** Enum.IsDefined(t, name): some member has exactly this name. */
  predicate IsDefined(members: seq<EnumMember>, name: string) {
    exists i :: 0 <= i < |members| && members[i].name == name
  }

  /** Enum.Parse(t, name, ignoreCase: true): the first member whose name equals it ignoring case. */
  function ParseName(members: seq<EnumMember>, name: string): (r: Option<EnumMember>)
    ensures r.None? <==> forall i :: 0 <= i < |members| ==> !Text.EqualsIgnoreCase(members[i].name, name)
    ensures r.Some? ==> (exists i :: 0 <= i < |members| && members[i] == r.value && Text.EqualsIgnoreCase(r.value.name, name) &&
                                     (forall j :: 0 <= j < i ==> !Text.EqualsIgnoreCase(members[j].name, name)))
  {
    if |members| == 0 then None
    else if Text.EqualsIgnoreCase(members[0].name, name) then Some(members[0])
    else
      var r := ParseName(members[1..], name);
      assert forall i :: 0 < i < |members| ==> members[i] == members[1..][i - 1];
      r
  }

  /** The first member whose choice name equals the text ignoring case. */
  function ParseChoice(members: seq<EnumMember>, val: string): (r: Option<EnumMember>)
    ensures r.None? <==> forall i :: 0 <= i < |members| ==> !(members[i].choice.Some? && Text.EqualsIgnoreCase(members[i].choice.value, val))
    ensures r.Some? ==> (exists i :: 0 <= i < |members| && members[i] == r.value &&
                                     r.value.choice.Some? && Text.EqualsIgnoreCase(r.value.choice.value, val) &&
                                     (forall j :: 0 <= j < i ==> !(members[j].choice.Some? && Text.EqualsIgnoreCase(members[j].choice.value, val))))
  {
    if |members| == 0 then None
    else if members[0].choice.Some? && Text.EqualsIgnoreCase(members[0].choice.value, val) then Some(members[0])
    else
      var r := ParseChoice(members[1..], val);
      assert forall i :: 0 < i < |members| ==> members[i] == members[1..][i - 1];
      r
  }

  /**
   * ParseEnum: null for null or empty text; the member named by the text with
   * spaces as underscores, if there is one; otherwise the first member whose
   * choice name matches, or null.
   */
  function ParseEnum(members: seq<EnumMember>, val: string): (r: Option<EnumMember>)
    ensures val == "" ==> r.None?
    ensures val != "" && IsDefined(members, Text.Replace(val, ' ', '_')) ==> r == ParseName(members, Text.Replace(val, ' ', '_')) && r.Some?
    ensures val != "" && !IsDefined(members, Text.Replace(val, ' ', '_')) ==> r == ParseChoice(members, val)
  {
    if val == "" then None
    else
      var name := Text.Replace(val, ' ', '_');
      if IsDefined(members, name) then ParseName(members, name) else ParseChoice(members, val)
  }

  /** No two members' names differ only by case. */
  predicate NamesDistinctIgnoringCase(members: seq<EnumMember>) {
    forall i, j :: 0 <= i < j < |members| ==> !Text.EqualsIgnoreCase(members[i].name, members[j].name)
  }

  /**
   * A member without a choice name is parsed back from its display text,
   * when no two member names differ only by case (a member name, an
   * identifier, holds no space and is not empty).
   */
  lemma DisplayParseRoundTrip(members: seq<EnumMember>, k: nat)
    requires k < |members| && NamesDistinctIgnoringCase(members)
    requires members[k].choice.None? && members[k].name != "" && ' ' !in members[k].name
    ensures ParseEnum(members, DisplayEnumValue(members[k])) == Some(members[k])
  {
    var m := members[k];
    var shown := DisplayEnumValue(m);
    Text.ReplaceRoundTrip(m.name, '_', ' ');
    assert Text.Replace(shown, ' ', '_') == m.name;
    assert IsDefined(members, m.name);
    var r := ParseName(members, m.name);
    assert Text.EqualsIgnoreCase(members[k].name, m.name);
    var i :| 0 <= i < |members| && members[i] == r.value && Text.EqualsIgnoreCase(r.value.name, m.name);
    assert i == k;
  }

  /** The multi-choice split: String.Split on ";#" with empty pieces removed. */
  function SplitMultiChoice(v: string): (r: seq<string>)
    ensures forall i :: 0 <= i < |r| ==> r[i] != ""
  {
    Text.RemoveEmpty(Text.SplitOn(v, Text.ChoiceSeparator))
  }

  /** The multi-choice join: String.Join(";#", choices). */
  function JoinMultiChoice(choices: seq<string>): string {
    Text.Join(choices, Text.ChoiceSeparator)
  }

  /** Splitting undoes joining for non-empty choices that hold no ";#". */
  lemma SplitJoinMultiChoice(choices: seq<string>)
    requires forall i :: 0 <= i < |choices| ==> choices[i] != "" && !Text.Contains(choices[i], Text.ChoiceSeparator)
    ensures SplitMultiChoice(JoinMultiChoice(choices)) == choices
  {
    if |choices| == 0 {
      assert Text.SplitOn("", Text.ChoiceSeparator) == [""];
      assert Text.RemoveEmpty([""]) == Text.RemoveEmpty([""][1..]);
    } else {
      Text.SplitOnJoin(choices);
      Text.RemoveEmptyNoop(choices);
    }
  }
}
