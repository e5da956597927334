/**
 * The attributes that declare a SharePoint list and its fields on the
 * classes and properties of a list definition, and how each fills in the
 * settings left unset from the name and type it is attached to. An unset
 * (null) string and an empty one are both the empty string here.
 */
module Attributes {
  import opened Wrappers
  import Text
  import opened ListDefinitions

  /** The SharePoint field types the defaults can choose, and any other one named. */
  datatype FieldType = Invalid | TextField | Number | Choice | MultiChoice | DateTime | Boolean | OtherField(name: string)

  /** The .NET type of a property, as far as the defaults tell types apart. */
  datatype PropertyType =
    | StringType | IntType | DoubleType | UriType
    | StringList | StringArray
    | DateTimeType | NullableDateTime
    | EnumType(members: seq<EnumMember>)
    | BoolType
    | OtherType(name: string)

  datatype PropertyInfo = PropertyInfo(name: string, propertyType: PropertyType)

  /** The settings of a FieldAttribute that filling in defaults reads or writes. */
  datatype FieldSettings = FieldSettings(
    displayName: string,
    internalName: string,
    fieldType: FieldType,
    choices: Option<seq<string>>,
    allowFillInChoices: bool,
    autoMap: bool)

  /** The field type a property of this type gets when none was given. */
  function DefaultFieldType(t: PropertyType): (r: FieldType)
    ensures r == Invalid <==> t.OtherType?
    ensures r == Choice <==> t.StringList? || t.StringArray? || t.EnumType?
    ensures r == TextField <==> t.StringType? || t.UriType?
    ensures r == Number <==> t.IntType? || t.DoubleType?
    ensures r == DateTime <==> t.DateTimeType? || t.NullableDateTime?
    ensures r == Boolean <==> t.BoolType?
  {
    match t
    case StringType => TextField
    case IntType => Number
    case DoubleType => Number
    case UriType => TextField
    case StringList => Choice
    case StringArray => Choice
    case DateTimeType => DateTime
    case NullableDateTime => DateTime
    case EnumType(_) => Choice
    case BoolType => Boolean
    case OtherType(_) => Invalid
  }

  /** The choices offered for an enum: each member's display text, in order. */
  function EnumChoices(members: seq<EnumMember>): (r: seq<string>)
    ensures |r| == |members|
    ensures forall k :: 0 <= k < |members| ==> r[k] == DisplayEnumValue(members[k])
  {
    seq(|members|, k requires 0 <= k < |members| => DisplayEnumValue(members[k]))
  }

  /** The settings after FieldAttribute.UpdateWithDefaults(p). */
  function FieldDefaults(s: FieldSettings, p: PropertyInfo): FieldSettings {
    var displayName := if s.displayName == "" then Text.Replace(p.name, '_', ' ') else s.displayName;
    var internalName := if s.internalName == "" then p.name else s.internalName;
    var fieldType := if s.fieldType == Invalid then DefaultFieldType(p.propertyType) else s.fieldType;
    var allowFillIn := if s.fieldType == Invalid && p.propertyType.EnumType? then false else s.allowFillInChoices;
    var choices :=
      if (fieldType == Choice || fieldType == MultiChoice) && p.propertyType.EnumType?
      then Some(EnumChoices(p.propertyType.members))
      else s.choices;
    FieldSettings(displayName, internalName, fieldType, choices, allowFillIn, s.autoMap)
  }

  /** A setting given explicitly is kept; only unset ones are filled in. */
  lemma FieldDefaultsKeepExplicit(s: FieldSettings, p: PropertyInfo)
    ensures s.displayName != "" ==> FieldDefaults(s, p).displayName == s.displayName
    ensures s.internalName != "" ==> FieldDefaults(s, p).internalName == s.internalName
    ensures s.fieldType != Invalid ==> FieldDefaults(s, p).fieldType == s.fieldType
    ensures s.fieldType != Invalid ==> FieldDefaults(s, p).allowFillInChoices == s.allowFillInChoices
    ensures !p.propertyType.EnumType? ==> FieldDefaults(s, p).choices == s.choices
    ensures FieldDefaults(s, p).autoMap == s.autoMap
  {
  }

  /**
   * The defaults of an unnamed, untyped field: the internal name is the
   * property name and the display name is it with '_' as ' ', which turns
   * back into the internal name when the property name holds no space.
   */
  lemma FieldDefaultNames(s: FieldSettings, p: PropertyInfo)
    requires s.displayName == "" && s.internalName == "" && ' ' !in p.name
    ensures FieldDefaults(s, p).internalName == p.name
    ensures Text.Replace(FieldDefaults(s, p).displayName, ' ', '_') == p.name
  {
    Text.ReplaceRoundTrip(p.name, '_', ' ');
  }

  /**
   * A Choice or MultiChoice field on an enum property offers the members'
   * display texts, and each offered text of a member without a choice name
   * parses back to that member.
   */
  lemma EnumFieldChoicesParse(s: FieldSettings, p: PropertyInfo, k: nat)
    requires p.propertyType.EnumType? && (s.fieldType == Invalid || s.fieldType == Choice || s.fieldType == MultiChoice)
    requires var members := p.propertyType.members;
      k < |members| && NamesDistinctIgnoringCase(members) &&
      members[k].choice.None? && members[k].name != "" && ' ' !in members[k].name
    ensures var r := FieldDefaults(s, p);
      r.choices.Some? && |r.choices.value| == |p.propertyType.members| &&
      ParseEnum(p.propertyType.members, r.choices.value[k]) == Some(p.propertyType.members[k])
  {
    DisplayParseRoundTrip(p.propertyType.members, k);
  }

  /** Filling in defaults a second time changes nothing. */
  lemma FieldDefaultsIdempotent(s: FieldSettings, p: PropertyInfo)
    ensures FieldDefaults(FieldDefaults(s, p), p) == FieldDefaults(s, p)
  {
    var once := FieldDefaults(s, p);
    if s.displayName == "" && p.name == "" {
      assert Text.Replace(p.name, '_', ' ') == "";
    }
  }

  /** FieldAttribute: the settings of one property's field. */
  class FieldAttribute {
    var displayName: string
    var internalName: string
    var fieldType: FieldType
    var choices: Option<seq<string>>
    var allowFillInChoices: bool
    var autoMap: bool

    function Settings(): FieldSettings
      reads this
    {
      FieldSettings(displayName, internalName, fieldType, choices, allowFillInChoices, autoMap)
    }

    /** A new attribute maps automatically and has nothing else set. */
    constructor ()
      ensures Settings() == FieldSettings("", "", Invalid, None, false, true)
    {
      displayName := "";
      internalName := "";
      fieldType := Invalid;
      choices := None;
      allowFillInChoices := false;
      autoMap := true;
    }

    /** Sets the settings left unset from the property's name and type. */
    method UpdateWithDefaults(p: PropertyInfo)
      modifies this
      ensures Settings() == FieldDefaults(old(Settings()), p)
    {
      if displayName == "" {
        displayName := Text.Replace(p.name, '_', ' ');
      }
      if internalName == "" {
        internalName := p.name;
      }
      if fieldType == Invalid {
        fieldType := DefaultFieldType(p.propertyType);
        if p.propertyType.EnumType? {
          allowFillInChoices := false;
        }
      }
      if (fieldType == Choice || fieldType == MultiChoice) && p.propertyType.EnumType? {
        choices := Some(EnumChoices(p.propertyType.members));
      }
    }
  }

  /** The list templates; a list attribute starts as a generic list. */
  datatype ListTemplateType = GenericList | OtherTemplate(name: string)

  /** The settings of a ListAttribute. */
  datatype ListSettings = ListSettings(
    displayName: string,
    description: string,
    siteRelativeWebUrl: string,
    listType: ListTemplateType,
    webRelativeUrl: string)

  const ListsFolder := "Lists/"

  /** The settings after ListAttribute.UpdateWithDefaults for a class named typeName. */
  function ListDefaults(s: ListSettings, typeName: string): (r: ListSettings)
    ensures r.webRelativeUrl != ""
    ensures typeName != "" ==> r.displayName != ""
    ensures s.displayName != "" ==> r.displayName == s.displayName
    ensures s.webRelativeUrl != "" ==> r.webRelativeUrl == s.webRelativeUrl
    ensures s.webRelativeUrl == "" ==> |r.webRelativeUrl| >= |ListsFolder| &&
                                       r.webRelativeUrl[..|ListsFolder|] == ListsFolder && r.webRelativeUrl[|ListsFolder|..] == typeName
    ensures r.description == s.description && r.siteRelativeWebUrl == s.siteRelativeWebUrl && r.listType == s.listType
  {
    s.(displayName := if s.displayName == "" then typeName else s.displayName,
       webRelativeUrl := if s.webRelativeUrl == "" then ListsFolder + typeName else s.webRelativeUrl)
  }

  /** Filling in a list's defaults a second time changes nothing. */
  lemma ListDefaultsIdempotent(s: ListSettings, typeName: string)
    ensures ListDefaults(ListDefaults(s, typeName), typeName) == ListDefaults(s, typeName)
  {
  }

  /** ListAttribute: the settings of a list definition class's list. */
  class ListAttribute {
    var displayName: string
    var description: string
    var siteRelativeWebUrl: string
    var listType: ListTemplateType
    var webRelativeUrl: string

    function Settings(): ListSettings
      reads this
    {
      ListSettings(displayName, description, siteRelativeWebUrl, listType, webRelativeUrl)
    }

    /** A new list attribute declares a generic list and nothing else. */
    constructor ()
      ensures Settings() == ListSettings("", "", "", GenericList, "")
    {
      displayName := "";
      description := "";
      siteRelativeWebUrl := "";
      listType := GenericList;
      webRelativeUrl := "";
    }

    /** Names the list after the class and places it under Lists/ unless set. */
    method UpdateWithDefaults(typeName: string)
      modifies this
      ensures Settings() == ListDefaults(old(Settings()), typeName)
    {
      if displayName == "" {
        displayName := typeName;
      }
      if webRelativeUrl == "" {
        webRelativeUrl := ListsFolder + typeName;
      }
    }
  }
}
