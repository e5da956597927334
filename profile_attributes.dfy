/**
 * The attributes a strongly typed profile class puts on its properties: where
 * a property is stored, which sources may set it and in which priority, and
 * which audiences its value feeds.
 */
module ProfileAttributes {
  import opened Wrappers

  datatype AudienceRuleType = Equal | NotEqual

  /**
   * An audience a property feeds. A filter that is null or empty is the empty
   * text here: every use of it tests string.IsNullOrEmpty.
   */
  datatype AudienceAttribute = AudienceAttribute(
    audienceName: string,
    ruleType: AudienceRuleType,
    filter: string,
    description: Option<string>,
    multiRuleOperator: string,
    updateRules: bool)

  /** new AudienceAttribute(name): rules are updated, joined with AND, compared with Equal. */
  function NewAudience(audienceName: string): (a: AudienceAttribute)
    ensures a.audienceName == audienceName && a.updateRules && a.multiRuleOperator == "AND"
    ensures a.ruleType == Equal && a.filter == "" && a.description.None?
  {
    AudienceAttribute(audienceName, Equal, "", None, "AND", true)
  }

  /** new AudienceAttribute(name, type, filter). */
  function NewFilteredAudience(audienceName: string, ruleType: AudienceRuleType, filter: string): (a: AudienceAttribute)
    ensures a == NewAudience(audienceName).(ruleType := ruleType, filter := filter)
  {
    AudienceAttribute(audienceName, ruleType, filter, None, "AND", true)
  }

  /** A source that may set a property; a lower order is a better source. */
  datatype SourceAttribute = SourceAttribute(
    order: int,
    profileSource: string,
    useIfEmpty: bool,
    raisePriorityIfChanged: bool)
}
