/**
 * The component manager: the web part, page and section definitions found
 * among the types of a component assembly, loaded once, offered by the tags
 * of the place they may go and looked up by ID.
 */
module Components {
  import opened Wrappers

  /** The three kinds of component definition. */
  datatype Kind = WebPart | Page | Section

  /**
   * A type of the component assembly: its full name (which is the ID of the
   * definition it declares), the definition base classes it derives from,
   * whether it is abstract and the filter tags its definition declares.
   */
  datatype ComponentType = ComponentType(fullName: string, bases: set<Kind>, isAbstract: bool, filterTags: seq<string>)

  /** A loaded definition: its ID and its filter tags. */
  datatype Definition = Definition(id: string, filterTags: seq<string>)

  /** A type yields a definition of this kind when it derives from its base and is not abstract. */
  predicate Declares(t: ComponentType, k: Kind) {
    k in t.bases && !t.isAbstract
  }

  function DefinitionOf(t: ComponentType): Definition {
    Definition(t.fullName, t.filterTags)
  }

  /** The definitions of kind k the types declare, in the order of the types. */
  function DefinitionsOf(types: seq<ComponentType>, k: Kind): (r: seq<Definition>)
    ensures |r| <= |types|
    ensures forall d :: d in r <==> exists t :: t in types && Declares(t, k) && DefinitionOf(t) == d
  {
    if |types| == 0 then []
    else
      var init := types[..|types| - 1];
      var last := types[|types| - 1];
      assert types == init + [last];
      if Declares(last, k) then DefinitionsOf(init, k) + [DefinitionOf(last)] else DefinitionsOf(init, k)
  }

  lemma DefinitionsOfSnoc(types: seq<ComponentType>, i: nat, k: Kind)
    requires i < |types|
    ensures Declares(types[i], k) ==> DefinitionsOf(types[..i + 1], k) == DefinitionsOf(types[..i], k) + [DefinitionOf(types[i])]
    ensures !Declares(types[i], k) ==> DefinitionsOf(types[..i + 1], k) == DefinitionsOf(types[..i], k)
  {
    assert types[..i + 1][..i] == types[..i];
  }

  /** tags.Intersect(filterTags).Any() */
  predicate SharesTag(tags: seq<string>, filterTags: seq<string>) {
    exists t :: t in tags && t in filterTags
  }

  /**
   * A definition is offered for the tags when it shares one of them, when no
   * tags are given or when it declares none, and only when its component
   * does not exist yet.
   */
  predicate Offered(d: Definition, tags: seq<string>, existing: set<string>) {
    (SharesTag(tags, d.filterTags) || |tags| == 0 || |d.filterTags| == 0) && d.id !in existing
  }

  /** The definitions offered for the tags, in their loaded order. */
  function ForTags(defs: seq<Definition>, tags: seq<string>, existing: set<string>): (r: seq<Definition>)
    ensures |r| <= |defs|
    ensures forall d :: d in r <==> d in defs && Offered(d, tags, existing)
  {
    if |defs| == 0 then []
    else (if Offered(defs[0], tags, existing) then [defs[0]] else []) + ForTags(defs[1..], tags, existing)
  }

  /** Filtering keeps order: the offered definitions of a concatenation are those of each part, in turn. */
  lemma {:induction false} ForTagsAppend(a: seq<Definition>, b: seq<Definition>, tags: seq<string>, existing: set<string>)
    ensures ForTags(a + b, tags, existing) == ForTags(a, tags, existing) + ForTags(b, tags, existing)
  {
    if |a| == 0 {
      assert a + b == b;
    } else {
      assert (a + b)[1..] == a[1..] + b;
      ForTagsAppend(a[1..], b, tags, existing);
    }
  }

  /** Without tags, every definition whose component does not exist is offered, in order. */
  lemma {:induction false} ForNoTags(defs: seq<Definition>, existing: set<string>)
    requires forall i :: 0 <= i < |defs| ==> defs[i].id !in existing
    ensures ForTags(defs, [], existing) == defs
  {
    if |defs| > 0 {
      ForNoTags(defs[1..], existing);
    }
  }

  /** FirstOrDefault over the definitions with this ID. */
  function FirstWithId(defs: seq<Definition>, id: string): (r: Option<Definition>)
    ensures r.None? <==> forall i :: 0 <= i < |defs| ==> defs[i].id != id
    ensures r.Some? ==> (exists i :: 0 <= i < |defs| && defs[i] == r.value && r.value.id == id &&
                                     (forall j :: 0 <= j < i ==> defs[j].id != id))
  {
    if |defs| == 0 then None
    else if defs[0].id == id then Some(defs[0])
    else
      var r := FirstWithId(defs[1..], id);
      assert forall i :: 0 < i < |defs| ==> defs[i] == defs[1..][i - 1];
      r
  }

  /** Every type that declares a definition of kind k is found by its full name. */
  lemma FindsDeclaredType(types: seq<ComponentType>, k: Kind, i: nat)
    requires i < |types| && Declares(types[i], k)
    ensures FirstWithId(DefinitionsOf(types, k), types[i].fullName).Some?
    ensures FirstWithId(DefinitionsOf(types, k), types[i].fullName).value.id == types[i].fullName
  {
    var defs := DefinitionsOf(types, k);
    assert DefinitionOf(types[i]) in defs;
  }

  /**
   * The three definition lists, loaded from the component assembly's types
   * the first time any of them is needed (the source keeps them in static
   * properties; one manager object stands for them here).
   */
  class ComponentManager {
    var webParts: Option<seq<Definition>>
    var pages: Option<seq<Definition>>
    var sections: Option<seq<Definition>>

    /** A new manager has loaded nothing. */
    constructor ()
      ensures webParts.None? && pages.None? && sections.None?
    {
      webParts := None;
      pages := None;
      sections := None;
    }

    predicate Loaded()
      reads this
    {
      webParts.Some? && pages.Some? && sections.Some?
    }

    function Definitions(k: Kind): Option<seq<Definition>>
      reads this
    {
      match k
      case WebPart => webParts
      case Page => pages
      case Section => sections
    }

    /**
     * Loads all three lists from the types unless all three are loaded: a
     * manager loads once, and later calls with other types change nothing.
     */
    method EnsureItemsLoaded(types: seq<ComponentType>)
      modifies this
      ensures Loaded()
      ensures old(Loaded()) ==> webParts == old(webParts) && pages == old(pages) && sections == old(sections)
      ensures !old(Loaded()) ==> forall k :: Definitions(k) == Some(DefinitionsOf(types, k))
    {
      if !Loaded() {
        webParts := Some([]);
        pages := Some([]);
        sections := Some([]);
        var i := 0;
        while i < |types|
          invariant 0 <= i <= |types|
          invariant webParts == Some(DefinitionsOf(types[..i], WebPart))
          invariant pages == Some(DefinitionsOf(types[..i], Page))
          invariant sections == Some(DefinitionsOf(types[..i], Section))
        {
          var t := types[i];
          DefinitionsOfSnoc(types, i, WebPart);
          DefinitionsOfSnoc(types, i, Page);
          DefinitionsOfSnoc(types, i, Section);
          if Declares(t, WebPart) {
            webParts := Some(webParts.value + [DefinitionOf(t)]);
          }
          if Declares(t, Page) {
            pages := Some(pages.value + [DefinitionOf(t)]);
          }
          if Declares(t, Section) {
            sections := Some(sections.value + [DefinitionOf(t)]);
          }
          i := i + 1;
        }
        assert types[..i] == types;
      }
    }

    /** GetWebPartsForTags, GetPagesForTags and GetSectionsForTags. */
    method GetForTags(types: seq<ComponentType>, k: Kind, tags: seq<string>, existing: set<string>) returns (r: seq<Definition>)
      modifies this
      ensures Loaded()
      ensures old(Loaded()) ==> webParts == old(webParts) && pages == old(pages) && sections == old(sections)
      ensures !old(Loaded()) ==> forall k :: Definitions(k) == Some(DefinitionsOf(types, k))
      ensures r == ForTags(Definitions(k).value, tags, existing)
    {
      EnsureItemsLoaded(types);
      r := ForTags(Definitions(k).value, tags, existing);
    }

    /** GetWebPartDefinition, GetPageDefinition and GetSectionDefinition. */
    method GetDefinition(types: seq<ComponentType>, k: Kind, id: string) returns (r: Option<Definition>)
      modifies this
      ensures Loaded()
      ensures old(Loaded()) ==> webParts == old(webParts) && pages == old(pages) && sections == old(sections)
      ensures !old(Loaded()) ==> forall k :: Definitions(k) == Some(DefinitionsOf(types, k))
      ensures r == FirstWithId(Definitions(k).value, id)
    {
      EnsureItemsLoaded(types);
      r := FirstWithId(Definitions(k).value, id);
    }
  }
}
