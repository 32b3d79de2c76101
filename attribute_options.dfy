/**
 * The attribute option handlers (src/adapters/AttributeOptions.php): for
 * each element class, which attributes it answers for and how. Text
 * attributes and dates only classify; an asset's kind lists the file
 * kinds; an entry's author lists one page of 50 users who may edit
 * entries.
 */
module AttributeOptions {
  import opened Optional
  import opened PhpValues
  import opened OptionEvents

  const AssetClass := "craft\\elements\\Asset"
  const CategoryClass := "craft\\elements\\Category"
  const EntryClass := "craft\\elements\\Entry"
  const TagClass := "craft\\elements\\Tag"
  const UserClass := "craft\\elements\\User"

  /** What the handlers look up: the file kinds as (kind, label), and the users who may edit entries, in query order. */
  datatype AttributeSite = AttributeSite(fileKinds: seq<(string, string)>, authors: seq<Item>)

  /** How an attribute is answered. */
  datatype Answer = TextAttribute | DateAttribute | FileKindAttribute | AuthorAttribute

  /** The `switch` of each element class's handler; no answer for other classes and attributes. */
  function AnswerFor(elementType: string, attribute: Option<string>): (r: Option<Answer>)
    ensures r.Some? ==> attribute.Some?
    ensures r == Some(FileKindAttribute) <==> elementType == AssetClass && attribute == Some("kind")
    ensures r == Some(AuthorAttribute) <==> elementType == EntryClass && attribute == Some("author")
    ensures r == Some(DateAttribute) <==> elementType == EntryClass && attribute in {Some("postDate"), Some("expiryDate")}
  {
    if attribute.None? then None
    else
      var a := attribute.value;
      if elementType == AssetClass then
        (if a == "title" || a == "filename" then Some(TextAttribute) else if a == "kind" then Some(FileKindAttribute) else None)
      else if elementType == CategoryClass || elementType == TagClass then
        (if a == "title" then Some(TextAttribute) else None)
      else if elementType == EntryClass then
        (if a == "title" || a == "slug" then Some(TextAttribute)
         else if a == "author" then Some(AuthorAttribute)
         else if a == "postDate" || a == "expiryDate" then Some(DateAttribute)
         else None)
      else if elementType == UserClass then
        (if a in {"username", "firstName", "lastName", "email"} then Some(TextAttribute) else None)
      else None
  }

  /** The file kinds as options: the kind's key as the label and its label as the value. */
  function KindEntries(kinds: seq<(string, string)>): (r: seq<OptionEntry>)
    ensures |r| == |kinds|
    ensures forall k :: 0 <= k < |kinds| ==> r[k] == OptionEntry(Str(kinds[k].1), kinds[k].0)
  {
    seq(|kinds|, k requires 0 <= k < |kinds| => OptionEntry(Str(kinds[k].1), kinds[k].0))
  }

  /** The event a new "get attribute options" event becomes once the element class's handler ran. */
  function AttributeOptionsState(elementType: string, attribute: Option<string>, site: AttributeSite, hint: Value): (s: OptionsState)
    ensures s.handled <==> AnswerFor(elementType, attribute).Some?
    ensures AnswerFor(elementType, attribute) == Some(TextAttribute) ==> s.kind == Some("string") && s.total == 0
    ensures AnswerFor(elementType, attribute) == Some(DateAttribute) ==> s.kind == Some("date") && s.total == 0
    ensures AnswerFor(elementType, attribute) == Some(FileKindAttribute) ==>
      s.kind == Some("multiple") && s.total == 0 && s.options == Listed(KindEntries(site.fileKinds))
    ensures AnswerFor(elementType, attribute) == Some(AuthorAttribute) ==> s == PagedState("multiple", site.authors, hint)
  {
    match AnswerFor(elementType, attribute)
    case None => Fresh
    case Some(TextAttribute) => OptionsState(true, Some("string"), false, Listed([]), 0)
    case Some(DateAttribute) => OptionsState(true, Some("date"), false, Listed([]), 0)
    case Some(FileKindAttribute) => OptionsState(true, Some("multiple"), false, Listed(KindEntries(site.fileKinds)), 0)
    case Some(AuthorAttribute) => PagedState("multiple", site.authors, hint)
  }

  /** The attributes each element class answers for, and no others. */
  lemma HandledAttributes(elementType: string, a: string)
    ensures AnswerFor(elementType, Some(a)).Some? <==>
      || (elementType == AssetClass && a in {"title", "filename", "kind"})
      || (elementType == CategoryClass && a == "title")
      || (elementType == EntryClass && a in {"title", "author", "slug", "postDate", "expiryDate"})
      || (elementType == TagClass && a == "title")
      || (elementType == UserClass && a in {"username", "firstName", "lastName", "email"})
  {
  }

  /** `handleStringAttribute`. */
  method HandleStringAttribute(e: OptionsEvent)
    requires e.State() == Fresh
    modifies e
    ensures e.State() == OptionsState(true, Some("string"), false, Listed([]), 0)
  {
    e.handled := true;
    e.kind := Some("string");
    e.total := 0;
  }

  /** `handleDateAttribute`. */
  method HandleDateAttribute(e: OptionsEvent)
    requires e.State() == Fresh
    modifies e
    ensures e.State() == OptionsState(true, Some("date"), false, Listed([]), 0)
  {
    e.handled := true;
    e.kind := Some("date");
    e.total := 0;
  }

  /** `handleFileKindAttribute`: one option per file kind, in order; the total stays 0. */
  method HandleFileKindAttribute(e: OptionsEvent, kinds: seq<(string, string)>)
    requires e.State() == Fresh
    modifies e
    ensures e.State() == OptionsState(true, Some("multiple"), false, Listed(KindEntries(kinds)), 0)
  {
    e.handled := true;
    e.kind := Some("multiple");
    var k := 0;
    while k < |kinds|
      invariant 0 <= k <= |kinds|
      invariant e.State() == OptionsState(true, Some("multiple"), false, Listed(KindEntries(kinds[..k])), 0)
    {
      assert KindEntries(kinds[..k + 1]) == KindEntries(kinds[..k]) + [OptionEntry(Str(kinds[k].1), kinds[k].0)];
      e.options := Listed(e.options.entries + [OptionEntry(Str(kinds[k].1), kinds[k].0)]);
      k := k + 1;
    }
    assert kinds[..k] == kinds;
    e.total := 0;
  }

  /** `handleAuthorAttribute`: a page of the users who may edit entries, by full name. */
  method HandleAuthorAttribute(e: OptionsEvent, authors: seq<Item>)
    requires e.State() == Fresh
    modifies e
    ensures e.State() == PagedState("multiple", authors, e.hint)
  {
    ListPage(e, "multiple", authors);
  }

  /** `Event::trigger($elementType, EVENT_RELIQUARY_GET_ATTRIBUTE_OPTIONS, $event)`: the handler bound to the element class. */
  method GetAttributeOptions(e: OptionsEvent, elementType: string, attribute: Option<string>, site: AttributeSite)
    requires e.State() == Fresh
    modifies e
    ensures e.State() == AttributeOptionsState(elementType, attribute, site, e.hint)
  {
    match AnswerFor(elementType, attribute)
    case None =>
    case Some(TextAttribute) => HandleStringAttribute(e);
    case Some(DateAttribute) => HandleDateAttribute(e);
    case Some(FileKindAttribute) => HandleFileKindAttribute(e, site.fileKinds);
    case Some(AuthorAttribute) => HandleAuthorAttribute(e, site.authors);
  }
}
