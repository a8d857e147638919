/**
 * Adding the current date and time to a user's message before it goes to the
 * model. The date-time sentence is a parameter (`info`); the clock and the
 * time zone are not part of this model.
 */
module DatetimeContext {
  import opened Wrappers

  /** What separates the date-time sentence from a plain-text message. */
  const UserMessageMarker: string := "\n\nСообщение пользователя: "

  /** An element of a multimodal content list: a dict with string values, or anything else. */
  datatype Item = DictItem(fields: map<string, string>) | OtherItem

  /** The value under `"content"`: a string, a list, another value, or no value. */
  datatype Content = TextContent(text: string) | ListContent(items: seq<Item>) | OtherContent | NoContent

  /** A message dict of the Responses API input: `type`, `role` and `content`. */
  class ContentDict {
    var kind: Option<string>
    var role: Option<string>
    var content: Content

    constructor (kind: Option<string>, role: Option<string>, content: Content)
      ensures this.kind == kind && this.role == role && this.content == content
    {
      this.kind, this.role, this.content := kind, role, content;
    }
  }

  /** `enhance_user_content_with_datetime(user_text)` with the date-time sentence `info`:
      the sentence first, the user's text whole at the end. */
  function EnhanceUserContentWithDatetime(info: string, userText: string): (r: string)
    ensures |r| == |info| + |UserMessageMarker| + |userText|
    ensures r[..|info|] == info
    ensures r[|info|..|info| + |UserMessageMarker|] == UserMessageMarker
    ensures r[|info| + |UserMessageMarker|..] == userText
  {
    info + UserMessageMarker + userText
  }

  /** A list element that can carry the date-time sentence: a dict typed `input_text` or `text`. */
  predicate IsTextItem(item: Item) {
    item.DictItem? && "type" in item.fields && (item.fields["type"] == "input_text" || item.fields["type"] == "text")
  }

  /** The index of the first element that can carry text. */
  function FirstTextItem(items: seq<Item>): (r: Option<nat>)
    ensures r.Some? ==> r.value < |items| && IsTextItem(items[r.value])
    ensures r.Some? ==> forall k :: 0 <= k < r.value ==> !IsTextItem(items[k])
    ensures r.None? ==> forall k :: 0 <= k < |items| ==> !IsTextItem(items[k])
  {
    if items == [] then None
    else if IsTextItem(items[0]) then Some(0)
    else match FirstTextItem(items[1..])
      case None => None
      case Some(k) => Some(k + 1)
  }

  /** A text element with the date-time sentence and a blank line put before its text
      (an element with no `text` counts as empty). */
  function WithDatetime(item: Item, info: string): Item
    requires item.DictItem?
  {
    var previous := if "text" in item.fields then item.fields["text"] else "";
    DictItem(item.fields["text" := info + "\n\n" + previous])
  }

  /** The list after enrichment: the first text element changed, or a new `input_text`
      element holding `info` in front. */
  function EnhancedItems(items: seq<Item>, info: string): seq<Item> {
    match FirstTextItem(items)
    case Some(k) => items[k := WithDatetime(items[k], info)]
    case None => [DictItem(map["type" := "input_text", "text" := info])] + items
  }

  /** The content after `enhance_content_dict_with_datetime`. */
  function EnhancedContent(kind: Option<string>, role: Option<string>, content: Content, info: string): Content {
    if kind == Some("message") && role == Some("user") then
      match content
      case TextContent(text) => TextContent(EnhanceUserContentWithDatetime(info, text))
      case ListContent(items) => ListContent(EnhancedItems(items, info))
      case OtherContent => OtherContent
      case NoContent => NoContent
    else content
  }

  /** Only the first text element changes and only its `text`, which keeps the old text at its
      end; when there is none, exactly one element is added, in front, and the rest follow. */
  lemma EnhancedItemsShape(items: seq<Item>, info: string)
    ensures var r := EnhancedItems(items, info);
      match FirstTextItem(items)
      case Some(k) =>
        |r| == |items|
        && (forall j :: 0 <= j < |items| && j != k ==> r[j] == items[j])
        && r[k].DictItem? && r[k].fields.Keys == items[k].fields.Keys + {"text"}
        && (forall key :: key in items[k].fields && key != "text" ==> r[k].fields[key] == items[k].fields[key])
        && r[k].fields["text"][..|info| + 2] == info + "\n\n"
        && r[k].fields["text"][|info| + 2..] == (if "text" in items[k].fields then items[k].fields["text"] else "")
      case None =>
        |r| == |items| + 1 && r[1..] == items && r[0] == DictItem(map["type" := "input_text", "text" := info])
  {
    var r := EnhancedItems(items, info);
    match FirstTextItem(items)
    case Some(k) =>
    case None =>
      assert r[1..] == items;
  }

  /** A message that is not a user message, and content that is neither a string nor a list,
      are left as they are. */
  lemma EnhancedContentUntouched(kind: Option<string>, role: Option<string>, content: Content, info: string)
    ensures !(kind == Some("message") && role == Some("user")) ==> EnhancedContent(kind, role, content, info) == content
    ensures content.OtherContent? || content.NoContent? ==> EnhancedContent(kind, role, content, info) == content
  {
  }

  /** `enhance_content_dict_with_datetime(content_dict)`: changes the dict in place, only its
      content, and returns the same dict. */
  method EnhanceContentDictWithDatetime(d: ContentDict, info: string) returns (r: ContentDict)
    modifies d
    ensures r == d
    ensures d.kind == old(d.kind) && d.role == old(d.role)
    ensures d.content == EnhancedContent(old(d.kind), old(d.role), old(d.content), info)
  {
    r := d;
    if d.kind == Some("message") && d.role == Some("user") {
      match d.content {
        case TextContent(original) =>
          d.content := TextContent(EnhanceUserContentWithDatetime(info, original));
        case ListContent(items) =>
          var i := 0;
          while i < |items|
            invariant 0 <= i <= |items|
            invariant forall k :: 0 <= k < i ==> !IsTextItem(items[k])
            invariant d.content == ListContent(items)
          {
            var item := items[i];
            if item.DictItem? && "type" in item.fields && (item.fields["type"] == "input_text" || item.fields["type"] == "text") {
              var originalText := if "text" in item.fields then item.fields["text"] else "";
              d.content := ListContent(items[i := DictItem(item.fields["text" := info + "\n\n" + originalText])]);
              assert FirstTextItem(items) == Some(i) by {
                FirstTextItemUnique(items, i);
              }
              break;
            }
            i := i + 1;
          }
          if i == |items| {
            d.content := ListContent([DictItem(map["type" := "input_text", "text" := info])] + items);
          }
        case OtherContent =>
        case NoContent =>
      }
    }
  }

  /** The first text element is the one a left-to-right scan stops at. */
  lemma FirstTextItemUnique(items: seq<Item>, i: nat)
    requires i < |items| && IsTextItem(items[i])
    requires forall k :: 0 <= k < i ==> !IsTextItem(items[k])
    ensures FirstTextItem(items) == Some(i)
  {
  }
}
