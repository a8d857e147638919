/**
 * `ChatManager.responses_request`: one turn with the Responses API. It finds the
 * previous response of the chat, assembles the input and the tools, maps API errors
 * to replies, charges the tokens, records the turn and picks the text of the answer.
 * The API call is an outcome passed in; the price table is a parameter.
 */
module Chat {
  import opened Wrappers
  import Text
  import Db
  import Models

  // ----- the request -----------------------------------------------------------------------

  /** An element of `input`: the system prompt, or one element of the caller's content. */
  datatype InputEntry<T> = SystemMessage(content: string) | UserEntry(item: T)

  /** A tool of the request: the built-in web search, or one the caller passes. */
  datatype Tool = WebSearch | CustomTool(fields: map<string, string>)

  /** The keyword arguments of `client.responses.create`; `tools` and `tool_choice` are only
      there when set (`None` here). */
  datatype Request<T> = Request(
    model: string, input: seq<InputEntry<T>>, previousResponseId: Option<string>, store: bool,
    tools: Option<seq<Tool>>, toolChoice: Option<string>)

  /** The previous response to continue: the one passed in, else the chat's last one, if any. */
  function PreviousResponseId(given: Option<string>, history: map<int, string>, chatId: int): (r: Option<string>)
    ensures given.Some? ==> r == given
    ensures given.None? ==> (r.Some? <==> chatId in history) && (r.Some? ==> r.value == history[chatId])
  {
    if given.Some? then given
    else if chatId in history then Some(history[chatId])
    else None
  }

  /** The input: the system prompt first when there is no previous response, then the caller's
      content in its own order. */
  function InputFor<T>(previous: Option<string>, systemPrompt: string, userContent: seq<T>): (r: seq<InputEntry<T>>)
    ensures previous.None? ==> |r| == |userContent| + 1 && r[0] == SystemMessage(systemPrompt)
    ensures previous.Some? ==> |r| == |userContent|
    ensures var offset := if previous.None? then 1 else 0;
            forall k :: 0 <= k < |userContent| ==> r[k + offset] == UserEntry(userContent[k])
  {
    (if previous.None? then [SystemMessage(systemPrompt)] else [])
    + seq(|userContent|, k requires 0 <= k < |userContent| => UserEntry(userContent[k]))
  }

  /** Exactly one system message, and only when there is no previous response. */
  lemma SystemMessageIffFirstTurn<T>(previous: Option<string>, systemPrompt: string, userContent: seq<T>)
    ensures var input := InputFor(previous, systemPrompt, userContent);
            (exists k :: 0 <= k < |input| && input[k].SystemMessage?) <==> previous.None?
  {
    var input := InputFor(previous, systemPrompt, userContent);
    if previous.Some? {
      forall k | 0 <= k < |input| ensures !input[k].SystemMessage? {
        assert input[k] == UserEntry(userContent[k]);
      }
    } else {
      assert input[0].SystemMessage?;
    }
  }

  /** The tools list: web search unless switched off explicitly, then the caller's tools. */
  function ToolsFor(enableWebSearch: Option<bool>, tools: Option<seq<Tool>>): (r: Option<seq<Tool>>)
    ensures r.None? <==> enableWebSearch == Some(false) && (tools.None? || tools.value == [])
    ensures r.Some? ==> r.value == (if enableWebSearch != Some(false) then [WebSearch] else [])
                                   + (if tools.Some? then tools.value else [])
  {
    var useWeb := enableWebSearch != Some(false);
    var given := if tools.Some? then tools.value else [];
    if !useWeb && given == [] then None
    else Some((if useWeb then [WebSearch] else []) + given)
  }

  /** Builds the request step by step, as the dict is built. */
  method AssembleRequest<T>(model: string, previous: Option<string>, systemPrompt: string, userContent: seq<T>,
                            tools: Option<seq<Tool>>, enableWebSearch: Option<bool>, toolChoice: Option<string>)
    returns (request: Request<T>)
    ensures request.model == model && request.previousResponseId == previous && request.store
    ensures request.input == InputFor(previous, systemPrompt, userContent)
    ensures request.tools == ToolsFor(enableWebSearch, tools)
    ensures request.toolChoice.Some? <==> Db.Truthy(toolChoice)
    ensures request.toolChoice.Some? ==> request.toolChoice == toolChoice
  {
    var input: seq<InputEntry<T>> := [];
    if previous.None? {
      input := input + [SystemMessage(systemPrompt)];
    }
    var i := 0;
    while i < |userContent|
      invariant 0 <= i <= |userContent|
      invariant input == InputFor(previous, systemPrompt, userContent[..i])
    {
      input := input + [UserEntry(userContent[i])];
      i := i + 1;
    }
    assert userContent[..i] == userContent;
    request := Request(model, input, previous, true, None, None);
    var useWeb := enableWebSearch.None? || enableWebSearch.value;
    if useWeb {
      request := request.(tools := Some([WebSearch]));
    }
    if tools.Some? && tools.value != [] {
      var existing := if request.tools.Some? then request.tools.value else [];
      request := request.(tools := Some(existing + tools.value));
    }
    if Db.Truthy(toolChoice) {
      request := request.(toolChoice := toolChoice);
    }
    assert [WebSearch] + [] == [WebSearch];
    assert [] + (if tools.Some? then tools.value else []) == (if tools.Some? then tools.value else []);
  }

  // ----- error replies ---------------------------------------------------------------------

  const TimeoutReply: string := "⏳ Превышено время ожидания ответа. Попробуйте еще раз."
  const Unknown: string := "неизвестно"
  const ModelChanged: string := ". Модель изменена на gpt-4o-mini. Повторите запрос."

  /** The response headers the rate-limit reply quotes. */
  const RemainingTokensHeader: string := "x-ratelimit-remaining-tokens"
  const ResetTokensHeader: string := "x-ratelimit-reset-tokens"

  /** The rate-limit reply with the two header values. */
  function RateLimitReply(remaining: string, reset: string): string {
    "⏳ <b>Превышен лимит токенов OpenAI</b>\n\n🔢 Осталось токенов: " + Code(remaining)
    + "\n🕒 Сброс через: " + Code(reset) + " сек\n\n💡 Рекомендации:\n• /setmodel → gpt-4o-mini (дешевле)\n• Подождите "
    + reset + " секунд\n• Упростите запрос"
  }

  /** A value in `<code>` tags. */
  function Code(s: string): string {
    "<code>" + s + "</code>"
  }

  /** The rate-limit reply quotes both header values in code tags. */
  lemma RateLimitReplyQuotes(remaining: string, reset: string)
    ensures Text.Contains(RateLimitReply(remaining, reset), Code(remaining))
    ensures Text.Contains(RateLimitReply(remaining, reset), Code(reset))
  {
    var a := "⏳ <b>Превышен лимит токенов OpenAI</b>\n\n🔢 Осталось токенов: ";
    var b := "\n🕒 Сброс через: ";
    var c := " сек\n\n💡 Рекомендации:\n• /setmodel → gpt-4o-mini (дешевле)\n• Подождите ";
    var d := " секунд\n• Упростите запрос";
    var head := a + Code(remaining) + b;
    var tail := c + reset + d;
    Text.ContainsSelf(Code(remaining));
    Text.ContainsWithin(a, Code(remaining), Code(remaining));
    Text.ContainsWithin(b, a + Code(remaining), Code(remaining));
    Text.ContainsWithin(Code(reset), head, Code(remaining));
    Text.ContainsSelf(Code(reset));
    Text.ContainsWithin(head, Code(reset), Code(reset));
    forall sub | sub == Code(remaining) || sub == Code(reset)
      ensures Text.Contains(RateLimitReply(remaining, reset), sub)
    {
      Text.ContainsWithin(c, head + Code(reset), sub);
      Text.ContainsWithin(reset, head + Code(reset) + c, sub);
      Text.ContainsWithin(d, head + Code(reset) + c + reset, sub);
    }
  }

  /** A header's value, or `неизвестно` when the error has no response or the header is missing. */
  function Header(headers: Option<map<string, string>>, key: string): (v: string)
    ensures headers.Some? && key in headers.value ==> v == headers.value[key]
    ensures !(headers.Some? && key in headers.value) ==> v == Unknown
  {
    if headers.Some? && key in headers.value then headers.value[key] else Unknown
  }

  /** The reply when the model is refused: the reason of the first phrase found, in this order. */
  function RejectionReply(model: string, message: string): (r: string)
  {
    if Text.Contains(message, "does not have access") then "❌ Нет доступа к модели " + model + ModelChanged
    else if Text.Contains(message, "not supported with the Responses API") then "❌ Модель " + model + " не поддерживает Responses API" + ModelChanged
    else if Text.Contains(message, "does not support image inputs") then "❌ Модель " + model + " не поддерживает изображения" + ModelChanged
    else "❌ Проблема с моделью " + model + ModelChanged
  }

  /** Every refusal reply names the model and ends by announcing the switch to `gpt-4o-mini`;
      the reason is that of the first phrase the message contains. */
  lemma RejectionReplyShape(model: string, message: string)
    ensures var r := RejectionReply(model, message);
            |r| >= |ModelChanged| && r[|r| - |ModelChanged|..] == ModelChanged && Text.Contains(r, model)
    ensures Text.Contains(message, "does not have access") ==> RejectionReply(model, message) == "❌ Нет доступа к модели " + model + ModelChanged
    ensures !Text.Contains(message, "does not have access") && Text.Contains(message, "not supported with the Responses API") ==>
              RejectionReply(model, message) == "❌ Модель " + model + " не поддерживает Responses API" + ModelChanged
    ensures !Text.Contains(message, "does not have access") && !Text.Contains(message, "not supported with the Responses API")
            && Text.Contains(message, "does not support image inputs") ==>
              RejectionReply(model, message) == "❌ Модель " + model + " не поддерживает изображения" + ModelChanged
  {
    var r := RejectionReply(model, message);
    if Text.Contains(message, "does not have access") {
      Text.ContainsMiddle("❌ Нет доступа к модели ", model, ModelChanged);
    } else if Text.Contains(message, "not supported with the Responses API") {
      Text.ContainsMiddle("❌ Модель ", model, " не поддерживает Responses API" + ModelChanged);
      assert r == "❌ Модель " + model + (" не поддерживает Responses API" + ModelChanged);
    } else if Text.Contains(message, "does not support image inputs") {
      Text.ContainsMiddle("❌ Модель ", model, " не поддерживает изображения" + ModelChanged);
      assert r == "❌ Модель " + model + (" не поддерживает изображения" + ModelChanged);
    } else {
      Text.ContainsMiddle("❌ Проблема с моделью ", model, ModelChanged);
    }
  }

  /** The reply to any other error: its first 100 characters and an ellipsis. */
  function UnexpectedReply(message: string): (r: string)
    ensures |r| == |UnexpectedLead| + (if |message| <= 100 then |message| else 100) + 3
    ensures r[..|UnexpectedLead|] == UnexpectedLead && r[|r| - 3..] == "..."
    ensures r[|UnexpectedLead|..|r| - 3] <= message
  {
    UnexpectedLead + (if |message| <= 100 then message else message[..100]) + "..."
  }

  const UnexpectedLead: string := "❌ Произошла неожиданная ошибка: "

  // ----- the response ----------------------------------------------------------------------

  /** The `text` attribute of a content item: missing, `None`, or a string. */
  datatype TextAttr = NoText | NoneText | StrText(s: string)

  /** A content item: its `type` (if any) and its `text`. */
  datatype ContentItem = ContentItem(kind: Option<string>, text: TextAttr)

  /** An output message; a missing, `None` or empty `content` is an empty list. */
  datatype OutputMessage = OutputMessage(content: seq<ContentItem>)

  /** The `usage` attribute's counters; a missing or `None` counter is `None`. */
  datatype Usage = Usage(
    totalTokens: int, promptTokens: Option<int>, inputTokens: Option<int>, completionTokens: Option<int>,
    outputTokens: Option<int>, cachedPromptTokens: Option<int>, cachedInputTokens: Option<int>)

  /** A response: its id, its `model` attribute (missing: `None`), its usage and its output. */
  datatype Response = Response(id: string, model: Option<string>, usage: Option<Usage>, output: seq<OutputMessage>)

  /** How `client.responses.create` ends. */
  datatype ApiOutcome =
    | TimedOut
    | RateLimited(headers: Option<map<string, string>>)
    | ModelRefused(message: string)
    | Failed(message: string)
    | Succeeded(response: Response)

  /** An item whose text is returned: a non-empty text, or any `text` on an `output_text` item. */
  predicate ItemAnswers(item: ContentItem) {
    (item.text.StrText? && item.text.s != "") || (item.kind == Some("output_text") && !item.text.NoText?)
  }

  /** What returning the item's text gives: the string, or `None`. */
  function ItemValue(item: ContentItem): Option<string> {
    if item.text.StrText? then Some(item.text.s) else None
  }

  /** The content items of all messages, message by message. */
  function Flatten(output: seq<OutputMessage>): seq<ContentItem> {
    if output == [] then [] else Flatten(output[..|output| - 1]) + output[|output| - 1].content
  }

  /** The text returned by the first item that answers, if one does. */
  function FirstText(items: seq<ContentItem>): (r: Option<Option<string>>)
  {
    if items == [] then None
    else if ItemAnswers(items[0]) then Some(ItemValue(items[0]))
    else FirstText(items[1..])
  }

  /** Nothing is found iff no item answers; otherwise the text comes from an item that answers
      and that no answering item precedes. */
  lemma {:induction false} FirstTextIsFirst(items: seq<ContentItem>)
    ensures FirstText(items).None? <==> forall k :: 0 <= k < |items| ==> !ItemAnswers(items[k])
    ensures FirstText(items).Some? ==>
              exists k :: 0 <= k < |items| && ItemAnswers(items[k]) && FirstText(items) == Some(ItemValue(items[k]))
                          && forall j :: 0 <= j < k ==> !ItemAnswers(items[j])
  {
    if items != [] && !ItemAnswers(items[0]) {
      FirstTextIsFirst(items[1..]);
      if FirstText(items).Some? {
        var k :| 0 <= k < |items[1..]| && ItemAnswers(items[1..][k]) && FirstText(items[1..]) == Some(ItemValue(items[1..][k]))
                 && forall j :: 0 <= j < k ==> !ItemAnswers(items[1..][j]);
        assert forall j :: 1 <= j < k + 1 ==> items[j] == items[1..][j - 1];
      } else {
        assert forall k :: 1 <= k < |items| ==> items[k] == items[1..][k - 1];
      }
    }
  }

  lemma {:induction false} FirstTextSkip(a: seq<ContentItem>, b: seq<ContentItem>)
    requires forall k :: 0 <= k < |a| ==> !ItemAnswers(a[k])
    ensures FirstText(a + b) == FirstText(b)
  {
    if a != [] {
      assert (a + b)[0] == a[0];
      assert (a + b)[1..] == a[1..] + b;
      FirstTextSkip(a[1..], b);
    } else {
      assert a + b == b;
    }
  }

  lemma {:induction false} FlattenAppend(a: seq<OutputMessage>, b: seq<OutputMessage>)
    ensures Flatten(a + b) == Flatten(a) + Flatten(b)
    decreases |b|
  {
    if b != [] {
      var init := b[..|b| - 1];
      assert (a + b)[..|a + b| - 1] == a + init;
      assert (a + b)[|a + b| - 1] == b[|b| - 1];
      FlattenAppend(a, init);
    } else {
      assert a + b == a;
    }
  }

  const Apology: string := "Извините, не удалось обработать ответ. Попробуйте еще раз."

  /** Scans the output message by message and item by item for the first text to return. */
  method ExtractText(output: seq<OutputMessage>) returns (found: Option<Option<string>>)
    ensures found == FirstText(Flatten(output))
  {
    var i := 0;
    while i < |output|
      invariant 0 <= i <= |output|
      invariant forall k :: 0 <= k < |Flatten(output[..i])| ==> !ItemAnswers(Flatten(output[..i])[k])
    {
      var content := output[i].content;
      assert Flatten(output[..i + 1]) == Flatten(output[..i]) + content by {
        assert output[..i + 1][..i] == output[..i];
      }
      var j := 0;
      while j < |content|
        invariant 0 <= j <= |content|
        invariant forall k :: 0 <= k < j ==> !ItemAnswers(content[k])
      {
        var item := content[j];
        if (item.text.StrText? && item.text.s != "") || (item.kind == Some("output_text") && !item.text.NoText?) {
          found := Some(if item.text.StrText? then Some(item.text.s) else None);
          FoundAt(output, i, j);
          return;
        }
        j := j + 1;
      }
      i := i + 1;
    }
    assert output[..i] == output;
    FirstTextSkip(Flatten(output), []);
    assert Flatten(output) + [] == Flatten(output);
    found := None;
  }

  /** When no item before `output[i].content[j]` answers and that one does, it gives the text. */
  lemma FoundAt(output: seq<OutputMessage>, i: nat, j: nat)
    requires i < |output| && j < |output[i].content|
    requires forall k :: 0 <= k < |Flatten(output[..i])| ==> !ItemAnswers(Flatten(output[..i])[k])
    requires forall k :: 0 <= k < j ==> !ItemAnswers(output[i].content[k])
    requires ItemAnswers(output[i].content[j])
    ensures FirstText(Flatten(output)) == Some(ItemValue(output[i].content[j]))
  {
    var content := output[i].content;
    var item := content[j];
    assert Flatten(output[..i + 1]) == Flatten(output[..i]) + content by {
      assert output[..i + 1][..i] == output[..i];
    }
    assert output == output[..i + 1] + output[i + 1..];
    FlattenAppend(output[..i + 1], output[i + 1..]);
    var rest := content[j + 1..] + Flatten(output[i + 1..]);
    assert Flatten(output) == Flatten(output[..i]) + content[..j] + ([item] + rest) by {
      assert content == content[..j] + [item] + content[j + 1..];
    }
    FirstTextSkip(Flatten(output[..i]) + content[..j], [item] + rest);
  }

  /** The reply for a successful response: the first text found, or the apology. */
  function ReplyText(output: seq<OutputMessage>): (r: Option<string>)
    ensures FirstText(Flatten(output)).None? ==> r == Some(Apology)
    ensures FirstText(Flatten(output)).Some? ==> r == FirstText(Flatten(output)).value
  {
    match FirstText(Flatten(output))
    case None => Some(Apology)
    case Some(v) => v
  }

  // ----- tokens and cost -------------------------------------------------------------------

  /** Python's `a or b` on optional counters: `a` unless it is missing or zero. */
  function PyOr(a: Option<int>, b: Option<int>): (r: Option<int>)
    ensures a.Some? && a.value != 0 ==> r == a
    ensures !(a.Some? && a.value != 0) ==> r == b
  {
    if a.Some? && a.value != 0 then a else b
  }

  function Max0(x: int): (r: nat)
    ensures r >= x
    ensures x >= 0 ==> r == x
  {
    if x > 0 then x else 0
  }

  /** The price of a kind of token: the table's, else `fallback`. */
  function PriceOf(prices: map<string, real>, key: string, fallback: real): (p: real)
    ensures key in prices ==> p == prices[key]
    ensures key !in prices ==> p == fallback
  {
    if key in prices then prices[key] else fallback
  }

  /** The cost of a response: split by regular, cached and output tokens when the input and
      output counts are known, else the total at the global price. */
  function CostOf(usage: Option<Usage>, prices: map<string, real>, globalPrice: real): real {
    var total := if usage.Some? then usage.value.totalTokens else 0;
    var inPrice := PriceOf(prices, "input", globalPrice);
    var outPrice := PriceOf(prices, "output", globalPrice);
    var cachedPrice := PriceOf(prices, "cached_input", inPrice);
    var input := if usage.Some? then PyOr(usage.value.promptTokens, usage.value.inputTokens) else None;
    var output := if usage.Some? then PyOr(usage.value.completionTokens, usage.value.outputTokens) else None;
    var cached := if usage.Some? then PyOr(usage.value.cachedPromptTokens, usage.value.cachedInputTokens) else None;
    if input.Some? && output.Some? then SplitCost(input.value, cached, output.value, inPrice, cachedPrice, outPrice)
    else total as real / 1000.0 * globalPrice
  }

  /** Regular input tokens (input less cached, never below zero), cached tokens (never below
      zero) and output tokens, each at its price per 1000. */
  function SplitCost(input: int, cached: Option<int>, output: int, inPrice: real, cachedPrice: real, outPrice: real): real {
    var cachedT := if cached.Some? then Max0(cached.value) else 0;
    var regularT := Max0(input - cachedT);
    (regularT as real / 1000.0) * inPrice + (cachedT as real / 1000.0) * cachedPrice + (output as real / 1000.0) * outPrice
  }

  lemma SplitCostNonNegative(input: int, cached: Option<int>, output: int, inPrice: real, cachedPrice: real, outPrice: real)
    requires output >= 0 && inPrice >= 0.0 && cachedPrice >= 0.0 && outPrice >= 0.0
    ensures SplitCost(input, cached, output, inPrice, cachedPrice, outPrice) >= 0.0
  {
    var cachedT := if cached.Some? then Max0(cached.value) else 0;
    var regularT := Max0(input - cachedT);
    NonNegativeTerm(regularT as real, inPrice);
    NonNegativeTerm(cachedT as real, cachedPrice);
    NonNegativeTerm(output as real, outPrice);
  }

  /** Without split counts the cost is the total at the global price; with them and no cached
      tokens (or cached tokens priced like input), it is input plus output at their prices. */
  lemma CostCases(u: Usage, prices: map<string, real>, globalPrice: real)
    ensures var input := PyOr(u.promptTokens, u.inputTokens);
            var output := PyOr(u.completionTokens, u.outputTokens);
            (input.None? || output.None? ==> CostOf(Some(u), prices, globalPrice) == u.totalTokens as real / 1000.0 * globalPrice)
    ensures var input := PyOr(u.promptTokens, u.inputTokens);
            var output := PyOr(u.completionTokens, u.outputTokens);
            var cached := PyOr(u.cachedPromptTokens, u.cachedInputTokens);
            var inPrice := PriceOf(prices, "input", globalPrice);
            input.Some? && output.Some? && input.value >= 0 && cached.Some? && 0 <= cached.value <= input.value
            && PriceOf(prices, "cached_input", inPrice) == inPrice ==>
              CostOf(Some(u), prices, globalPrice)
              == (input.value as real / 1000.0) * inPrice + (output.value as real / 1000.0) * PriceOf(prices, "output", globalPrice)
    ensures CostOf(None, prices, globalPrice) == 0.0
  {
    var input := PyOr(u.promptTokens, u.inputTokens);
    var cached := PyOr(u.cachedPromptTokens, u.cachedInputTokens);
    if input.Some? && cached.Some? && 0 <= cached.value <= input.value {
      var c := cached.value as real;
      var i := input.value as real;
      assert Max0(input.value - cached.value) as real == i - c;
      var p := PriceOf(prices, "input", globalPrice);
      assert ((i - c) / 1000.0) * p + (c / 1000.0) * p == (i / 1000.0) * p;
    }
  }

  /** With non-negative prices and output count, the cost is never negative. */
  lemma CostSplitNonNegative(u: Usage, prices: map<string, real>, globalPrice: real)
    requires globalPrice >= 0.0 && forall key :: key in prices ==> prices[key] >= 0.0
    requires PyOr(u.completionTokens, u.outputTokens).Some? ==> PyOr(u.completionTokens, u.outputTokens).value >= 0
    requires u.totalTokens >= 0
    ensures CostOf(Some(u), prices, globalPrice) >= 0.0
  {
    var inPrice := PriceOf(prices, "input", globalPrice);
    var outPrice := PriceOf(prices, "output", globalPrice);
    var cachedPrice := PriceOf(prices, "cached_input", inPrice);
    assert inPrice >= 0.0 && outPrice >= 0.0 && cachedPrice >= 0.0;
    var input := PyOr(u.promptTokens, u.inputTokens);
    var output := PyOr(u.completionTokens, u.outputTokens);
    var cached := PyOr(u.cachedPromptTokens, u.cachedInputTokens);
    if input.Some? && output.Some? {
      SplitCostNonNegative(input.value, cached, output.value, inPrice, cachedPrice, outPrice);
    } else {
      NonNegativeTerm(u.totalTokens as real, globalPrice);
    }
  }

  /** Each cached token (up to the input count) is charged the cached price in place of the
      input price; the other tokens are charged as if nothing were cached. */
  lemma CachedDiscount(input: int, c: int, output: int, inPrice: real, cachedPrice: real, outPrice: real)
    requires 0 <= c <= input
    ensures SplitCost(input, Some(c), output, inPrice, cachedPrice, outPrice)
            == SplitCost(input, None, output, inPrice, cachedPrice, outPrice) - (c as real / 1000.0) * (inPrice - cachedPrice)
  {
    assert Max0(c) == c && Max0(input - c) == input - c && Max0(input - 0) == input;
    var i := input as real;
    var k := c as real;
    assert ((i - k) / 1000.0) * inPrice == (i / 1000.0) * inPrice - (k / 1000.0) * inPrice;
    assert (k / 1000.0) * (inPrice - cachedPrice) == (k / 1000.0) * inPrice - (k / 1000.0) * cachedPrice;
  }

  lemma NonNegativeTerm(tokens: real, price: real)
    requires tokens >= 0.0 && price >= 0.0
    ensures (tokens / 1000.0) * price >= 0.0 && tokens / 1000.0 * price >= 0.0
  {
  }

  // ----- the turn --------------------------------------------------------------------------

  /** What a finished turn records about the response: its model when it has the attribute,
      else the current model. */
  function UsageRowFor(chatId: int, userId: int, currentModel: string, resp: Response, cost: real): (row: Db.UsageRow)
    ensures row.chatId == chatId && row.userId == userId && row.cost == cost
    ensures row.tokens == (if resp.usage.Some? then resp.usage.value.totalTokens else 0)
    ensures resp.model.Some? ==> row.model == resp.model.value
    ensures resp.model.None? ==> row.model == currentModel
  {
    Db.UsageRow(chatId, userId, if resp.usage.Some? then resp.usage.value.totalTokens else 0, cost, resp.model.GetOr(currentModel))
  }

  /** The model whose prices are looked up: the response's when it has a non-empty one. */
  function PricedModel(resp: Response, currentModel: string): string {
    if Db.Truthy(resp.model) then resp.model.value else currentModel
  }

  /** The part of `responses_request` before the API call: the current model, the previous
      response and the request built from them. */
  method TurnRequest<T>(db: Db.Database, chatId: int, userContent: seq<T>, previousResponseId: Option<string>,
                        tools: Option<seq<Tool>>, enableWebSearch: Option<bool>, toolChoice: Option<string>,
                        systemPrompt: string)
    returns (request: Request<T>)
    ensures request.model == Models.CurrentModelIn(db.botSettings)
    ensures request.previousResponseId == PreviousResponseId(previousResponseId, db.chatHistory, chatId)
    ensures request.input == InputFor(request.previousResponseId, systemPrompt, userContent)
    ensures request.tools == ToolsFor(enableWebSearch, tools) && request.store
    ensures request.toolChoice.Some? <==> Db.Truthy(toolChoice)
    ensures request.toolChoice.Some? ==> request.toolChoice == toolChoice
  {
    var currentModel := Models.GetCurrentModel(db);
    var previous := previousResponseId;
    if previous.None? {
      previous := if chatId in db.chatHistory then Some(db.chatHistory[chatId]) else None;
    }
    request := AssembleRequest(currentModel, previous, systemPrompt, userContent, tools, enableWebSearch, toolChoice);
  }

  /** `responses_request(chat_id, user_id, user_content, previous_response_id, tools,
      enable_web_search, tool_choice)` given how the API call ends, with the price lookup
      repaired: `pricesOf` gives a model's price table and `globalPrice` the price per 1000
      tokens from the settings. Errors change nothing but a refused model; a success records
      the response and one usage row. */
  method ResponsesRequest<T>(db: Db.Database, chatId: int, userId: int, userContent: seq<T>,
                             previousResponseId: Option<string>, tools: Option<seq<Tool>>,
                             enableWebSearch: Option<bool>, toolChoice: Option<string>,
                             systemPrompt: string, globalPrice: real, pricesOf: string -> map<string, real>,
                             outcome: ApiOutcome)
    returns (reply: Option<string>, request: Request<T>)
    modifies db`chatHistory, db`usage, db`botSettings
    ensures request.model == old(Models.CurrentModelIn(db.botSettings))
    ensures request.previousResponseId == PreviousResponseId(previousResponseId, old(db.chatHistory), chatId)
    ensures request.input == InputFor(request.previousResponseId, systemPrompt, userContent)
    ensures request.tools == ToolsFor(enableWebSearch, tools) && request.store
    ensures request.toolChoice.Some? <==> Db.Truthy(toolChoice)
    ensures request.toolChoice.Some? ==> request.toolChoice == toolChoice
    ensures !outcome.Succeeded? ==> db.chatHistory == old(db.chatHistory) && db.usage == old(db.usage)
    ensures !outcome.ModelRefused? ==> db.botSettings == old(db.botSettings)
    ensures !outcome.Succeeded? ==> reply == Some(ErrorReply(outcome, request.model))
    ensures outcome.ModelRefused? ==> db.botSettings == old(db.botSettings)["current_model" := Models.DefaultModel]
    ensures outcome.Succeeded? ==>
              var resp := outcome.response;
              db.chatHistory == old(db.chatHistory)[chatId := resp.id]
              && db.usage == old(db.usage)
                 + [UsageRowFor(chatId, userId, request.model, resp, CostOf(resp.usage, pricesOf(PricedModel(resp, request.model)), globalPrice))]
              && reply == ReplyText(resp.output)
  {
    request := TurnRequest(db, chatId, userContent, previousResponseId, tools, enableWebSearch, toolChoice, systemPrompt);
    if !outcome.Succeeded? {
      var text := ReplyToError(db, outcome, request.model);
      return Some(text), request;
    }
    reply := RecordSuccess(db, chatId, userId, request.model, outcome.response, globalPrice, pricesOf);
  }

  /** How a turn ends as the source stands: with a reply, or with the `AttributeError` of the
      lookup of `ModelsManager.get_model_prices`, a name `ModelsManager` does not define. */
  datatype TurnEnd = Replied(text: string) | PricesLookupRaised

  /** The end of a turn as written: each error gets its reply; every success raises at the
      price lookup. */
  function TurnEndAsWritten(outcome: ApiOutcome, model: string): (r: TurnEnd)
    ensures r.PricesLookupRaised? <==> outcome.Succeeded?
    ensures !outcome.Succeeded? ==> r == Replied(ErrorReply(outcome, model))
  {
    if outcome.Succeeded? then PricesLookupRaised else Replied(ErrorReply(outcome, model))
  }

  /** `responses_request` as written: the errors are handled as in `ResponsesRequest`, but a
      success raises at the price lookup, so nothing is recorded and nothing is returned. */
  method ResponsesRequestAsWritten<T>(db: Db.Database, chatId: int, userId: int, userContent: seq<T>,
                                      previousResponseId: Option<string>, tools: Option<seq<Tool>>,
                                      enableWebSearch: Option<bool>, toolChoice: Option<string>,
                                      systemPrompt: string, outcome: ApiOutcome)
    returns (end: TurnEnd, request: Request<T>)
    modifies db`botSettings
    ensures request.model == old(Models.CurrentModelIn(db.botSettings))
    ensures request.previousResponseId == PreviousResponseId(previousResponseId, old(db.chatHistory), chatId)
    ensures request.input == InputFor(request.previousResponseId, systemPrompt, userContent)
    ensures end == TurnEndAsWritten(outcome, request.model)
    ensures db.chatHistory == old(db.chatHistory) && db.usage == old(db.usage)
    ensures !outcome.ModelRefused? ==> db.botSettings == old(db.botSettings)
    ensures outcome.ModelRefused? ==> db.botSettings == old(db.botSettings)["current_model" := Models.DefaultModel]
  {
    request := TurnRequest(db, chatId, userContent, previousResponseId, tools, enableWebSearch, toolChoice, systemPrompt);
    if !outcome.Succeeded? {
      var text := ReplyToError(db, outcome, request.model);
      return Replied(text), request;
    }
    // the attribute lookup raises before the usage is read or anything is written
    end := PricesLookupRaised;
  }

  /** A response whose only item is the text `Готово`. */
  const AnsweredResponse: Response :=
    Response("resp_1", Some("gpt-4o-mini"), None, [OutputMessage([ContentItem(Some("output_text"), StrText("Готово"))])])

  /** As written, even a response that carries an answer ends in the `AttributeError`, while
      the repaired turn replies with that answer. */
  lemma AnsweredResponseLost(model: string)
    ensures TurnEndAsWritten(Succeeded(AnsweredResponse), model) == PricesLookupRaised
    ensures ReplyText(AnsweredResponse.output) == Some("Готово")
  {
    var item := ContentItem(Some("output_text"), StrText("Готово"));
    assert Flatten(AnsweredResponse.output) == [item] by {
      assert Flatten(AnsweredResponse.output) == [item] + Flatten([]);
    }
    assert ItemAnswers(item);
  }

  /** The success path of `responses_request`: store the response id, log the usage and its
      cost, and return the text found (or the apology). */
  method RecordSuccess(db: Db.Database, chatId: int, userId: int, currentModel: string, resp: Response,
                       globalPrice: real, pricesOf: string -> map<string, real>)
    returns (reply: Option<string>)
    modifies db`chatHistory, db`usage
    ensures db.chatHistory == old(db.chatHistory)[chatId := resp.id]
    ensures db.usage == old(db.usage)
              + [UsageRowFor(chatId, userId, currentModel, resp, CostOf(resp.usage, pricesOf(PricedModel(resp, currentModel)), globalPrice))]
    ensures reply == ReplyText(resp.output)
  {
    var prices := pricesOf(PricedModel(resp, currentModel));
    var cost := CostOf(resp.usage, prices, globalPrice);
    db.chatHistory := db.chatHistory[chatId := resp.id];
    db.usage := db.usage + [UsageRowFor(chatId, userId, currentModel, resp, cost)];
    var found := ExtractText(resp.output);
    reply := if found.Some? then found.value else Some(Apology);
  }

  /** The reply of each `except` clause of `responses_request`. */
  function ErrorReply(outcome: ApiOutcome, model: string): string
    requires !outcome.Succeeded?
  {
    match outcome
    case TimedOut => TimeoutReply
    case RateLimited(headers) => RateLimitReply(Header(headers, RemainingTokensHeader), Header(headers, ResetTokensHeader))
    case ModelRefused(message) => RejectionReply(model, message)
    case Failed(message) => UnexpectedReply(message)
  }

  /** A rate-limited call's reply shows both rate-limit headers in `<code>` tags. */
  lemma RateLimitedReplyQuotes(headers: Option<map<string, string>>, model: string)
    ensures var r := ErrorReply(RateLimited(headers), model);
            Text.Contains(r, Code(Header(headers, RemainingTokensHeader)))
            && Text.Contains(r, Code(Header(headers, ResetTokensHeader)))
  {
    RateLimitReplyQuotes(Header(headers, RemainingTokensHeader), Header(headers, ResetTokensHeader));
  }

  /** A refused model's reply names the model and ends with the switch to `gpt-4o-mini`. */
  lemma RefusedReplyNamesModel(message: string, model: string)
    ensures var r := ErrorReply(ModelRefused(message), model);
            Text.Contains(r, model) && |r| >= |ModelChanged| && r[|r| - |ModelChanged|..] == ModelChanged
  {
    RejectionReplyShape(model, message);
  }

  /** The `except` clauses of `responses_request`: the reply for each kind of failure; a refused
      model is also replaced by `gpt-4o-mini`. */
  method ReplyToError(db: Db.Database, outcome: ApiOutcome, currentModel: string) returns (text: string)
    requires !outcome.Succeeded?
    modifies db`botSettings
    ensures text == ErrorReply(outcome, currentModel)
    ensures outcome.ModelRefused? ==> db.botSettings == old(db.botSettings)["current_model" := Models.DefaultModel]
    ensures !outcome.ModelRefused? ==> db.botSettings == old(db.botSettings)
  {
    match outcome {
      case TimedOut =>
        text := TimeoutReply;
      case RateLimited(headers) =>
        var remaining := Header(headers, RemainingTokensHeader);
        var reset := Header(headers, ResetTokensHeader);
        text := RateLimitReply(remaining, reset);
      case ModelRefused(message) =>
        Models.SetCurrentModel(db, Models.DefaultModel);
        text := RejectionReply(currentModel, message);
      case Failed(message) =>
        text := UnexpectedReply(message);
    }
  }
}
