/**
 * `OpenAIClient`, the older client: the model list filtered to chat models, and a
 * Responses API turn charged at one flat price. The current-model setting is the
 * one of `Models`; the input assembly and text extraction are those of `Chat`.
 */
module OpenAIClient {
  import opened Wrappers
  import Text
  import Db
  import Models
  import Chat

  /** The four models offered when listing fails. */
  const ClientFallbackModels: seq<Models.ModelInfo> := [
    Models.ModelInfo("gpt-4o-mini", "GPT-4o Mini (default)", 0),
    Models.ModelInfo("gpt-4o", "GPT-4o", 0),
    Models.ModelInfo("gpt-4-turbo", "GPT-4 Turbo", 0),
    Models.ModelInfo("gpt-3.5-turbo", "GPT-3.5 Turbo", 0)
  ]

  /** A chat model's id mentions `gpt-4` or `gpt-3.5`, in any case. */
  predicate IsChatModelId(id: string) {
    Text.Contains(Text.Lower(id), "gpt-4") || Text.Contains(Text.Lower(id), "gpt-3.5")
  }

  function InfoOf(m: Models.ApiModel): Models.ModelInfo {
    Models.ModelInfo(m.id, m.id, m.created.GetOr(0))
  }

  /** The chat models of a listing, in the API's order. */
  function ChatModelsOf(data: seq<Models.ApiModel>): seq<Models.ModelInfo> {
    if data == [] then []
    else ChatModelsOf(data[..|data| - 1]) + (if IsChatModelId(data[|data| - 1].id) then [InfoOf(data[|data| - 1])] else [])
  }

  /** An entry is kept iff it comes from a listed model whose id is a chat model's. */
  lemma {:induction false} ChatModelsOfExactly(data: seq<Models.ApiModel>, m: Models.ModelInfo)
    ensures m in ChatModelsOf(data) <==> exists k :: 0 <= k < |data| && IsChatModelId(data[k].id) && m == InfoOf(data[k])
  {
    if data != [] {
      var init := data[..|data| - 1];
      ChatModelsOfExactly(init, m);
      if m in ChatModelsOf(data) && m !in ChatModelsOf(init) {
        assert IsChatModelId(data[|data| - 1].id) && m == InfoOf(data[|data| - 1]);
      }
      if exists k :: 0 <= k < |data| && IsChatModelId(data[k].id) && m == InfoOf(data[k]) {
        var k :| 0 <= k < |data| && IsChatModelId(data[k].id) && m == InfoOf(data[k]);
        if k < |data| - 1 {
          assert init[k] == data[k];
        }
      }
    }
  }

  /** `get_available_models`: the chat models of the listing, newest first (a permutation of
      them, equal dates in listing order); the four defaults when listing fails. */
  method GetAvailableModels(outcome: Models.ListOutcome) returns (models: seq<Models.ModelInfo>)
    ensures outcome.ListFailed? ==> models == ClientFallbackModels
    ensures outcome.Listed? ==> models == Models.SortByCreatedDesc(ChatModelsOf(outcome.data))
    ensures outcome.Listed? ==> Models.SortedByCreatedDesc(models) && multiset(models) == multiset(ChatModelsOf(outcome.data))
  {
    match outcome {
      case ListFailed =>
        models := ClientFallbackModels;
      case Listed(data) =>
        var chatModels: seq<Models.ModelInfo> := [];
        var i := 0;
        while i < |data|
          invariant 0 <= i <= |data|
          invariant chatModels == ChatModelsOf(data[..i])
        {
          assert data[..i + 1][..i] == data[..i];
          if IsChatModelId(data[i].id) {
            chatModels := chatModels + [Models.ModelInfo(data[i].id, data[i].id, data[i].created.GetOr(0))];
          }
          i := i + 1;
        }
        assert data[..i] == data;
        models := Models.SortByCreatedDesc(chatModels);
        Models.SortIsPermutation(chatModels);
    }
  }

  // ----- `responses_request` -------------------------------------------------------------

  /** How the older `responses_request` ends: a text (possibly `None`), the API's exception
      raised again, or an `AttributeError` for a response without `usage` or `model`. */
  datatype CallResult = Returned(text: Option<string>) | Raised(error: Chat.ApiOutcome) | AttributeMissing

  /** The flat cost: total tokens at the global price per 1000. */
  function FlatCost(totalTokens: int, globalPrice: real): real {
    totalTokens as real / 1000.0 * globalPrice
  }

  /** The flat cost is what the newer manager charges when the usage carries no split counts. */
  lemma FlatCostIsChatFallback(u: Chat.Usage, prices: map<string, real>, globalPrice: real)
    requires Chat.PyOr(u.promptTokens, u.inputTokens).None? || Chat.PyOr(u.completionTokens, u.outputTokens).None?
    ensures FlatCost(u.totalTokens, globalPrice) == Chat.CostOf(Some(u), prices, globalPrice)
  {
    Chat.CostCases(u, prices, globalPrice);
  }

  /** `OpenAIClient.responses_request(chat_id, user_content, previous_response_id)` for one
      attempt. Errors are raised again and change nothing; a success records the response and a
      usage row that carries the chat id as its user id. */
  method ResponsesRequest<T>(db: Db.Database, chatId: int, userContent: seq<T>, previousResponseId: Option<string>,
                             systemPrompt: string, globalPrice: real, outcome: Chat.ApiOutcome)
    returns (result: CallResult, request: Chat.Request<T>)
    modifies db`chatHistory, db`usage
    ensures request.model == old(Models.CurrentModelIn(db.botSettings))
    ensures request.previousResponseId == Chat.PreviousResponseId(previousResponseId, old(db.chatHistory), chatId)
    ensures request.input == Chat.InputFor(request.previousResponseId, systemPrompt, userContent)
    ensures request.tools.None? && request.toolChoice.None?
    ensures !outcome.Succeeded? ==> result == Raised(outcome)
    ensures !result.Returned? ==> db.chatHistory == old(db.chatHistory) && db.usage == old(db.usage)
    ensures outcome.Succeeded? ==>
              var resp := outcome.response;
              if resp.usage.None? || resp.model.None? then result == AttributeMissing
              else
                db.chatHistory == old(db.chatHistory)[chatId := resp.id]
                && db.usage == old(db.usage)
                   + [Db.UsageRow(chatId, chatId, resp.usage.value.totalTokens, FlatCost(resp.usage.value.totalTokens, globalPrice), resp.model.value)]
                && result == Returned(match Chat.FirstText(Chat.Flatten(resp.output)) case None => None case Some(v) => v)
  {
    var currentModel := Models.GetCurrentModel(db);
    var previous := previousResponseId;
    if previous.None? {
      previous := if chatId in db.chatHistory then Some(db.chatHistory[chatId]) else None;
    }
    request := Chat.AssembleRequest(currentModel, previous, systemPrompt, userContent, None, Some(false), None);
    if !outcome.Succeeded? {
      return Raised(outcome), request;
    }
    var resp := outcome.response;
    if resp.usage.None? || resp.model.None? {
      // reading the attribute fails before anything is committed
      return AttributeMissing, request;
    }
    var usage := resp.usage.value.totalTokens;
    var cost := FlatCost(usage, globalPrice);
    db.chatHistory := db.chatHistory[chatId := resp.id];
    db.usage := db.usage + [Db.UsageRow(chatId, chatId, usage, cost, resp.model.value)];
    var found := Chat.ExtractText(resp.output);
    // without a text the method falls off its end and returns `None`
    result := Returned(if found.Some? then found.value else None);
  }
}
