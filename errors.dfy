/**
 * The central error handler: which user-facing message an exception gets, who
 * receives it, and how the handler decorator finds the message or callback
 * among a handler's arguments.
 */
module Errors {
  import opened Wrappers
  import Text

  /** The `ErrorType` entries. */
  datatype ErrorType =
    | OpenaiTimeout | OpenaiRateLimit | OpenaiAuth | OpenaiBadRequest | OpenaiNotFound
    | FileTooLarge | FileUnsupported | FileDownloadError | NetworkError | UnknownError | PermissionDenied

  /** An `ErrorType` value: the text for the user and the text for the log. */
  datatype ErrorInfo = ErrorInfo(userMessage: string, techDescription: string)

  /** The user text of `FILE_TOO_LARGE` around its `{}` placeholder. */
  const FileTooLargeHead: string := "📁 Файл слишком большой. Максимальный размер: "
  const FileTooLargeTail: string := " МБ"

  /** The pair each `ErrorType` stands for. */
  function Info(t: ErrorType): ErrorInfo {
    match t
    case OpenaiTimeout => ErrorInfo("⏳ Время ожидания ответа от OpenAI истекло. Попробуйте ещё раз позже.", "OpenAI API timeout")
    case OpenaiRateLimit => ErrorInfo("🔄 Превышен лимит запросов. Пожалуйста, повторите через несколько минут.", "OpenAI rate limit exceeded")
    case OpenaiAuth => ErrorInfo("🔐 Ошибка авторизации OpenAI. Обратитесь к администратору.", "OpenAI authentication error")
    case OpenaiBadRequest => ErrorInfo("❌ Некорректный запрос к OpenAI. Попробуйте перефразировать.", "OpenAI bad request")
    case OpenaiNotFound => ErrorInfo("🔍 Данные не найдены. История чата сброшена.", "OpenAI resource not found")
    case FileTooLarge => ErrorInfo(FileTooLargeHead + "{}" + FileTooLargeTail, "File too large")
    case FileUnsupported => ErrorInfo("📄 Неподдерживаемый тип файла. Поддерживаются: PDF, изображения", "Unsupported file type")
    case FileDownloadError => ErrorInfo("📥 Ошибка загрузки файла. Попробуйте ещё раз.", "File download error")
    case NetworkError => ErrorInfo("🌐 Проблемы с сетью. Проверьте подключение и попробуйте позже.", "Network connection error")
    case UnknownError => ErrorInfo("❌ Произошла непредвиденная ошибка. Попробуйте ещё раз.", "Unknown error occurred")
    case PermissionDenied => ErrorInfo("🚫 Недостаточно прав для выполнения этой команды.", "Permission denied")
  }

  /** Which OpenAI SDK exception class an exception is an instance of, if any of the five. */
  datatype SdkClass = ApiTimeout | RateLimit | Authentication | BadRequest | NotFound | NoSdkClass

  /** An exception as the handler sees it: its SDK class, `type(e).__name__`,
      `type(e).__module__` (which may be None) and `str(e)`. */
  datatype Exception = Exception(sdk: SdkClass, typeName: string, moduleName: Option<string>, text: string)

  /** The network rule: a `ClientError` type name or an `aiohttp` module. */
  predicate LooksLikeNetwork(e: Exception) {
    Text.Contains(e.typeName, "ClientError") || Text.Contains(e.moduleName.GetOr(""), "aiohttp")
  }

  predicate SaysTooLarge(e: Exception) {
    Text.Contains(Text.Lower(e.text), "too large") || Text.Contains(Text.Lower(e.text), "большой")
  }

  predicate SaysUnsupported(e: Exception) {
    Text.Contains(Text.Lower(e.text), "unsupported") || Text.Contains(Text.Lower(e.text), "неподдерживаемый")
  }

  /** `_get_error_info`: the first rule that matches, SDK classes first. */
  function GetErrorType(e: Exception): (t: ErrorType)
    ensures t != FileDownloadError && t != PermissionDenied
  {
    match e.sdk
    case ApiTimeout => OpenaiTimeout
    case RateLimit => OpenaiRateLimit
    case Authentication => OpenaiAuth
    case BadRequest => OpenaiBadRequest
    case NotFound => OpenaiNotFound
    case NoSdkClass =>
      if LooksLikeNetwork(e) then NetworkError
      else if SaysTooLarge(e) then FileTooLarge
      else if SaysUnsupported(e) then FileUnsupported
      else UnknownError
  }

  /** Each class of exception gets exactly its entry: the SDK class decides whatever the name or
      the text says; the network rule comes before the text rules, "too large" before
      "unsupported"; everything else is `UNKNOWN_ERROR`. */
  lemma ClassificationOrder(e: Exception)
    ensures GetErrorType(e) == OpenaiTimeout <==> e.sdk == ApiTimeout
    ensures GetErrorType(e) == OpenaiRateLimit <==> e.sdk == RateLimit
    ensures GetErrorType(e) == OpenaiAuth <==> e.sdk == Authentication
    ensures GetErrorType(e) == OpenaiBadRequest <==> e.sdk == BadRequest
    ensures GetErrorType(e) == OpenaiNotFound <==> e.sdk == NotFound
    ensures GetErrorType(e) == NetworkError <==> e.sdk == NoSdkClass && LooksLikeNetwork(e)
    ensures GetErrorType(e) == FileTooLarge <==> e.sdk == NoSdkClass && !LooksLikeNetwork(e) && SaysTooLarge(e)
    ensures GetErrorType(e) == FileUnsupported <==>
              e.sdk == NoSdkClass && !LooksLikeNetwork(e) && !SaysTooLarge(e) && SaysUnsupported(e)
    ensures GetErrorType(e) == UnknownError <==>
              e.sdk == NoSdkClass && !LooksLikeNetwork(e) && !SaysTooLarge(e) && !SaysUnsupported(e)
  {
  }

  /** The text is matched without regard to case: `"File TOO LARGE"` and `"Слишком БОЛЬШОЙ"`
      are both "too large". */
  lemma TooLargeIgnoresCase(e: Exception, prefix: string, suffix: string)
    requires e.sdk == NoSdkClass && !LooksLikeNetwork(e)
    requires e.text == prefix + "TOO LARGE" + suffix || e.text == prefix + "БОЛЬШОЙ" + suffix
    ensures GetErrorType(e) == FileTooLarge
  {
    var low := Text.Lower(e.text);
    var lp := Text.Lower(prefix);
    var ls := Text.Lower(suffix);
    if e.text == prefix + "TOO LARGE" + suffix {
      assert low == lp + "too large" + ls;
      Text.ContainsMiddle(lp, "too large", ls);
    } else {
      assert low == lp + "большой" + ls;
      Text.ContainsMiddle(lp, "большой", ls);
    }
  }

  // ----- replying ---------------------------------------------------------------------

  /** A send `handle_error` makes: an answer in a chat, or the alert of a callback query. */
  datatype Reply = Answer(chatId: int, text: string) | CallbackAlert(text: string, showAlert: bool)

  /** The sends of `handle_error` with the user text `text`: to the message's chat if there is a
      message, else to the callback's chat followed by an alert, else nothing. */
  function PlannedSends(message: Option<int>, callback: Option<int>, text: string): (r: seq<Reply>)
    ensures |r| <= 2
    ensures message.Some? ==> r == [Answer(message.value, text)]
    ensures message.None? && callback.Some? ==> r == [Answer(callback.value, text), CallbackAlert("❌ Произошла ошибка", true)]
    ensures message.None? && callback.None? ==> r == []
  {
    if message.Some? then [Answer(message.value, text)]
    else if callback.Some? then [Answer(callback.value, text), CallbackAlert("❌ Произошла ошибка", true)]
    else []
  }

  /** What `handle_error` sends for `e`: to the message's chat if there is a message, else to
      the callback's chat followed by an alert, else nothing. */
  function PlannedReplies(e: Exception, message: Option<int>, callback: Option<int>): (r: seq<Reply>)
    ensures message.Some? ==> r == [Answer(message.value, Info(GetErrorType(e)).userMessage)]
    ensures message.None? && callback.Some? ==>
              r == [Answer(callback.value, Info(GetErrorType(e)).userMessage), CallbackAlert("❌ Произошла ошибка", true)]
    ensures message.None? && callback.None? ==> r == []
  {
    PlannedSends(message, callback, Info(GetErrorType(e)).userMessage)
  }

  /** `handle_error`: the planned sends until the first one that fails (`delivered` of them
      succeed); the failure is logged and never raised. */
  function HandleError(e: Exception, message: Option<int>, callback: Option<int>, delivered: nat): (r: seq<Reply>)
    ensures |r| == if delivered < |PlannedReplies(e, message, callback)| then delivered else |PlannedReplies(e, message, callback)|
    ensures r == PlannedReplies(e, message, callback)[..|r|]
  {
    Delivered(PlannedReplies(e, message, callback), delivered)
  }

  /** The sends that go out when the send after the first `delivered` ones fails. */
  function Delivered(planned: seq<Reply>, delivered: nat): (r: seq<Reply>)
    ensures |r| == if delivered < |planned| then delivered else |planned|
    ensures r == planned[..|r|]
  {
    if delivered < |planned| then planned[..delivered] else planned
  }

  /** The same sends with another user text differ only in their answers' text. */
  lemma SendsWithText(message: Option<int>, callback: Option<int>, text: string, other: string, delivered: nat)
    ensures var r, h := Delivered(PlannedSends(message, callback, text), delivered), Delivered(PlannedSends(message, callback, other), delivered);
            |r| == |h| && forall k :: 0 <= k < |r| ==> r[k] == WithAnswerText(h[k], text)
  {
  }

  /** The `FILE_TOO_LARGE` text reaches the user with its `{}` placeholder unfilled. */
  lemma FileTooLargePlaceholderSent(e: Exception, chatId: int)
    requires GetErrorType(e) == FileTooLarge
    ensures HandleError(e, Some(chatId), None, 1) == [Answer(chatId, FileTooLargeHead + "{}" + FileTooLargeTail)]
    ensures Text.Contains(HandleError(e, Some(chatId), None, 1)[0].text, "{}")
  {
    Text.ContainsMiddle(FileTooLargeHead, "{}", FileTooLargeTail);
  }

  /** The user text with the size limit filled in. */
  function UserMessageWithLimit(t: ErrorType, maxFileMb: int): (s: string)
    ensures t == FileTooLarge ==> s == FileTooLargeHead + Text.IntToString(maxFileMb) + FileTooLargeTail
    ensures t != FileTooLarge ==> s == Info(t).userMessage
  {
    if t == FileTooLarge then FileTooLargeHead + Text.IntToString(maxFileMb) + FileTooLargeTail
    else Info(t).userMessage
  }

  /** A send with the answer's text replaced; an alert is kept. */
  function WithAnswerText(reply: Reply, text: string): Reply {
    if reply.Answer? then Answer(reply.chatId, text) else reply
  }

  /** `handle_error` with the placeholder filled from the configured limit: the same sends to the
      same targets as `handle_error`, each answer carrying the filled-in text. */
  function HandleErrorWithLimit(e: Exception, message: Option<int>, callback: Option<int>, delivered: nat, maxFileMb: int): (r: seq<Reply>)
    ensures |r| == |HandleError(e, message, callback, delivered)|
    ensures forall k :: 0 <= k < |r| ==>
              r[k] == WithAnswerText(HandleError(e, message, callback, delivered)[k], UserMessageWithLimit(GetErrorType(e), maxFileMb))
    ensures (message.Some? || callback.Some?) && delivered >= 1 ==>
              r[0] == Answer(if message.Some? then message.value else callback.value, UserMessageWithLimit(GetErrorType(e), maxFileMb))
  {
    var text := UserMessageWithLimit(GetErrorType(e), maxFileMb);
    SendsWithText(message, callback, text, Info(GetErrorType(e)).userMessage, delivered);
    Delivered(PlannedSends(message, callback, text), delivered)
  }

  /** With the placeholder filled, the number the user reads back is the limit. */
  lemma LimitReadBack(maxFileMb: int)
    ensures var text := UserMessageWithLimit(FileTooLarge, maxFileMb);
      |text| >= |FileTooLargeHead| + |FileTooLargeTail|
      && text[..|FileTooLargeHead|] == FileTooLargeHead
      && Text.ParseInt(text[|FileTooLargeHead|..|text| - |FileTooLargeTail|]) == Some(maxFileMb)
  {
    var digits := Text.IntToString(maxFileMb);
    var text := FileTooLargeHead + digits + FileTooLargeTail;
    assert text[|FileTooLargeHead|..|text| - |FileTooLargeTail|] == digits;
    Text.ParseIntToString(maxFileMb);
  }

  /** Filling the placeholder changes the `FILE_TOO_LARGE` reply only. */
  lemma OnlyFileTooLargeChanges(e: Exception, message: Option<int>, callback: Option<int>, delivered: nat, maxFileMb: int)
    requires GetErrorType(e) != FileTooLarge
    ensures HandleErrorWithLimit(e, message, callback, delivered, maxFileMb) == HandleError(e, message, callback, delivered)
  {
  }

  // ----- the decorator ----------------------------------------------------------------

  /** A positional argument of a handler: a `Message`, a `CallbackQuery`, or anything else;
      messages and callbacks carry the chat they answer in. */
  datatype Arg = MessageArg(chatId: int) | CallbackArg(chatId: int) | OtherArg

  /** The index of the first argument that is a message or a callback query. */
  function FirstTelegramArg(args: seq<Arg>): (r: Option<nat>)
    ensures r.Some? ==> r.value < |args| && !args[r.value].OtherArg?
    ensures r.Some? ==> forall k :: 0 <= k < r.value ==> args[k].OtherArg?
    ensures r.None? ==> forall k :: 0 <= k < |args| ==> args[k].OtherArg?
  {
    if args == [] then None
    else if !args[0].OtherArg? then Some(0)
    else match FirstTelegramArg(args[1..])
      case None => None
      case Some(k) => Some(k + 1)
  }

  /** The argument scan of `error_handler`'s wrapper: the first message or callback query found
      fixes the reply target and ends the scan, so at most one of the two is set. */
  method FindReplyTarget(args: seq<Arg>) returns (message: Option<int>, callback: Option<int>)
    ensures !(message.Some? && callback.Some?)
    ensures message.Some? <==> FirstTelegramArg(args).Some? && args[FirstTelegramArg(args).value].MessageArg?
    ensures callback.Some? <==> FirstTelegramArg(args).Some? && args[FirstTelegramArg(args).value].CallbackArg?
    ensures FirstTelegramArg(args).Some? ==>
              (message.Some? || callback.Some?)
              && (message.Some? ==> message.value == args[FirstTelegramArg(args).value].chatId)
              && (callback.Some? ==> callback.value == args[FirstTelegramArg(args).value].chatId)
  {
    message, callback := None, None;
    var i := 0;
    while i < |args|
      invariant 0 <= i <= |args|
      invariant forall k :: 0 <= k < i ==> args[k].OtherArg?
      invariant message == None && callback == None
    {
      match args[i] {
        case MessageArg(chatId) =>
          message := Some(chatId);
          FirstIsHere(args, i);
          break;
        case CallbackArg(chatId) =>
          callback := Some(chatId);
          FirstIsHere(args, i);
          break;
        case OtherArg =>
      }
      i := i + 1;
    }
  }

  lemma FirstIsHere(args: seq<Arg>, i: nat)
    requires i < |args| && !args[i].OtherArg?
    requires forall k :: 0 <= k < i ==> args[k].OtherArg?
    ensures FirstTelegramArg(args) == Some(i)
  {
  }

  /** How the wrapped handler ends: with a value, or by raising `e`. */
  datatype HandlerOutcome<T> = Returned(value: T) | Raised(e: Exception)

  /** `error_handler(context)(func)(*args)`: the handler's value, or None after `handle_error`
      has replied to the target found among the arguments. */
  method Wrapper<T>(outcome: HandlerOutcome<T>, args: seq<Arg>, delivered: nat) returns (result: Option<T>, replies: seq<Reply>)
    ensures outcome.Returned? ==> result == Some(outcome.value) && replies == []
    ensures outcome.Raised? ==> result == None
    ensures outcome.Raised? && FirstTelegramArg(args).None? ==> replies == []
    ensures outcome.Raised? && FirstTelegramArg(args).Some? && delivered >= 1 ==>
              |replies| >= 1 && replies[0] == Answer(args[FirstTelegramArg(args).value].chatId, Info(GetErrorType(outcome.e)).userMessage)
    ensures outcome.Raised? ==>
              var i := FirstTelegramArg(args);
              replies == HandleError(outcome.e,
                                     if i.Some? && args[i.value].MessageArg? then Some(args[i.value].chatId) else None,
                                     if i.Some? && args[i.value].CallbackArg? then Some(args[i.value].chatId) else None,
                                     delivered)
  {
    match outcome {
      case Returned(v) =>
        return Some(v), [];
      case Raised(e) =>
        var message, callback := FindReplyTarget(args);
        replies := HandleError(e, message, callback, delivered);
        result := None;
    }
  }
}
