/**
 * The document handler: the size and type checks on an uploaded file, the label and
 * caption it is announced with, the request that carries it to the model, and the
 * replies that bring the analysis back, cut into parts when it is long. Telegram,
 * the download and the model are outcomes passed in as parameters.
 */
module Document {
  import opened Wrappers
  import Text
  import Db

  /** The document types with a label of their own, in table order. */
  const SupportedDocumentTypes: seq<(string, string)> := [
    ("application/pdf", "📄 PDF"),
    ("application/vnd.openxmlformats-officedocument.wordprocessingml.document", "📝 Word документ"),
    ("application/msword", "📝 Word документ"),
    ("text/plain", "📄 Текстовый файл"),
    ("text/csv", "📊 CSV файл"),
    ("text/markdown", "📄 Markdown"),
    ("application/json", "📄 JSON файл")
  ]

  /** Extensions accepted whatever the mime type. */
  const SupportedExtensions: seq<string> := ["pdf", "docx", "doc", "txt", "csv", "md", "json"]

  /** Mime types whose content is decoded and sent as text. */
  const TextMimeTypes: seq<string> := ["text/plain", "text/csv", "text/markdown", "application/json"]

  const DefaultCaption: string := "Проанализируй этот документ"
  const TruncationLimit: nat := 100000
  const TruncationMarker: string := "\n\n... (файл обрезан)"
  const ReplyLimit: nat := 4000
  const PartSize: nat := 3800

  /** What Telegram says about the file; each field may be missing. */
  datatype TgDocument = TgDocument(fileSize: Option<int>, mimeType: Option<string>, fileName: Option<string>)

  /** How an f-string shows an optional string. */
  function Shown(v: Option<string>): string {
    match v
    case Some(s) => s
    case None => "None"
  }

  // ----- checks ----------------------------------------------------------------------------

  /** The size limit in megabytes: the configured one, but never above 100. */
  function MaxSizeMb(maxFileMb: int): (m: int)
    ensures m <= 100 && m <= maxFileMb && (m == 100 || m == maxFileMb)
  {
    if maxFileMb < 100 then maxFileMb else 100
  }

  /** A file is refused as too large iff it has more bytes than the limit. */
  predicate TooLarge(fileSize: int, maxFileMb: int) {
    fileSize > MaxSizeMb(maxFileMb) * 1024 * 1024
  }

  /** The label of a mime type in the table, if it has one. */
  function LabelOf(mime: Option<string>, table: seq<(string, string)>): (r: Option<string>)
    ensures r.Some? <==> mime.Some? && exists k :: 0 <= k < |table| && table[k].0 == mime.value
    ensures r.Some? ==> exists k :: 0 <= k < |table| && table[k] == (mime.value, r.value)
  {
    if table == [] || mime.None? then None
    else if table[0].0 == mime.value then Some(table[0].1)
    else
      var r := LabelOf(mime, table[1..]);
      assert r.Some? ==> exists k :: 0 <= k < |table[1..]| && table[1..][k] == (mime.value, r.value);
      r
  }

  /** The text after the last `'.'` of the lowercased file name; `""` without a name. */
  function Extension(fileName: Option<string>): string {
    if Db.Truthy(fileName) then
      var parts := Text.Split(Text.Lower(fileName.value), '.');
      parts[|parts| - 1]
    else ""
  }

  /** `suffix` ends `t`, and either is all of `t` or follows a `sep`. */
  predicate EndsAfter(t: string, suffix: string, sep: char) {
    |suffix| <= |t| && t[|t| - |suffix|..] == suffix && (|suffix| < |t| ==> t[|t| - |suffix| - 1] == sep)
  }

  /** The extension holds no dot, ends the lowercased name, and follows a dot or is the whole name. */
  lemma ExtensionIsAfterLastDot(fileName: string)
    requires fileName != ""
    ensures '.' !in Extension(Some(fileName))
    ensures EndsAfter(Text.Lower(fileName), Extension(Some(fileName)), '.')
  {
    var lower := Text.Lower(fileName);
    var parts := Text.Split(lower, '.');
    assert Extension(Some(fileName)) == parts[|parts| - 1];
    Text.JoinSplit(lower, '.');
    JoinLast(parts, '.');
  }

  /** The last piece of a join ends it, after a separator when there are several pieces. */
  lemma {:induction false} JoinLast(parts: seq<string>, sep: char)
    requires |parts| >= 1
    ensures EndsAfter(Text.Join(parts, sep), parts[|parts| - 1], sep)
  {
    if |parts| > 1 {
      JoinLast(parts[1..], sep);
      assert parts[1..][|parts[1..]| - 1] == parts[|parts| - 1];
      var j := Text.Join(parts, sep);
      var tail := Text.Join(parts[1..], sep);
      assert j == parts[0] + [sep] + tail;
      assert j[|j| - |tail|..] == tail;
    }
  }

  /** `is_supported`: the mime type is in the table or the extension is one of the accepted ones. */
  predicate IsSupported(mime: Option<string>, ext: string) {
    LabelOf(mime, SupportedDocumentTypes).Some? || ext in SupportedExtensions
  }

  /** The announced type: the table's label, or the extension. */
  function FileTypeLabel(mime: Option<string>, ext: string): (r: string)
    ensures LabelOf(mime, SupportedDocumentTypes).None? ==> r == "📄 файл ." + ext
    ensures LabelOf(mime, SupportedDocumentTypes).Some? ==>
              r == LabelOf(mime, SupportedDocumentTypes).value
              && exists k :: 0 <= k < |SupportedDocumentTypes| && SupportedDocumentTypes[k] == (mime.value, r)
  {
    match LabelOf(mime, SupportedDocumentTypes)
    case Some(name) => name
    case None => "📄 файл ." + ext
  }

  /** The caption of the message, or the fixed request when there is none or it is empty. */
  function Caption(caption: Option<string>): (r: string)
    ensures Db.Truthy(caption) ==> r == caption.value
    ensures !Db.Truthy(caption) ==> r == DefaultCaption
  {
    if Db.Truthy(caption) then caption.value else DefaultCaption
  }

  /** Decoded text past the limit is cut to its first 100000 characters plus the marker. */
  function Truncate(text: string): (r: string)
    ensures |text| <= TruncationLimit ==> r == text
    ensures |text| > TruncationLimit ==> |r| == TruncationLimit + |TruncationMarker|
    ensures |text| > TruncationLimit ==> r[..TruncationLimit] == text[..TruncationLimit] && r[TruncationLimit..] == TruncationMarker
    ensures |r| <= TruncationLimit + |TruncationMarker|
  {
    if |text| > TruncationLimit then text[..TruncationLimit] + TruncationMarker else text
  }

  // ----- replies ---------------------------------------------------------------------------

  /** What the handler does on Telegram: a reply to the document, a plain or Markdown message,
      an edit of its status message, or deleting that message. */
  datatype Action = Reply(text: string) | Answer(text: string, markdown: bool) | EditStatus(text: string) | DeleteStatus

  function TooLargeReply(maxSizeMb: int): string {
    "📄 Файл слишком большой (>" + Text.IntToString(maxSizeMb) + " МБ)"
  }

  /** `"• label"` per table entry, one per line. */
  function SupportedList(): string {
    Text.Join(seq(|SupportedDocumentTypes|, k requires 0 <= k < |SupportedDocumentTypes| => "• " + SupportedDocumentTypes[k].1), '\n')
  }

  function UnsupportedReply(): string {
    "📄 **Неподдерживаемый тип файла.**\n\n**Поддерживаются:**\n" + SupportedList()
    + "\n\n💡 **Для других форматов:** конвертируйте в PDF или текст"
  }

  /** The response cut into consecutive slices of `size` characters. */
  function Chunks(s: string, size: nat): seq<string>
    requires size > 0
    decreases |s|
  {
    if s == [] then []
    else if |s| <= size then [s]
    else [s[..size]] + Chunks(s[size..], size)
  }

  function Concat(parts: seq<string>): string {
    if parts == [] then "" else parts[0] + Concat(parts[1..])
  }

  /** The slices put back together are the response. */
  lemma {:induction false} ChunksConcat(s: string, size: nat)
    requires size > 0
    ensures Concat(Chunks(s, size)) == s
    decreases |s|
  {
    if s != [] && |s| > size {
      ChunksConcat(s[size..], size);
      var rest := Chunks(s[size..], size);
      assert ([s[..size]] + rest)[1..] == rest;
      assert s == s[..size] + s[size..];
    }
  }

  /** Each slice is non-empty and at most `size` long. */
  lemma {:induction false} ChunksBounded(s: string, size: nat)
    requires size > 0
    ensures forall k :: 0 <= k < |Chunks(s, size)| ==> 0 < |Chunks(s, size)[k]| <= size
    decreases |s|
  {
    if s != [] && |s| > size {
      ChunksBounded(s[size..], size);
      var rest := Chunks(s[size..], size);
      assert forall k :: 1 <= k < |Chunks(s, size)| ==> Chunks(s, size)[k] == rest[k - 1];
    }
  }

  /** Every slice but the last is exactly `size` long, so the cuts fall at multiples of `size`. */
  lemma {:induction false} ChunksFull(s: string, size: nat)
    requires size > 0
    ensures forall k :: 0 <= k < |Chunks(s, size)| - 1 ==> |Chunks(s, size)[k]| == size
    decreases |s|
  {
    if s != [] && |s| > size {
      ChunksFull(s[size..], size);
      var rest := Chunks(s[size..], size);
      assert forall k :: 1 <= k < |Chunks(s, size)| ==> Chunks(s, size)[k] == rest[k - 1];
    }
  }

  /** The header of the analysis. */
  function ResultHeader(fileName: Option<string>): string {
    "📄 **Анализ файла " + Shown(fileName) + ":**"
  }

  function PartMessage(index: nat, chunk: string): string {
    "**Часть " + Text.IntToString(index) + ":**\n\n" + chunk
  }

  /** The messages that carry the analysis: one message when the whole text fits in 4000
      characters, else the header and then the numbered parts. */
  function ResultReplies(fileName: Option<string>, response: string): seq<Action> {
    var resultText := ResultHeader(fileName) + "\n\n" + response;
    if |resultText| > ReplyLimit then
      var chunks := Chunks(response, PartSize);
      [Answer(ResultHeader(fileName), true)]
      + seq(|chunks|, k requires 0 <= k < |chunks| => Answer(PartMessage(k + 1, chunks[k]), true))
    else [Answer(resultText, true)]
  }

  /** A long analysis goes out as parts numbered from 1, whose slices rebuild it and fit in 3800
      characters, all but the last filling them; a short one goes out whole. */
  lemma ResultRepliesParts(fileName: Option<string>, response: string)
    ensures |ResultHeader(fileName) + "\n\n" + response| <= ReplyLimit ==>
              ResultReplies(fileName, response) == [Answer(ResultHeader(fileName) + "\n\n" + response, true)]
    ensures |ResultHeader(fileName) + "\n\n" + response| > ReplyLimit ==>
              var replies := ResultReplies(fileName, response);
              var chunks := Chunks(response, PartSize);
              |replies| == 1 + |chunks| && replies[0] == Answer(ResultHeader(fileName), true)
              && Concat(chunks) == response
              && forall k :: 0 <= k < |chunks| ==>
                   replies[k + 1] == Answer(PartMessage(k + 1, chunks[k]), true) && 0 < |chunks[k]| <= PartSize
                   && (k < |chunks| - 1 ==> |chunks[k]| == PartSize)
  {
    if |ResultHeader(fileName) + "\n\n" + response| > ReplyLimit {
      LongResultReplies(fileName, response);
    }
  }

  lemma LongResultReplies(fileName: Option<string>, response: string)
    requires |ResultHeader(fileName) + "\n\n" + response| > ReplyLimit
    ensures var replies := ResultReplies(fileName, response);
            var chunks := Chunks(response, PartSize);
            |replies| == 1 + |chunks| && replies[0] == Answer(ResultHeader(fileName), true)
            && Concat(chunks) == response
            && forall k :: 0 <= k < |chunks| ==>
                 replies[k + 1] == Answer(PartMessage(k + 1, chunks[k]), true) && 0 < |chunks[k]| <= PartSize
                 && (k < |chunks| - 1 ==> |chunks[k]| == PartSize)
  {
    var chunks := Chunks(response, PartSize);
    var replies := ResultReplies(fileName, response);
    assert replies == [Answer(ResultHeader(fileName), true)]
      + seq(|chunks|, k requires 0 <= k < |chunks| => Answer(PartMessage(k + 1, chunks[k]), true));
    ChunksConcat(response, PartSize);
    ChunksBounded(response, PartSize);
    ChunksFull(response, PartSize);
    forall k | 0 <= k < |chunks|
      ensures replies[k + 1] == Answer(PartMessage(k + 1, chunks[k]), true)
    {
    }
  }

  // ----- the handler -----------------------------------------------------------------------

  /** What the model is asked: text only, or an uploaded file with a text. */
  datatype Request = TextOnly(text: string) | FileAndText(text: string)

  /** A byte of the downloaded file. */
  newtype Byte = x: int | 0 <= x < 256

  /** `data.decode("iso-8859-1")`: each byte becomes the character with the same code. */
  function Latin1Decode(data: seq<Byte>): (s: string)
    ensures |s| == |data|
    ensures forall k :: 0 <= k < |data| ==> s[k] as int == data[k] as int
  {
    seq(|data|, k requires 0 <= k < |data| => (data[k] as int) as char)
  }

  /** `s.encode("iso-8859-1")` for a text whose characters are all below 256. */
  function Latin1Encode(s: string): (data: seq<Byte>)
    requires forall k :: 0 <= k < |s| ==> s[k] as int < 256
    ensures |data| == |s|
    ensures forall k :: 0 <= k < |s| ==> data[k] as int == s[k] as int
  {
    seq(|s|, k requires 0 <= k < |s| => (s[k] as int) as Byte)
  }

  /** iso-8859-1 decodes every byte string, and encoding the text gives the bytes back. */
  lemma Latin1RoundTrip(data: seq<Byte>)
    ensures Latin1Encode(Latin1Decode(data)) == data
  {
  }

  /** The text a text file is sent with: `earlier` says how `utf-8`, `utf-8-sig` and `cp1251`
      decode the bytes (`None` on a `UnicodeDecodeError`); the first that succeeds wins, and
      `iso-8859-1`, tried last, never fails. */
  function DecodedText(earlier: seq<Option<string>>, data: seq<Byte>): (s: string)
    ensures FirstSome(earlier + [Some(Latin1Decode(data))]) == Some(s)
    ensures (forall k :: 0 <= k < |earlier| ==> earlier[k].None?) ==> s == Latin1Decode(data)
  {
    var attempts := earlier + [Some(Latin1Decode(data))];
    assert attempts[|earlier|].Some?;
    assert forall k :: 0 <= k < |earlier| ==> attempts[k] == earlier[k];
    FirstSome(attempts).value
  }

  /** The loop over the encodings: it stops at the first that decodes the bytes, and always
      finds one, so the `UnicodeDecodeError` raised after it when none fits is never reached. */
  method DecodeContent(earlier: seq<Option<string>>, data: seq<Byte>) returns (text: Option<string>)
    ensures text == Some(DecodedText(earlier, data))
  {
    var attempts := earlier + [Some(Latin1Decode(data))];
    text := None;
    var i := 0;
    while i < |attempts|
      invariant 0 <= i <= |attempts|
      invariant text.None? && FirstSome(attempts) == FirstSome(attempts[i..])
    {
      if attempts[i].Some? {
        text := attempts[i];
        break;
      }
      assert attempts[i..][1..] == attempts[i + 1..];
      i := i + 1;
    }
    if text.None? {
      assert attempts[i..] == [];
    }
  }

  /** The request for an accepted document: text types go as their decoded (and truncated) text,
      every other type as an uploaded file. */
  function RequestFor(mime: Option<string>, content: string, caption: string, fileName: Option<string>): (r: Request)
    ensures r.TextOnly? <==> mime.Some? && mime.value in TextMimeTypes
    ensures r.FileAndText? ==> Text.StartsWith(r.text, caption)
  {
    if mime.Some? && mime.value in TextMimeTypes then
      TextOnly(caption + "\n\n**Файл:** " + Shown(fileName) + "\n**Содержимое:**\n```\n" + Truncate(content) + "\n```")
    else FileAndText(caption + "\n\nФайл: " + Shown(fileName))
  }

  /** A text request carries the decoded text, truncated, between code fences. */
  lemma TextRequestCarriesContent(mime: Option<string>, text: string, caption: string, fileName: Option<string>)
    requires mime.Some? && mime.value in TextMimeTypes
    ensures RequestFor(mime, text, caption, fileName).TextOnly?
    ensures Text.Contains(RequestFor(mime, text, caption, fileName).text, "```\n" + Truncate(text) + "\n```")
  {
    var a := caption + "\n\n**Файл:** " + Shown(fileName) + "\n**Содержимое:**\n";
    Text.ContainsMiddle(a, "```\n" + Truncate(text) + "\n```", "");
    assert a + ("```\n" + Truncate(text) + "\n```") + "" == RequestFor(mime, text, caption, fileName).text;
  }

  /** The steps after the checks that can fail. */
  datatype Stage = GettingFile | Downloading | Requesting

  /** How a step fails: the model refusing the request, a download error, a timeout, or anything else. */
  datatype Fault = BadRequest(text: string) | ClientError | ApiTimeout | OtherFault(text: string)

  const NoTextExtracted: string :=
    "❌ Не удалось извлечь текст из файла.\n\n💡 **Возможные причины:**\n• Файл содержит только изображения (сканированный PDF)\n• Файл поврежден или зашифрован\n\n**Попробуйте:**\n• Сделать скриншоты страниц и отправить как изображения\n• Конвертировать в текстовый формат"
  const DownloadFailed: string := "❌ Ошибка загрузки файла. Попробуйте позже."
  const TimedOut: string := "⏳ Время ожидания ответа от OpenAI истекло. Попробуйте ещё раз позже."
  const UnexpectedNoStatus: string := "❌ Произошла непредвиденная ошибка при обработке документа."

  /** The message a fault ends with: an edit of the status message when it exists, else a new
      message. */
  function FaultAction(f: Fault, hasStatus: bool): (a: Action)
    ensures hasStatus <==> a.EditStatus?
    ensures !a.DeleteStatus? && !a.Reply?
    ensures f.ApiTimeout? ==> a.text == TimedOut
    ensures f.ClientError? ==> a.text == DownloadFailed
  {
    match f
    case BadRequest(e) =>
      if !hasStatus then Answer("❌ Ошибка обработки файла: " + e, false)
      else if Text.Contains(Text.Lower(e), "no text could be extracted") then EditStatus(NoTextExtracted)
      else EditStatus("❌ Ошибка обработки файла: " + e)
    case ClientError => if hasStatus then EditStatus(DownloadFailed) else Answer(DownloadFailed, false)
    case ApiTimeout => if hasStatus then EditStatus(TimedOut) else Answer(TimedOut, false)
    case OtherFault(e) =>
      if hasStatus then EditStatus("❌ Произошла непредвиденная ошибка: " + (if |e| <= 100 then e else e[..100]) + "...")
      else Answer(UnexpectedNoStatus, false)
  }

  /** The document passes the size and type checks. */
  predicate Accepted(doc: TgDocument, maxFileMb: int) {
    doc.fileSize.Some? && !TooLarge(doc.fileSize.value, maxFileMb) && IsSupported(doc.mimeType, Extension(doc.fileName))
  }

  /** The status message announcing the upload, and its edit once the file is downloaded. */
  function Loading(doc: TgDocument): Action {
    Answer("📄 Загружаю " + FileTypeLabel(doc.mimeType, Extension(doc.fileName)) + " в OpenAI...", false)
  }

  function Processing(doc: TgDocument): Action {
    EditStatus("📄 Обрабатываю " + FileTypeLabel(doc.mimeType, Extension(doc.fileName)) + "...")
  }

  /** Sends the analysis: whole, or the header and then each part in order. */
  method SendResult(fileName: Option<string>, response: string) returns (actions: seq<Action>)
    ensures actions == ResultReplies(fileName, response)
  {
    var resultText := ResultHeader(fileName) + "\n\n" + response;
    if |resultText| > ReplyLimit {
      actions := [Answer(ResultHeader(fileName), true)];
      var chunks := Chunks(response, PartSize);
      var i := 0;
      while i < |chunks|
        invariant 0 <= i <= |chunks|
        invariant actions == [Answer(ResultHeader(fileName), true)]
                             + seq(i, k requires 0 <= k < i => Answer(PartMessage(k + 1, chunks[k]), true))
      {
        actions := actions + [Answer(PartMessage(i + 1, chunks[i]), true)];
        i := i + 1;
      }
    } else {
      actions := [Answer(resultText, true)];
    }
  }

  /** `handle_document` for a document, its caption, the configured limit, the step that fails
      (if any), the downloaded bytes with what the first three encodings make of them, and the model's
      answer. Returns what is sent on Telegram, in order, and the request made, if any. */
  method HandleDocument(doc: TgDocument, caption: Option<string>, maxFileMb: int,
                        fault: Option<(Stage, Fault)>, earlier: seq<Option<string>>, data: seq<Byte>, response: string)
    returns (actions: seq<Action>, request: Option<Request>)
    ensures doc.fileSize.None? ==> actions == [Answer(UnexpectedNoStatus, false)] && request.None?
    ensures doc.fileSize.Some? && TooLarge(doc.fileSize.value, maxFileMb) ==>
              actions == [Reply(TooLargeReply(MaxSizeMb(maxFileMb)))] && request.None?
    ensures doc.fileSize.Some? && !TooLarge(doc.fileSize.value, maxFileMb) && !IsSupported(doc.mimeType, Extension(doc.fileName)) ==>
              actions == [Reply(UnsupportedReply())] && request.None?
    ensures request.Some? ==> request.value == RequestFor(doc.mimeType, DecodedText(earlier, data), Caption(caption), doc.fileName)
    ensures Accepted(doc, maxFileMb) && fault.None? ==>
              request.Some? && actions == [Loading(doc), Processing(doc), DeleteStatus] + ResultReplies(doc.fileName, response)
    ensures Accepted(doc, maxFileMb) && fault.Some? && fault.value.0 == GettingFile ==>
              request.None? && actions == [FaultAction(fault.value.1, false)]
    ensures Accepted(doc, maxFileMb) && fault.Some? && fault.value.0 == Downloading ==>
              request.None? && actions == [Loading(doc), FaultAction(fault.value.1, true)]
    ensures Accepted(doc, maxFileMb) && fault.Some? && fault.value.0 == Requesting ==>
              request.Some? && actions == [Loading(doc), Processing(doc), FaultAction(fault.value.1, true)]
  {
    request := None;
    if doc.fileSize.None? {
      // comparing None with a number raises before any status message exists
      return [Answer(UnexpectedNoStatus, false)], None;
    }
    var maxSizeMb := MaxSizeMb(maxFileMb);
    if doc.fileSize.value > maxSizeMb * 1024 * 1024 {
      return [Reply(TooLargeReply(maxSizeMb))], None;
    }
    var ext := Extension(doc.fileName);
    if !IsSupported(doc.mimeType, ext) {
      return [Reply(UnsupportedReply())], None;
    }
    actions, request := ProcessAccepted(doc, caption, fault, earlier, data, response);
  }

  /** The steps of `handle_document` after the size and type checks: fetch the file, announce it,
      download it, ask the model and send the answer, stopping at the step that fails. */
  method ProcessAccepted(doc: TgDocument, caption: Option<string>,
                         fault: Option<(Stage, Fault)>, earlier: seq<Option<string>>, data: seq<Byte>, response: string)
    returns (actions: seq<Action>, request: Option<Request>)
    ensures request.Some? ==> request.value == RequestFor(doc.mimeType, DecodedText(earlier, data), Caption(caption), doc.fileName)
    ensures fault.None? ==>
              request.Some? && actions == [Loading(doc), Processing(doc), DeleteStatus] + ResultReplies(doc.fileName, response)
    ensures fault.Some? && fault.value.0 == GettingFile ==> request.None? && actions == [FaultAction(fault.value.1, false)]
    ensures fault.Some? && fault.value.0 == Downloading ==>
              request.None? && actions == [Loading(doc), FaultAction(fault.value.1, true)]
    ensures fault.Some? && fault.value.0 == Requesting ==>
              request.Some? && actions == [Loading(doc), Processing(doc), FaultAction(fault.value.1, true)]
  {
    var fileType := FileTypeLabel(doc.mimeType, Extension(doc.fileName));
    var text := Caption(caption);
    if fault.Some? && fault.value.0 == GettingFile {
      return [FaultAction(fault.value.1, false)], None;
    }
    actions := [Answer("📄 Загружаю " + fileType + " в OpenAI...", false)];
    assert actions == [Loading(doc)];
    if fault.Some? && fault.value.0 == Downloading {
      return actions + [FaultAction(fault.value.1, true)], None;
    }
    actions := actions + [EditStatus("📄 Обрабатываю " + fileType + "...")];
    assert actions == [Loading(doc), Processing(doc)];
    var built := BuildRequest(doc, text, earlier, data);
    request := Some(built);
    if fault.Some? {
      return actions + [FaultAction(fault.value.1, true)], request;
    }
    actions := actions + [DeleteStatus];
    var replies := SendResult(doc.fileName, response);
    actions := actions + replies;
  }

  /** The request of an accepted document: the bytes are decoded only for a text type. */
  method BuildRequest(doc: TgDocument, caption: string, earlier: seq<Option<string>>, data: seq<Byte>)
    returns (request: Request)
    ensures request == RequestFor(doc.mimeType, DecodedText(earlier, data), caption, doc.fileName)
  {
    var content := "";
    if doc.mimeType.Some? && doc.mimeType.value in TextMimeTypes {
      var decoded := DecodeContent(earlier, data);
      content := decoded.value;
    }
    request := RequestFor(doc.mimeType, content, caption, doc.fileName);
  }
}
