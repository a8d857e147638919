/**
 * The assistant's system prompts: the full prompt sent when a conversation starts
 * and the short one sent with each later request, each made of the time-zone
 * introduction and an instruction about reminder tools or self-calls.
 */
module Prompts {

  /** `timezone_intro`. */
  const TimezoneIntro: string := "По умолчанию предполагай часовой пояс пользователя Europe/Moscow. Если видишь в диалоге явные признаки другого пояса (город, текущее время, GMT±X) — уточни и установи через tool set_timezone. Спрашивай про город или текущее время только один раз при первом общении, не злоупотребляй напоминаниями."

  const ReminderToolsText: string := "Напоминания: используй function-tool \'schedule_reminder\' с полями when (ISO8601 с TZ или \'in 5m/2h/1d\'), text (до 200 символов), silent (true/false). Для последовательных цепочек добавь опциональный объект chain: {next_offset_seconds:int, next_at:\'YYYY-MM-DD HH:MM:SS\', steps:int, end_at:\'YYYY-MM-DD HH:MM:SS\', silent?:bool}. Выбор инструментов — автоматический (tool_choice=auto): модель сама решает, когда вызывать функцию, а когда ответить текстом. Если пользователь просит несколько напоминаний, вызови schedule_reminder несколько раз в одном ответе первого шага (пакетом) или используй пакетный инструмент. Создавай разумное количество напоминаний и не спамь пользователя; при неопределённости уточни детали. Не отправляй отдельные сообщения-подтверждения — бот покажет итоговые подтверждения самостоятельно."

  const ReminderToolsShortText: string := "Для напоминаний используй schedule_reminder/schedule_reminders."

  const SelfCallText: string := "Это автономное сообщение ассистента (самовызов). Сформируй одно короткое понятное сообщение для пользователя. Если уместно продолжение позже, добавь в самом конце сообщения JSON‑маркер в HTML‑комментарии: \n<!--self_call:{\"in\":\"in 30m\",\"topic\":\"<тема>\",\"payload\":{...}}--> или <!--self_call:{\"at\":\"YYYY-MM-DD HH:MM:SS\",\"topic\":\"...\"}-->. Не добавляй никакого текста после комментария."

  const SelfCallShortText: string := "Это автономное сообщение ассистента. Если нужно продолжение, добавь в конце <!--self_call:{...}-->."

  /** `reminder_tools_instr_long`: a paragraph of its own, after a blank line. */
  function ReminderToolsInstrLong(): (s: string)
    ensures |s| >= 2 && s[..2] == "\n\n" && s[2..] == ReminderToolsText
  {
    "\n\n" + ReminderToolsText
  }

  /** `reminder_tools_instr_short`: one more sentence after a space. */
  function ReminderToolsInstrShort(): (s: string)
    ensures |s| >= 1 && s[0] == ' ' && s[1..] == ReminderToolsShortText
  {
    " " + ReminderToolsShortText
  }

  /** `self_call_instr_long`: a paragraph of its own, after a blank line. */
  function SelfCallInstrLong(): (s: string)
    ensures |s| >= 2 && s[..2] == "\n\n" && s[2..] == SelfCallText
  {
    "\n\n" + SelfCallText
  }

  /** `self_call_instr_short`: one more sentence after a space. */
  function SelfCallInstrShort(): (s: string)
    ensures |s| >= 1 && s[0] == ' ' && s[1..] == SelfCallShortText
  {
    " " + SelfCallShortText
  }

  /** `build_initial_system_prompt(include_reminder_tools)` with `settings.system_prompt` = `base`:
      the base prompt, a blank line, the time-zone introduction, then the long instruction. */
  function BuildInitialSystemPrompt(base: string, includeReminderTools: bool): (r: string)
    ensures |r| >= |base| + 2 + |TimezoneIntro| && r[..|base|] == base
    ensures r[|base|..|base| + 2] == "\n\n"
    ensures r[|base| + 2..|base| + 2 + |TimezoneIntro|] == TimezoneIntro
    ensures r[|base| + 2 + |TimezoneIntro|..] == if includeReminderTools then ReminderToolsInstrLong() else SelfCallInstrLong()
  {
    var extra := if includeReminderTools then ReminderToolsInstrLong() else SelfCallInstrLong();
    base + "\n\n" + TimezoneIntro + extra
  }

  /** `build_per_request_system_prompt(include_reminder_tools)`: the time-zone introduction and
      the short instruction; no base prompt. */
  function BuildPerRequestSystemPrompt(includeReminderTools: bool): (r: string)
    ensures |r| >= |TimezoneIntro| && r[..|TimezoneIntro|] == TimezoneIntro
    ensures r[|TimezoneIntro|..] == if includeReminderTools then ReminderToolsInstrShort() else SelfCallInstrShort()
  {
    var extra := if includeReminderTools then ReminderToolsInstrShort() else SelfCallInstrShort();
    TimezoneIntro + extra
  }

  /** The instruction is separated from the introduction: by a blank line in the initial
      prompt, by a space in the per-request one; and the per-request prompt is the tail of the
      initial one with the long instruction swapped for the short one. */
  lemma PromptSeparators(base: string, includeReminderTools: bool)
    ensures var r := BuildInitialSystemPrompt(base, includeReminderTools);
      r[|base| + 2 + |TimezoneIntro|..|base| + 4 + |TimezoneIntro|] == "\n\n"
    ensures BuildPerRequestSystemPrompt(includeReminderTools)[|TimezoneIntro|] == ' '
    ensures BuildInitialSystemPrompt(base, includeReminderTools)[|base| + 2..|base| + 2 + |TimezoneIntro|]
         == BuildPerRequestSystemPrompt(includeReminderTools)[..|TimezoneIntro|]
  {
    var r := BuildInitialSystemPrompt(base, includeReminderTools);
    var extra := if includeReminderTools then ReminderToolsInstrLong() else SelfCallInstrLong();
    assert r[|base| + 2 + |TimezoneIntro|..][..2] == extra[..2];
  }
}
