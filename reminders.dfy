/**
 * The reminder scheduler: select the due rows of `reminders`, send each one to
 * its chat, and record `done` or `error` on the row. The clock, Telegram and
 * database failures are parameters.
 */
module Reminders {
  import opened Wrappers
  import Text
  import Db

  /** `Reminder`: the columns `_fetch_due` selects. */
  datatype Reminder = Reminder(id: int, chatId: int, userId: int, text: string, dueAt: string, silent: bool)

  /** A message handed to `bot.send_message`. */
  datatype SentMessage = SentMessage(chatId: int, text: string, disableNotification: bool)

  /** How the three fallible steps of `_handle_one` go: the send, the `done` write, the `error` write. */
  datatype Attempt = Attempt(sendOk: bool, doneWriteOk: bool, errorWriteOk: bool)

  /** The batch size `_loop` passes to `_fetch_due`. */
  const LoopLimit: nat := 5

  /** The prefix put before a reminder's text. */
  const Prefix: string := "🔔 Напоминание: "

  /** The Telegram bot's outgoing messages, in the order they were sent. */
  class Bot {
    var sent: seq<SentMessage>

    constructor ()
      ensures sent == []
    {
      sent := [];
    }
  }

  // ----- comparing `due_at` text as SQLite does ---------------------------------------

  /** `a <= b` between TEXT values: code point order, a proper prefix first. */
  predicate StrLe(a: string, b: string)
    decreases |a|
  {
    a == [] || (b != [] && (a[0] < b[0] || (a[0] == b[0] && StrLe(a[1..], b[1..]))))
  }

  lemma {:induction false} StrLeTotal(a: string, b: string)
    ensures StrLe(a, b) || StrLe(b, a)
    decreases |a|
  {
    if a != [] && b != [] && a[0] == b[0] {
      StrLeTotal(a[1..], b[1..]);
    }
  }

  lemma {:induction false} StrLeTrans(a: string, b: string, c: string)
    requires StrLe(a, b) && StrLe(b, c)
    ensures StrLe(a, c)
    decreases |a|
  {
    if a != [] && b != [] && c != [] && a[0] == b[0] == c[0] {
      StrLeTrans(a[1..], b[1..], c[1..]);
    }
  }

  // ----- `_fetch_due` -------------------------------------------------------------------

  /** The `WHERE` clause of `_fetch_due`. */
  predicate IsDue(row: Db.ReminderRow, nowUtc: string) {
    row.status == "scheduled" && StrLe(row.dueAt, nowUtc)
  }

  function ToReminder(row: Db.ReminderRow): Reminder {
    Reminder(row.id, row.chatId, row.userId, row.text, row.dueAt, row.silent)
  }

  /** The due rows as reminders, in table order. */
  function DueReminders(rows: seq<Db.ReminderRow>, nowUtc: string): (r: seq<Reminder>)
    ensures |r| <= |rows|
  {
    if rows == [] then []
    else DueReminders(rows[..|rows| - 1], nowUtc)
         + (if IsDue(rows[|rows| - 1], nowUtc) then [ToReminder(rows[|rows| - 1])] else [])
  }

  lemma {:induction false} DueRemindersFrom(rows: seq<Db.ReminderRow>, nowUtc: string, r: Reminder)
    ensures r in DueReminders(rows, nowUtc) <==> exists row :: row in rows && IsDue(row, nowUtc) && ToReminder(row) == r
  {
    if rows != [] {
      var last := rows[|rows| - 1];
      DueRemindersFrom(rows[..|rows| - 1], nowUtc, r);
      assert rows == rows[..|rows| - 1] + [last];
      if r in DueReminders(rows, nowUtc) && r !in DueReminders(rows[..|rows| - 1], nowUtc) {
        assert last in rows && IsDue(last, nowUtc) && ToReminder(last) == r;
      }
    }
  }

  predicate SortedByDueAt(s: seq<Reminder>) {
    forall i, j :: 0 <= i < j < |s| ==> StrLe(s[i].dueAt, s[j].dueAt)
  }

  /** Puts `x` before the first reminder that is not due earlier than it. */
  function InsertByDueAt(x: Reminder, s: seq<Reminder>): (r: seq<Reminder>)
    ensures multiset(r) == multiset(s) + multiset{x}
  {
    if s == [] || StrLe(x.dueAt, s[0].dueAt) then [x] + s
    else
      assert s == [s[0]] + s[1..];
      [s[0]] + InsertByDueAt(x, s[1..])
  }

  lemma {:induction false} InsertByDueAtSorted(x: Reminder, s: seq<Reminder>)
    requires SortedByDueAt(s)
    ensures SortedByDueAt(InsertByDueAt(x, s))
  {
    var r := InsertByDueAt(x, s);
    if s == [] || StrLe(x.dueAt, s[0].dueAt) {
      forall i, j | 0 <= i < j < |r| ensures StrLe(r[i].dueAt, r[j].dueAt) {
        if i == 0 && j > 1 {
          StrLeTrans(x.dueAt, s[0].dueAt, s[j - 1].dueAt);
        }
      }
    } else {
      StrLeTotal(x.dueAt, s[0].dueAt);
      InsertByDueAtSorted(x, s[1..]);
      var t := InsertByDueAt(x, s[1..]);
      forall i, j | 0 <= i < j < |r| ensures StrLe(r[i].dueAt, r[j].dueAt) {
        if i == 0 {
          assert r[j] in multiset(t);
          assert r[j] in s[1..] || r[j] == x;
        }
      }
    }
  }

  /** `ORDER BY due_at ASC`. */
  function SortByDueAt(s: seq<Reminder>): (r: seq<Reminder>)
    ensures SortedByDueAt(r)
    ensures multiset(r) == multiset(s)
  {
    if s == [] then []
    else
      assert s == [s[0]] + s[1..];
      InsertByDueAtSorted(s[0], SortByDueAt(s[1..]));
      InsertByDueAt(s[0], SortByDueAt(s[1..]))
  }

  /** `due` is what `SELECT … WHERE status = 'scheduled' AND due_at <= now ORDER BY due_at LIMIT
      limit` may return for the table `rows`: min(limit, number due) of the due reminders, each
      taken at most as often as it is due, earliest first; any due reminder left out is not due
      earlier than those returned. */
  predicate EarliestDue(rows: seq<Db.ReminderRow>, nowUtc: string, limit: nat, due: seq<Reminder>) {
    && |due| == (if |DueReminders(rows, nowUtc)| < limit then |DueReminders(rows, nowUtc)| else limit)
    && multiset(due) <= multiset(DueReminders(rows, nowUtc))
    && (forall r :: r in due ==> exists row :: row in rows && IsDue(row, nowUtc) && ToReminder(row) == r)
    && SortedByDueAt(due)
    && (forall row :: row in rows && IsDue(row, nowUtc) && ToReminder(row) !in due ==>
          |due| == limit && forall r :: r in due ==> StrLe(r.dueAt, row.dueAt))
  }

  /** `_fetch_due(limit)` at UTC time `nowUtc`: the earliest due reminders, at most `limit`. */
  method FetchDue(db: Db.Database, nowUtc: string, limit: nat) returns (due: seq<Reminder>)
    ensures EarliestDue(db.reminders, nowUtc, limit, due)
  {
    var rows := db.reminders;
    var selected: seq<Reminder> := [];
    var i := 0;
    while i < |rows|
      invariant 0 <= i <= |rows|
      invariant selected == DueReminders(rows[..i], nowUtc)
    {
      assert rows[..i + 1][..i] == rows[..i];
      if rows[i].status == "scheduled" && StrLe(rows[i].dueAt, nowUtc) {
        selected := selected + [ToReminder(rows[i])];
      }
      i := i + 1;
    }
    assert rows[..i] == rows;
    var ordered := SortByDueAt(selected);
    due := if |ordered| <= limit then ordered else ordered[..limit];
    FirstDue(rows, nowUtc, limit, ordered, due);
  }

  /** The first `limit` of the due reminders put in order are the earliest due ones. */
  lemma FirstDue(rows: seq<Db.ReminderRow>, nowUtc: string, limit: nat, ordered: seq<Reminder>, due: seq<Reminder>)
    requires SortedByDueAt(ordered) && multiset(ordered) == multiset(DueReminders(rows, nowUtc))
    requires due == if |ordered| <= limit then ordered else ordered[..limit]
    ensures EarliestDue(rows, nowUtc, limit, due)
  {
    assert |ordered| == |DueReminders(rows, nowUtc)| by {
      assert |multiset(ordered)| == |multiset(DueReminders(rows, nowUtc))|;
    }
    forall r | r in due
      ensures exists row :: row in rows && IsDue(row, nowUtc) && ToReminder(row) == r
    {
      assert r in multiset(ordered);
      DueRemindersFrom(rows, nowUtc, r);
    }
    forall row | row in rows && IsDue(row, nowUtc) && ToReminder(row) !in due
      ensures |due| == limit && forall r :: r in due ==> StrLe(r.dueAt, row.dueAt)
    {
      DueRemindersFrom(rows, nowUtc, ToReminder(row));
      assert ToReminder(row) in multiset(ordered);
      var j :| 0 <= j < |ordered| && ordered[j] == ToReminder(row);
      assert j >= |due|;
    }
    assert ordered == due + ordered[|due|..];
  }

  // ----- `_mark_status` and `_handle_one` -------------------------------------------------

  /** The text `_handle_one` sends: the reminder's own text when, lowered, it already starts
      with "напоминание", otherwise the text after the bell prefix. */
  function DeliveryText(text: string): (r: string)
    ensures r == text <==> Text.StartsWith(Text.Lower(text), "напоминание")
    ensures r != text ==> r == Prefix + text
  {
    if Text.StartsWith(Text.Lower(text), "напоминание") then text else Prefix + text
  }

  /** `UPDATE reminders SET status=?, executed_at=? WHERE id=?`. */
  function WithStatus(rows: seq<Db.ReminderRow>, id: int, status: string, stamp: string): (r: seq<Db.ReminderRow>)
    ensures |r| == |rows|
    ensures forall k :: 0 <= k < |rows| && rows[k].id != id ==> r[k] == rows[k]
    ensures forall k :: 0 <= k < |rows| && rows[k].id == id ==> r[k] == rows[k].(status := status, executedAt := Some(stamp))
  {
    seq(|rows|, k requires 0 <= k < |rows| =>
      if rows[k].id == id then rows[k].(status := status, executedAt := Some(stamp)) else rows[k])
  }

  /** `_mark_status(id, status)` at `CURRENT_TIMESTAMP` = `stamp`; when the write fails the
      table is unchanged and `ok` is false (the source raises). */
  method MarkStatus(db: Db.Database, id: int, status: string, stamp: string, writeOk: bool) returns (ok: bool)
    modifies db`reminders
    ensures ok == writeOk
    ensures db.reminders == if writeOk then WithStatus(old(db.reminders), id, status, stamp) else old(db.reminders)
  {
    if writeOk {
      db.reminders := WithStatus(db.reminders, id, status, stamp);
    }
    ok := writeOk;
  }

  /** The table after `_handle_one` handled reminder `id` with the given attempt. */
  function RowsAfterHandling(rows: seq<Db.ReminderRow>, id: int, a: Attempt, stamp: string): seq<Db.ReminderRow> {
    if a.sendOk && a.doneWriteOk then WithStatus(rows, id, "done", stamp)
    else if a.errorWriteOk then WithStatus(rows, id, "error", stamp)
    else rows
  }

  /** The message `_handle_one` sends for `r`: none when the send fails. */
  function SentFor(r: Reminder, a: Attempt): seq<SentMessage> {
    if a.sendOk then [SentMessage(r.chatId, DeliveryText(r.text), r.silent)] else []
  }

  /** `_handle_one`: send, then mark `done`; on any failure mark `error`; never raises. */
  method HandleOne(db: Db.Database, bot: Bot, r: Reminder, stamp: string, a: Attempt)
    modifies db`reminders, bot`sent
    ensures bot.sent == old(bot.sent) + SentFor(r, a)
    ensures db.reminders == RowsAfterHandling(old(db.reminders), r.id, a, stamp)
  {
    var text := DeliveryText(r.text);
    var failed := true;
    if a.sendOk {
      bot.sent := bot.sent + [SentMessage(r.chatId, text, r.silent)];
      var ok := MarkStatus(db, r.id, "done", stamp, a.doneWriteOk);
      failed := !ok;
    }
    if failed {
      var _ := MarkStatus(db, r.id, "error", stamp, a.errorWriteOk);
    }
  }

  /** Handling reminder `id` touches its rows only: they end `done` after a send and a
      successful write, else `error` if that write succeeds, else stay as they were. */
  lemma HandlingOutcome(rows: seq<Db.ReminderRow>, id: int, a: Attempt, stamp: string, k: nat)
    requires k < |rows|
    ensures rows[k].id != id ==> RowsAfterHandling(rows, id, a, stamp)[k] == rows[k]
    ensures rows[k].id == id && a.sendOk && a.doneWriteOk ==>
              RowsAfterHandling(rows, id, a, stamp)[k].status == "done" && RowsAfterHandling(rows, id, a, stamp)[k].executedAt == Some(stamp)
    ensures rows[k].id == id && !(a.sendOk && a.doneWriteOk) && a.errorWriteOk ==>
              RowsAfterHandling(rows, id, a, stamp)[k].status == "error"
    ensures rows[k].id == id && !(a.sendOk && a.doneWriteOk) && !a.errorWriteOk ==>
              RowsAfterHandling(rows, id, a, stamp)[k] == rows[k]
  {
  }

  /** A handled reminder is fetched again only when both status writes failed (or the send
      and the `error` write failed); `done` and `error` rows are never due. */
  lemma {:induction false} RefetchedOnlyIfWritesFailed(rows: seq<Db.ReminderRow>, r: Reminder, a: Attempt, stamp: string, nowUtc: string)
    requires r in DueReminders(RowsAfterHandling(rows, r.id, a, stamp), nowUtc)
    ensures !(a.sendOk && a.doneWriteOk) && !a.errorWriteOk
  {
    var after := RowsAfterHandling(rows, r.id, a, stamp);
    DueRemindersFrom(after, nowUtc, r);
    var row :| row in after && IsDue(row, nowUtc) && ToReminder(row) == r;
    var k :| 0 <= k < |after| && after[k] == row;
    HandlingOutcome(rows, r.id, a, stamp, k);
  }

  // ----- one pass of `_loop` ------------------------------------------------------------

  /** The table after handling `due` in order, each with its attempt. */
  function RowsAfterBatch(rows: seq<Db.ReminderRow>, due: seq<Reminder>, attempt: Reminder -> Attempt, stamp: string): seq<Db.ReminderRow>
    decreases |due|
  {
    if due == [] then rows
    else RowsAfterBatch(RowsAfterHandling(rows, due[0].id, attempt(due[0]), stamp), due[1..], attempt, stamp)
  }

  /** The messages sent while handling `due` in order. */
  function SentForBatch(due: seq<Reminder>, attempt: Reminder -> Attempt): seq<SentMessage> {
    if due == [] then []
    else SentFor(due[0], attempt(due[0])) + SentForBatch(due[1..], attempt)
  }

  lemma {:induction false} SentForBatchBound(due: seq<Reminder>, attempt: Reminder -> Attempt)
    ensures |SentForBatch(due, attempt)| <= |due|
  {
    if due != [] {
      SentForBatchBound(due[1..], attempt);
    }
  }

  /** The `for r in due` loop of `_loop`: each reminder handled in turn. */
  method HandleBatch(db: Db.Database, bot: Bot, due: seq<Reminder>, stamp: string, attempt: Reminder -> Attempt)
    modifies db`reminders, bot`sent
    ensures db.reminders == RowsAfterBatch(old(db.reminders), due, attempt, stamp)
    ensures bot.sent == old(bot.sent) + SentForBatch(due, attempt)
  {
    var i := 0;
    while i < |due|
      invariant 0 <= i <= |due|
      invariant RowsAfterBatch(old(db.reminders), due, attempt, stamp) == RowsAfterBatch(db.reminders, due[i..], attempt, stamp)
      invariant bot.sent + SentForBatch(due[i..], attempt) == old(bot.sent) + SentForBatch(due, attempt)
    {
      ghost var sent := bot.sent;
      BatchStep(db.reminders, due, i, attempt, stamp);
      var r, a := due[i], attempt(due[i]);
      HandleOne(db, bot, r, stamp, a);
      Text.AppendAssoc(sent, SentFor(r, a), SentForBatch(due[i + 1..], attempt));
      i := i + 1;
    }
  }

  /** Handling `due[i..]` is handling `due[i]` and then `due[i + 1..]`. */
  lemma BatchStep(rows: seq<Db.ReminderRow>, due: seq<Reminder>, i: nat, attempt: Reminder -> Attempt, stamp: string)
    requires i < |due|
    ensures RowsAfterBatch(rows, due[i..], attempt, stamp)
            == RowsAfterBatch(RowsAfterHandling(rows, due[i].id, attempt(due[i]), stamp), due[i + 1..], attempt, stamp)
    ensures SentForBatch(due[i..], attempt) == SentFor(due[i], attempt(due[i])) + SentForBatch(due[i + 1..], attempt)
  {
    assert due[i..][1..] == due[i + 1..];
  }

  /** One iteration of `_loop`: fetch the five earliest due reminders (a failing fetch is logged
      and skipped) and handle each in turn; at most five messages go out. */
  method PollOnce(db: Db.Database, bot: Bot, nowUtc: string, stamp: string, fetchOk: bool, attempt: Reminder -> Attempt)
    returns (due: seq<Reminder>)
    modifies db`reminders, bot`sent
    ensures !fetchOk ==> due == [] && db.reminders == old(db.reminders) && bot.sent == old(bot.sent)
    ensures fetchOk ==> EarliestDue(old(db.reminders), nowUtc, LoopLimit, due)
    ensures |due| <= LoopLimit
    ensures db.reminders == RowsAfterBatch(old(db.reminders), due, attempt, stamp)
    ensures bot.sent == old(bot.sent) + SentForBatch(due, attempt)
    ensures |bot.sent| <= |old(bot.sent)| + LoopLimit
  {
    due := [];
    if !fetchOk {
      return;
    }
    due := FetchDue(db, nowUtc, LoopLimit);
    HandleBatch(db, bot, due, stamp, attempt);
    SentForBatchBound(due, attempt);
  }
}
