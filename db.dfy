/**
 * The bot's SQLite database as an in-memory store: one field per table that the
 * core reads or writes, and the user and file-id operations of the `db` module.
 * Each SQL statement becomes an update of the matching field.
 */
module Db {
  import opened Wrappers
  import Text

  /** The Telegram user whose details `save_user` records. */
  datatype TgUser = TgUser(id: int, username: Option<string>, firstName: Option<string>, lastName: Option<string>)

  /** A row of `users`, keyed by `user_id`. */
  datatype UserRow = UserRow(username: Option<string>, firstName: Option<string>, lastName: Option<string>, isWelcomed: bool)

  /** A row of `openai_files`. */
  datatype FileRow = FileRow(chatId: int, fileId: string)

  /** A row of the `usage` ledger. */
  datatype UsageRow = UsageRow(chatId: int, userId: int, tokens: int, cost: real, model: string)

  /** A row of `reminders`; `dueAt` is UTC text in `%Y-%m-%d %H:%M:%S` form. */
  datatype ReminderRow = ReminderRow(
    id: int, chatId: int, userId: int, text: string, dueAt: string, silent: bool,
    status: string, executedAt: Option<string>)

  /** Python truthiness of an optional string column: present and non-empty. */
  predicate Truthy(s: Option<string>) {
    s.Some? && s.value != ""
  }

  /** The `users` table after `save_user(u)`: a new row that is not yet welcomed, or
      the names of the existing row replaced and its welcome flag kept. */
  function UsersAfterSave(users: map<int, UserRow>, u: TgUser): (r: map<int, UserRow>)
    ensures r.Keys == users.Keys + {u.id}
    ensures r[u.id].username == u.username && r[u.id].firstName == u.firstName && r[u.id].lastName == u.lastName
    ensures r[u.id].isWelcomed == (u.id in users && users[u.id].isWelcomed)
    ensures forall id :: id in users && id != u.id ==> r[id] == users[id]
  {
    if u.id in users then users[u.id := users[u.id].(username := u.username, firstName := u.firstName, lastName := u.lastName)]
    else users[u.id := UserRow(u.username, u.firstName, u.lastName, false)]
  }

  /** The value `save_user(u)` returns: true for a new user and for one not yet welcomed. */
  function SaveUserResult(users: map<int, UserRow>, u: TgUser): (isNew: bool)
    ensures isNew <==> !(u.id in users && users[u.id].isWelcomed)
  {
    if u.id in users then !users[u.id].isWelcomed else true
  }

  /** The `users` table after `mark_user_welcomed(id)`; an unknown id changes nothing. */
  function UsersAfterWelcome(users: map<int, UserRow>, id: int): (r: map<int, UserRow>)
    ensures r.Keys == users.Keys
    ensures id in users ==> r[id] == users[id].(isWelcomed := true)
    ensures forall other :: other in users && other != id ==> r[other] == users[other]
  {
    if id in users then users[id := users[id].(isWelcomed := true)] else users
  }

  /** `get_user_display_name` on the row found for `userId`, if any. */
  function DisplayName(row: Option<UserRow>, userId: int): (name: string)
    ensures row.Some? && Truthy(row.value.username) ==> name == "@" + row.value.username.value
    ensures row.Some? && !Truthy(row.value.username) && Truthy(row.value.firstName) && Truthy(row.value.lastName) ==>
              name == row.value.firstName.value + " " + row.value.lastName.value
    ensures row.Some? && !Truthy(row.value.username) && Truthy(row.value.firstName) && !Truthy(row.value.lastName) ==>
              name == row.value.firstName.value
    ensures (row.None? || (!Truthy(row.value.username) && !Truthy(row.value.firstName))) ==> name == Text.IntToString(userId)
    ensures name != ""
  {
    match row
    case None => Text.IntToString(userId)
    case Some(r) =>
      if Truthy(r.username) then "@" + r.username.value
      else if Truthy(r.firstName) && Truthy(r.lastName) then r.firstName.value + " " + r.lastName.value
      else if Truthy(r.firstName) then r.firstName.value
      else Text.IntToString(userId)
  }

  /** `SELECT file_id FROM openai_files WHERE chat_id = ?`, in row order. */
  function FileIdsOf(rows: seq<FileRow>, chatId: int): seq<string> {
    if rows == [] then []
    else (if rows[0].chatId == chatId then [rows[0].fileId] else []) + FileIdsOf(rows[1..], chatId)
  }

  /** `DELETE FROM openai_files WHERE chat_id = ?`: the other chats' rows, in order. */
  function WithoutChat(rows: seq<FileRow>, chatId: int): (r: seq<FileRow>)
    ensures |r| <= |rows|
    ensures forall k :: 0 <= k < |r| ==> r[k] in rows && r[k].chatId != chatId
  {
    if rows == [] then []
    else (if rows[0].chatId == chatId then [] else [rows[0]]) + WithoutChat(rows[1..], chatId)
  }

  /** The ids listed for a chat are exactly those saved for it. */
  lemma {:induction false} FileIdsOfExactly(rows: seq<FileRow>, chatId: int, fileId: string)
    ensures fileId in FileIdsOf(rows, chatId) <==> FileRow(chatId, fileId) in rows
  {
    if rows != [] {
      FileIdsOfExactly(rows[1..], chatId, fileId);
      assert rows == [rows[0]] + rows[1..];
    }
  }

  lemma {:induction false} FileIdsOfAppend(a: seq<FileRow>, b: seq<FileRow>, chatId: int)
    ensures FileIdsOf(a + b, chatId) == FileIdsOf(a, chatId) + FileIdsOf(b, chatId)
  {
    if a == [] {
      assert a + b == b;
    } else {
      FileIdsOfAppend(a[1..], b, chatId);
      assert (a + b)[1..] == a[1..] + b;
    }
  }

  /** Saving a file id adds it at the end of its chat's list and changes no other chat's list. */
  lemma FileIdsAfterSave(rows: seq<FileRow>, chatId: int, fileId: string, other: int)
    ensures FileIdsOf(rows + [FileRow(chatId, fileId)], other)
         == FileIdsOf(rows, other) + (if other == chatId then [fileId] else [])
  {
    FileIdsOfAppend(rows, [FileRow(chatId, fileId)], other);
    assert [FileRow(chatId, fileId)][1..] == [];
  }

  /** Deleting a chat's file ids empties its list and leaves every other chat's list as it was. */
  lemma {:induction false} FileIdsAfterDelete(rows: seq<FileRow>, chatId: int, other: int)
    ensures FileIdsOf(WithoutChat(rows, chatId), other) == if other == chatId then [] else FileIdsOf(rows, other)
  {
    if rows != [] {
      FileIdsAfterDelete(rows[1..], chatId, other);
      var head := if rows[0].chatId == chatId then [] else [rows[0]];
      FileIdsOfAppend(head, WithoutChat(rows[1..], chatId), other);
      if head != [] {
        assert head[1..] == [];
      }
    }
  }

  /** The tables of the bot's database that the modelled code reads or writes. */
  class Database {
    var users: map<int, UserRow>
    var openaiFiles: seq<FileRow>
    var botSettings: map<string, string>
    var chatHistory: map<int, string>
    var usage: seq<UsageRow>
    var reminders: seq<ReminderRow>

    /** A freshly initialised, empty database. */
    constructor ()
      ensures users == map[] && openaiFiles == [] && botSettings == map[]
      ensures chatHistory == map[] && usage == [] && reminders == []
    {
      users, openaiFiles, botSettings := map[], [], map[];
      chatHistory, usage, reminders := map[], [], [];
    }

    /** `save_user`: insert or update the user; true when a welcome is still owed. */
    method SaveUser(u: TgUser) returns (isNew: bool)
      modifies this`users
      ensures users == UsersAfterSave(old(users), u)
      ensures isNew == SaveUserResult(old(users), u)
    {
      if u.id !in users {
        users := users[u.id := UserRow(u.username, u.firstName, u.lastName, false)];
        isNew := true;
      } else {
        var existing := users[u.id];
        users := users[u.id := existing.(username := u.username, firstName := u.firstName, lastName := u.lastName)];
        isNew := !existing.isWelcomed;
      }
    }

    /** `mark_user_welcomed`. */
    method MarkUserWelcomed(userId: int)
      modifies this`users
      ensures users == UsersAfterWelcome(old(users), userId)
    {
      if userId in users {
        users := users[userId := users[userId].(isWelcomed := true)];
      }
    }

    /** `get_user_display_name`. */
    function GetUserDisplayName(userId: int): (name: string)
      reads this
      ensures userId !in users ==> name == Text.IntToString(userId)
      ensures userId in users ==> name == DisplayName(Some(users[userId]), userId)
    {
      DisplayName(if userId in users then Some(users[userId]) else None, userId)
    }

    /** `save_openai_file_id`: one more row. */
    method SaveOpenaiFileId(chatId: int, fileId: string)
      modifies this`openaiFiles
      ensures openaiFiles == old(openaiFiles) + [FileRow(chatId, fileId)]
      ensures GetOpenaiFileIdsByChat(chatId) == old(GetOpenaiFileIdsByChat(chatId)) + [fileId]
    {
      FileIdsAfterSave(openaiFiles, chatId, fileId, chatId);
      openaiFiles := openaiFiles + [FileRow(chatId, fileId)];
    }

    /** `get_openai_file_ids_by_chat`. */
    function GetOpenaiFileIdsByChat(chatId: int): (ids: seq<string>)
      reads this
      ensures forall f :: f in ids <==> FileRow(chatId, f) in openaiFiles
    {
      forall f ensures f in FileIdsOf(openaiFiles, chatId) <==> FileRow(chatId, f) in openaiFiles {
        FileIdsOfExactly(openaiFiles, chatId, f);
      }
      FileIdsOf(openaiFiles, chatId)
    }

    /** `delete_openai_file_ids_by_chat`: only that chat's rows go. */
    method DeleteOpenaiFileIdsByChat(chatId: int)
      modifies this`openaiFiles
      ensures openaiFiles == WithoutChat(old(openaiFiles), chatId)
      ensures GetOpenaiFileIdsByChat(chatId) == []
      ensures forall other :: other != chatId ==> GetOpenaiFileIdsByChat(other) == old(GetOpenaiFileIdsByChat(other))
    {
      ghost var before := openaiFiles;
      openaiFiles := WithoutChat(openaiFiles, chatId);
      FileIdsAfterDelete(before, chatId, chatId);
      forall other | other != chatId
        ensures FileIdsOf(openaiFiles, other) == FileIdsOf(before, other)
      {
        FileIdsAfterDelete(before, chatId, other);
      }
    }
  }

  /** Once `mark_user_welcomed` has run, `save_user` for that user returns false. */
  lemma SaveAfterWelcome(users: map<int, UserRow>, u: TgUser)
    requires u.id in users
    ensures !SaveUserResult(UsersAfterWelcome(users, u.id), u)
    ensures !SaveUserResult(UsersAfterSave(UsersAfterWelcome(users, u.id), u), u)
  {
  }

  /** A user seen for the first time is still owed a welcome the second time too. */
  lemma SaveTwiceBeforeWelcome(users: map<int, UserRow>, u: TgUser, v: TgUser)
    requires u.id !in users && v.id == u.id
    ensures SaveUserResult(users, u) && SaveUserResult(UsersAfterSave(users, u), v)
  {
  }

  /** After `save_user` with a username the display name is `@username`. */
  lemma DisplayNameAfterSave(users: map<int, UserRow>, u: TgUser)
    requires Truthy(u.username)
    ensures DisplayName(Some(UsersAfterSave(users, u)[u.id]), u.id) == "@" + u.username.value
  {
  }
}
