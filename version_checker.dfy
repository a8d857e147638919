/**
 * The update checker: compares the local checkout with the remote branch through
 * git, reads the remote version from `pyproject.toml`, lists recent commits and
 * formats the result for Telegram. Each git invocation is a parameter that says
 * how that run ended.
 */
module VersionChecker {
  import opened Wrappers
  import Text
  import Db

  /** How one git subprocess ended: its exit code and decoded output, or an exception
      raised while starting or talking to it. */
  datatype GitRun = Completed(returncode: int, stdout: string, stderr: string) | SpawnFailed(message: string)

  /** The result dict of `check_updates_available`; `None` values are `None` options. */
  datatype UpdateInfo = UpdateInfo(
    available: bool, currentVersion: string, latestVersion: Option<string>,
    currentHash: Option<string>, latestHash: Option<string>, commitsBehind: int, error: Option<string>)

  /** The dict before any step has run. */
  function InitialInfo(currentVersion: string): (r: UpdateInfo)
    ensures !r.available && r.commitsBehind == 0 && r.error.None? && r.currentVersion == currentVersion
    ensures r.latestVersion.None? && r.currentHash.None? && r.latestHash.None?
  {
    UpdateInfo(false, currentVersion, None, None, None, 0, None)
  }

  /** The text of the `ValueError` `int()` raises for output that is not a number. */
  function IntErrorText(s: string): string {
    "invalid literal for int() with base 10: '" + s + "'"
  }

  // ----- `re.search(r'version\s*=\s*"([^"]+)"', text)` ------------------------------------

  /** The first index at or after `i` that is not whitespace. */
  function SkipSpaces(s: string, i: nat): (j: nat)
    requires i <= |s|
    ensures i <= j <= |s| && (j < |s| ==> !Text.IsSpace(s[j]))
    ensures forall k :: i <= k < j ==> Text.IsSpace(s[k])
    decreases |s| - i
  {
    if i < |s| && Text.IsSpace(s[i]) then SkipSpaces(s, i + 1) else i
  }

  /** The capture of a match starting at `i`, if the pattern matches there. */
  function VersionMatchAt(s: string, i: nat): (r: Option<string>)
    requires i <= |s|
    ensures r.Some? ==> |r.value| > 0 && '"' !in r.value
  {
    if !(i + 7 <= |s| && s[i..i + 7] == "version") then None
    else
      var eq := SkipSpaces(s, i + 7);
      if eq == |s| || s[eq] != '=' then None
      else
        var quote := SkipSpaces(s, eq + 1);
        if quote == |s| || s[quote] != '"' then None
        else match Text.IndexOf(s[quote + 1..], '"')
          case None => None
          case Some(n) => if n == 0 then None else Some(s[quote + 1..][..n])
  }

  /** The capture of the leftmost match at or after `i`. */
  function SearchVersionFrom(s: string, i: nat): (r: Option<string>)
    requires i <= |s|
    ensures r.Some? ==> exists k :: i <= k <= |s| && VersionMatchAt(s, k) == r
    ensures r.None? ==> forall k :: i <= k <= |s| ==> VersionMatchAt(s, k).None?
    decreases |s| - i
  {
    var here := VersionMatchAt(s, i);
    if here.Some? then here
    else if i == |s| then None
    else SearchVersionFrom(s, i + 1)
  }

  /** What the pattern matches at each position from `i` to the end, in order. */
  function MatchesFrom(s: string, i: nat): (ms: seq<Option<string>>)
    requires i <= |s|
    ensures |ms| == |s| + 1 - i
    ensures forall k :: 0 <= k < |ms| ==> ms[k] == VersionMatchAt(s, i + k)
  {
    seq(|s| + 1 - i, k requires 0 <= k < |s| + 1 - i => VersionMatchAt(s, i + k))
  }

  /** The search returns the first match found scanning from `i`, so no match starts before the
      one it returns. */
  lemma {:induction false} SearchFindsLeftmost(s: string, i: nat)
    requires i <= |s|
    ensures SearchVersionFrom(s, i) == FirstSome(MatchesFrom(s, i))
    decreases |s| - i
  {
    var ms := MatchesFrom(s, i);
    MatchesFromStep(s, i);
    FirstSomeStep(ms);
    if i < |s| {
      SearchFindsLeftmost(s, i + 1);
    }
  }

  lemma MatchesFromStep(s: string, i: nat)
    requires i <= |s|
    ensures MatchesFrom(s, i)[0] == VersionMatchAt(s, i)
    ensures i < |s| ==> MatchesFrom(s, i)[1..] == MatchesFrom(s, i + 1)
    ensures i == |s| ==> MatchesFrom(s, i)[1..] == []
  {
    if i < |s| {
      assert forall k :: 0 <= k < |s| - i ==> MatchesFrom(s, i)[1..][k] == MatchesFrom(s, i + 1)[k];
    }
  }

  /** `re.search` finds the leftmost match: no match starts before the capture it returns. */
  lemma SearchVersionLeftmost(s: string)
    ensures SearchVersion(s).Some? ==>
              exists k :: 0 <= k <= |s| && VersionMatchAt(s, k) == SearchVersion(s)
                          && forall j :: 0 <= j < k ==> VersionMatchAt(s, j).None?
  {
    SearchFindsLeftmost(s, 0);
    var ms := MatchesFrom(s, 0);
    if SearchVersion(s).Some? {
      var k :| 0 <= k < |ms| && ms[k] == FirstSome(ms) && forall j :: 0 <= j < k ==> ms[j].None?;
      forall j | 0 <= j < k
        ensures VersionMatchAt(s, j).None?
      {
        assert ms[j] == VersionMatchAt(s, j);
      }
      assert VersionMatchAt(s, k) == SearchVersion(s);
    }
  }

  /** `version_match.group(1)` of the first match, if any. */
  function SearchVersion(s: string): Option<string> {
    SearchVersionFrom(s, 0)
  }

  /** A `version = "..."` line at the start of the file is what the search finds. */
  lemma VersionLineFound(v: string, rest: string)
    requires |v| > 0 && '"' !in v
    ensures SearchVersion("version = \"" + v + "\"" + rest) == Some(v)
  {
    var s := "version = \"" + v + "\"" + rest;
    assert s[0..7] == "version";
    assert SkipSpaces(s, 7) == 8 by {
      assert Text.IsSpace(s[7]) && !Text.IsSpace(s[8]);
      assert SkipSpaces(s, 8) == 8;
    }
    assert SkipSpaces(s, 9) == 10 by {
      assert Text.IsSpace(s[9]) && !Text.IsSpace(s[10]);
      assert SkipSpaces(s, 10) == 10;
    }
    var tail := s[11..];
    assert tail == v + "\"" + rest;
    assert tail[|v|] == '"';
    assert '"' !in tail[..|v|] by {
      assert tail[..|v|] == v;
    }
    assert Text.IndexOf(tail, '"') == Some(|v|) by {
      var f := Text.IndexOf(tail, '"');
      assert f.Some?;
    }
    assert tail[..|v|] == v;
  }

  // ----- `check_updates_available` ---------------------------------------------------------

  /** A git run that started and exited with status 0. */
  predicate Succeeded(run: GitRun) {
    run.Completed? && run.returncode == 0
  }

  /** `check_updates_available(branch)`, given how each git run ends: `git rev-parse HEAD`,
      `git fetch`, `git rev-parse origin/<branch>`, `git rev-list --count`, and
      `git show origin/<branch>:pyproject.toml`. */
  method CheckUpdatesAvailable(currentVersion: string, head: GitRun, fetch: GitRun, origin: GitRun, behind: GitRun, pyproject: GitRun)
    returns (result: UpdateInfo)
    ensures result.currentVersion == currentVersion
    ensures result.available <==> result.error.None? && result.commitsBehind > 0
    ensures result.error.Some? ==> !result.available && result.commitsBehind == 0 && result.latestVersion.None?
    ensures result.error.None? ==>
              head.Completed? && head.returncode == 0 && result.currentHash == Some(Text.Strip(head.stdout))
              && fetch.Completed? && fetch.returncode == 0
              && origin.Completed? && origin.returncode == 0 && result.latestHash == Some(Text.Strip(origin.stdout))
              && behind.Completed? && behind.returncode == 0 && Text.ParseInt(Text.Strip(behind.stdout)) == Some(result.commitsBehind)
    ensures result.latestVersion.Some? ==>
              result.available && pyproject.Completed? && pyproject.returncode == 0 && result.latestVersion == SearchVersion(pyproject.stdout)
    ensures result.available && pyproject.Completed? && pyproject.returncode == 0 ==> result.latestVersion == SearchVersion(pyproject.stdout)
    ensures head.SpawnFailed? ==> result.error == Some("Ошибка проверки обновлений: " + head.message)
    ensures head.Completed? && head.returncode != 0 ==> result.error == Some("Не удалось получить текущий hash: " + head.stderr)
    ensures Succeeded(head) && fetch.SpawnFailed? ==> result.error == Some("Ошибка проверки обновлений: " + fetch.message)
    ensures Succeeded(head) && fetch.Completed? && fetch.returncode != 0 ==>
              result.error == Some("Не удалось обновить информацию о репозитории")
    ensures Succeeded(head) && Succeeded(fetch) && origin.SpawnFailed? ==>
              result.error == Some("Ошибка проверки обновлений: " + origin.message)
    ensures Succeeded(head) && Succeeded(fetch) && origin.Completed? && origin.returncode != 0 ==>
              result.error == Some("Не удалось получить последний hash: " + origin.stderr)
    ensures Succeeded(head) && Succeeded(fetch) && Succeeded(origin) && behind.SpawnFailed? ==>
              result.error == Some("Ошибка проверки обновлений: " + behind.message)
    ensures Succeeded(head) && Succeeded(fetch) && Succeeded(origin) && behind.Completed? && behind.returncode != 0 ==>
              result.error == Some("Не удалось подсчитать отставание: " + behind.stderr)
    ensures Succeeded(head) && Succeeded(fetch) && Succeeded(origin) && Succeeded(behind) ==>
              match Text.ParseInt(Text.Strip(behind.stdout))
              case None => result.error == Some("Ошибка проверки обновлений: " + IntErrorText(Text.Strip(behind.stdout)))
              case Some(n) => result.error.None? && result.commitsBehind == n
  {
    result := InitialInfo(currentVersion);
    // each early `return result` of the source is a `return` here; an exception raised by a
    // run jumps to the outer handler
    match head {
      case SpawnFailed(m) =>
        return result.(error := Some("Ошибка проверки обновлений: " + m));
      case Completed(code, out, err) =>
        if code == 0 {
          result := result.(currentHash := Some(Text.Strip(out)));
        } else {
          return result.(error := Some("Не удалось получить текущий hash: " + err));
        }
    }
    match fetch {
      case SpawnFailed(m) =>
        return result.(error := Some("Ошибка проверки обновлений: " + m));
      case Completed(code, _, _) =>
        if code != 0 {
          return result.(error := Some("Не удалось обновить информацию о репозитории"));
        }
    }
    match origin {
      case SpawnFailed(m) =>
        return result.(error := Some("Ошибка проверки обновлений: " + m));
      case Completed(code, out, err) =>
        if code == 0 {
          result := result.(latestHash := Some(Text.Strip(out)));
        } else {
          return result.(error := Some("Не удалось получить последний hash: " + err));
        }
    }
    match behind {
      case SpawnFailed(m) =>
        return result.(error := Some("Ошибка проверки обновлений: " + m));
      case Completed(code, out, err) =>
        if code == 0 {
          match Text.ParseInt(Text.Strip(out)) {
            case None =>
              return result.(error := Some("Ошибка проверки обновлений: " + IntErrorText(Text.Strip(out))));
            case Some(n) =>
              result := result.(commitsBehind := n, available := n > 0);
          }
        } else {
          return result.(error := Some("Не удалось подсчитать отставание: " + err));
        }
    }
    if result.available {
      // failures here are logged and swallowed
      match pyproject {
        case SpawnFailed(_) =>
        case Completed(code, out, _) =>
          if code == 0 {
            var versionMatch := SearchVersion(out);
            if versionMatch.Some? {
              result := result.(latestVersion := versionMatch);
            }
          }
      }
    }
  }

  // ----- `get_recent_commits` ----------------------------------------------------------------

  /** One commit of `git log --pretty=format:%h|%s|%an|%ar`. */
  datatype Commit = Commit(hash: string, message: string, author: string, date: string)

  /** A line of the log, if it holds a `'|'` and splits into at least four fields. */
  function ParseCommitLine(line: string): (r: Option<Commit>)
    ensures r.Some? ==> '|' !in r.value.hash && '|' !in r.value.message && '|' !in r.value.author
  {
    if '|' in line then
      var parts := Text.SplitN(line, '|', 3);
      Text.SplitNPieces(line, '|', 3);
      if |parts| >= 4 then Some(Commit(parts[0], parts[1], parts[2], parts[3])) else None
    else None
  }

  /** A line yields a commit iff it has at least three `'|'`. */
  lemma CommitLineParsed(line: string)
    ensures ParseCommitLine(line).Some? <==> Text.Count(line, '|') >= 3
  {
    Text.SplitNLength(line, '|', 3);
    if '|' !in line {
      Text.CountNotIn(line, '|');
    }
  }

  /** The fields of a parsed line joined with `'|'` give the line back, so the date keeps any
      later `'|'`. */
  lemma CommitLineRoundTrip(line: string)
    requires ParseCommitLine(line).Some?
    ensures var c := ParseCommitLine(line).value;
            c.hash + "|" + c.message + "|" + c.author + "|" + c.date == line
  {
    var parts := Text.SplitN(line, '|', 3);
    Text.JoinSplitN(line, '|', 3);
    JoinFour(parts, '|');
  }

  lemma JoinFour(parts: seq<string>, sep: char)
    requires |parts| == 4
    ensures Text.Join(parts, sep) == parts[0] + [sep] + parts[1] + [sep] + parts[2] + [sep] + parts[3]
  {
    assert parts[2..][1..] == parts[3..];
    assert Text.Join(parts[2..], sep) == parts[2] + [sep] + parts[3];
    assert parts[1..][1..] == parts[2..];
    assert Text.Join(parts[1..], sep) == parts[1] + [sep] + Text.Join(parts[2..], sep);
  }

  /** The commits of a list of lines, in order. */
  function CommitsOf(lines: seq<string>): seq<Commit> {
    if lines == [] then []
    else CommitsOf(lines[..|lines| - 1])
         + (match ParseCommitLine(lines[|lines| - 1]) case Some(c) => [c] case None => [])
  }

  /** The commits kept are exactly the parseable lines, in their order. */
  lemma {:induction false} CommitsOfExactly(lines: seq<string>, c: Commit)
    ensures c in CommitsOf(lines) <==> exists k :: 0 <= k < |lines| && ParseCommitLine(lines[k]) == Some(c)
  {
    if lines != [] {
      var init := lines[..|lines| - 1];
      CommitsOfExactly(init, c);
      if c in CommitsOf(lines) && c !in CommitsOf(init) {
        assert ParseCommitLine(lines[|lines| - 1]) == Some(c);
      }
      if exists k :: 0 <= k < |lines| && ParseCommitLine(lines[k]) == Some(c) {
        var k :| 0 <= k < |lines| && ParseCommitLine(lines[k]) == Some(c);
        if k < |lines| - 1 {
          assert init[k] == lines[k];
        }
      }
    }
  }

  /** `get_recent_commits`: the commits of the stripped output's lines; nothing when git fails. */
  method GetRecentCommits(log: GitRun) returns (commits: seq<Commit>)
    ensures log.Completed? && log.returncode == 0 ==> commits == CommitsOf(Text.Split(Text.Strip(log.stdout), '\n'))
    ensures !(log.Completed? && log.returncode == 0) ==> commits == []
  {
    commits := [];
    if log.Completed? && log.returncode == 0 {
      commits := ParseCommitLines(Text.Split(Text.Strip(log.stdout), '\n'));
    }
  }

  /** The `for line in ...split('\n')` loop of `get_recent_commits`. */
  method ParseCommitLines(lines: seq<string>) returns (commits: seq<Commit>)
    ensures commits == CommitsOf(lines)
  {
    commits := [];
    var i := 0;
    while i < |lines|
      invariant 0 <= i <= |lines|
      invariant commits == CommitsOf(lines[..i])
    {
      var line := lines[i];
      assert lines[..i + 1][..i] == lines[..i];
      if '|' in line {
        var parts := Text.SplitN(line, '|', 3);
        if |parts| >= 4 {
          commits := commits + [Commit(parts[0], parts[1], parts[2], parts[3])];
        }
      }
      i := i + 1;
    }
    assert lines[..i] == lines;
  }

  // ----- `format_update_info` --------------------------------------------------------------

  /** How an f-string shows an optional string value. */
  function Shown(v: Option<string>): string {
    match v
    case Some(s) => s
    case None => "None"
  }

  function ErrorText(error: string): string {
    "❌ <b>Ошибка проверки обновлений:</b>\n<code>" + error + "</code>"
  }

  function UpToDateText(currentVersion: string, currentHash: string): string {
    "✅ <b>Обновления не требуются</b>\n\n📋 Текущая версия: " + "<code>" + currentVersion
    + "</code>\n🔹 Commit: <code>" + currentHash + "</code>" + "\n\n🎯 Вы используете последнюю версию!"
  }

  const LatestLead: string := ")\n🆕 Новая версия: <code>"

  /** The update text: the current version and hash, the latest ones, the count, the hint. */
  function UpdateText(currentVersion: string, currentHash: string, latestVersion: string, latestHash: string, commitsBehind: int): string {
    UpdateHead(currentVersion, currentHash) + LatestPart(latestVersion, latestHash) + BehindPart(commitsBehind) + UpdateFooter
  }

  function UpdateHead(currentVersion: string, currentHash: string): string {
    "🔄 <b>Доступно обновление</b>\n\n📋 Текущая версия: <code>" + currentVersion + "</code> (" + currentHash
  }

  function LatestPart(latestVersion: string, latestHash: string): string {
    LatestLead + latestVersion + "</code> (" + latestHash + ")"
  }

  function BehindPart(commitsBehind: int): string {
    "\n📊 Отставание: " + ("<code>" + Text.IntToString(commitsBehind) + "</code> коммит(ов)")
  }

  const UpdateFooter: string := "\n\n💡 Используйте /update для обновления"

  /** The update text holds the latest part whole, and its opening up to the hash. */
  lemma UpdateTextShowsLatest(currentVersion: string, currentHash: string, latestVersion: string, latestHash: string, commitsBehind: int)
    ensures Text.Contains(UpdateText(currentVersion, currentHash, latestVersion, latestHash, commitsBehind), LatestPart(latestVersion, latestHash))
    ensures Text.Contains(UpdateText(currentVersion, currentHash, latestVersion, latestHash, commitsBehind), LatestLead + latestVersion + "</code> (")
  {
    var head, latest, behind := UpdateHead(currentVersion, currentHash), LatestPart(latestVersion, latestHash), BehindPart(commitsBehind);
    var opening := LatestLead + latestVersion + "</code> (";
    Text.ContainsSelf(opening);
    Text.ContainsWithin(latestHash, opening, opening);
    Text.ContainsWithin(")", opening + latestHash, opening);
    Text.ContainsSelf(latest);
    forall sub | sub == latest || sub == opening
      ensures Text.Contains(UpdateText(currentVersion, currentHash, latestVersion, latestHash, commitsBehind), sub)
    {
      Text.ContainsWithin(head, latest, sub);
      Text.ContainsWithin(behind, head + latest, sub);
      Text.ContainsWithin(UpdateFooter, head + latest + behind, sub);
    }
  }

  /** `format_update_info`: the error whenever one is set, else the up-to-date text, else the
      update text; absent values are shown as Python shows `None`. */
  function FormatUpdateInfo(info: UpdateInfo): string {
    if Db.Truthy(info.error) then ErrorText(info.error.value)
    else if !info.available then UpToDateText(info.currentVersion, Shown(info.currentHash))
    else UpdateText(info.currentVersion, Shown(info.currentHash), Shown(info.latestVersion), Shown(info.latestHash), info.commitsBehind)
  }

  /** Without an error and without an update, the text names the current version and hash. */
  lemma UpToDateShowsCurrent(info: UpdateInfo)
    requires !Db.Truthy(info.error) && !info.available
    ensures Text.Contains(FormatUpdateInfo(info), "<code>" + info.currentVersion + "</code>\n🔹 Commit: <code>" + Shown(info.currentHash) + "</code>")
  {
    var head := "✅ <b>Обновления не требуются</b>\n\n📋 Текущая версия: ";
    var mid := "<code>" + info.currentVersion + "</code>\n🔹 Commit: <code>" + Shown(info.currentHash) + "</code>";
    var tail := "\n\n🎯 Вы используете последнюю версию!";
    assert FormatUpdateInfo(info) == head + mid + tail;
    Text.ContainsMiddle(head, mid, tail);
  }

  /** An update text names the latest version and hash. */
  lemma UpdateShowsLatest(info: UpdateInfo)
    requires !Db.Truthy(info.error) && info.available
    ensures Text.Contains(FormatUpdateInfo(info), LatestLead + Shown(info.latestVersion) + "</code> (" + Shown(info.latestHash) + ")")
  {
    UpdateTextShowsLatest(info.currentVersion, Shown(info.currentHash), Shown(info.latestVersion), Shown(info.latestHash), info.commitsBehind);
  }

  /** An update text names the number of commits behind. */
  lemma UpdateShowsBehind(info: UpdateInfo)
    requires !Db.Truthy(info.error) && info.available
    ensures Text.Contains(FormatUpdateInfo(info), "<code>" + Text.IntToString(info.commitsBehind) + "</code> коммит(ов)")
  {
    var head := UpdateHead(info.currentVersion, Shown(info.currentHash)) + LatestPart(Shown(info.latestVersion), Shown(info.latestHash));
    var count := "<code>" + Text.IntToString(info.commitsBehind) + "</code> коммит(ов)";
    Text.ContainsSelf(count);
    Text.ContainsWithin("\n📊 Отставание: ", count, count);
    Text.ContainsWithin(head, BehindPart(info.commitsBehind), count);
    Text.ContainsWithin(UpdateFooter, head + BehindPart(info.commitsBehind), count);
  }

  /** When no update is available the text does not depend on the latest version, hash or
      count; an error hides everything else. */
  lemma FormatIgnores(info: UpdateInfo, latestVersion: Option<string>, latestHash: Option<string>, commitsBehind: int, available: bool)
    ensures !info.available ==>
              FormatUpdateInfo(info) == FormatUpdateInfo(info.(latestVersion := latestVersion, latestHash := latestHash, commitsBehind := commitsBehind))
    ensures Db.Truthy(info.error) ==> FormatUpdateInfo(info) == FormatUpdateInfo(info.(available := available))
  {
  }

  /** An update whose version could not be read is announced as version `None`: the key is always
      in the dict, so the `"неизвестна"` default of `.get` is never used. */
  lemma UnknownVersionShownAsNone(info: UpdateInfo)
    requires !Db.Truthy(info.error) && info.available && info.latestVersion.None?
    ensures Text.Contains(FormatUpdateInfo(info), LatestLead + "None" + "</code> (")
  {
    UpdateTextShowsLatest(info.currentVersion, Shown(info.currentHash), "None", Shown(info.latestHash), info.commitsBehind);
  }

  /** `format_update_info` with the default applied to a missing version as well. */
  function FormatUpdateInfoWithDefault(info: UpdateInfo): (r: string)
    ensures info.latestVersion.Some? || Db.Truthy(info.error) || !info.available ==> r == FormatUpdateInfo(info)
  {
    if !Db.Truthy(info.error) && info.available then
      UpdateText(info.currentVersion, Shown(info.currentHash), info.latestVersion.GetOr("неизвестна"), Shown(info.latestHash), info.commitsBehind)
    else FormatUpdateInfo(info)
  }

  /** With the default, the announced version is the one read from `pyproject.toml` when there is
      one, and `неизвестна` otherwise. */
  lemma AnnouncedVersion(info: UpdateInfo)
    requires !Db.Truthy(info.error) && info.available
    ensures Text.Contains(FormatUpdateInfoWithDefault(info), LatestLead + info.latestVersion.GetOr("неизвестна") + "</code> (")
  {
    UpdateTextShowsLatest(info.currentVersion, Shown(info.currentHash), info.latestVersion.GetOr("неизвестна"), Shown(info.latestHash), info.commitsBehind);
  }
}
