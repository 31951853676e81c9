/** Per-browser audio sessions: the session id kept in the `audio_session_id`
    cookie, the folder and public URL prefix it maps to, and the sweep that
    deletes session folders untouched for more than 24 hours. Paths are strings
    joined with `/` under the working directory `cwd`; the clock reading `now`
    (milliseconds) and the random UUID are parameters. */
module Session {
  import opened Wrappers
  import opened Strings
  import Numbers
  import Validation

  const SESSION_DURATION: int := 24 * 60 * 60 * 1000

  function JoinPath(base: string, name: string): string {
    base + "/" + name
  }

  /** `SESSIONS_BASE_PATH`: `<cwd>/public/audio/sessions`. */
  function SessionsBase(cwd: string): string {
    cwd + "/public/audio/sessions"
  }

  const SESSIONS_URL_PREFIX := "/audio/sessions/"

  datatype SessionInfo = SessionInfo(id: string, folderPath: string, publicPath: string)

  /** The id handed to a browser that has none: `session_<ms>_<first 8 UUID chars>`. */
  function MintSessionId(now: nat, uuid: string): string {
    "session_" + Numbers.NatToString(now) + "_" + (if |uuid| <= 8 then uuid else uuid[..8])
  }

  /** The session id, and whether a new cookie has to be set for it. */
  datatype SessionId = SessionId(id: string, minted: bool)

  /** `getOrCreateSessionId`: an existing cookie value is returned unchanged; an
      id is minted only when the cookie is missing or empty. */
  function GetOrCreateSessionId(cookie: Option<string>, now: nat, uuid: string): (r: SessionId)
    ensures Truthy(cookie) ==> r == SessionId(cookie.value, false)
    ensures !Truthy(cookie) ==> r.minted && r.id == MintSessionId(now, uuid)
  {
    if Truthy(cookie) then SessionId(cookie.value, false) else SessionId(MintSessionId(now, uuid), true)
  }

  /** A minted id is `session_`, the decimal timestamp, `_`, and 8 UUID characters. */
  lemma MintedIdShape(now: nat, uuid: string)
    requires |uuid| >= 8
    ensures var id := MintSessionId(now, uuid);
            var d := |Numbers.NatToString(now)|;
            && |id| == 8 + d + 1 + 8
            && id[..8] == "session_"
            && Numbers.AllDigits(id[8..8 + d])
            && Numbers.DigitsValue(id[8..8 + d]) == now
            && id[8 + d] == '_'
            && id[8 + d + 1..] == uuid[..8]
  {
    var digits := Numbers.NatToString(now);
    var id := MintSessionId(now, uuid);
    assert id == "session_" + digits + "_" + uuid[..8];
    assert id[8..8 + |digits|] == digits;
    Numbers.DigitsValueOfNatToString(now);
  }

  /** Ids minted at different milliseconds differ, whatever the UUIDs are. */
  lemma MintedIdsDistinct(t1: nat, u1: string, t2: nat, u2: string)
    requires |u1| >= 8 && |u2| >= 8
    requires MintSessionId(t1, u1) == MintSessionId(t2, u2)
    ensures t1 == t2
  {
    MintedIdShape(t1, u1);
    MintedIdShape(t2, u2);
    var d := |Numbers.NatToString(t1)|;
    assert Numbers.DigitsValue(MintSessionId(t1, u1)[8..8 + d]) == t1;
  }

  predicate IsUuidChar(c: char) {
    Numbers.IsHexDigit(c) || c == '-'
  }

  /** A minted id never contains a character the file-name validator refuses, so
      it is a single safe path segment. */
  lemma MintedIdIsSafeSegment(now: nat, uuid: string)
    requires forall i :: 0 <= i < |uuid| ==> IsUuidChar(uuid[i])
    ensures !Validation.HasForbiddenChar(MintSessionId(now, uuid))
  {
    var digits := Numbers.NatToString(now);
    var tail := if |uuid| <= 8 then uuid else uuid[..8];
    var id := MintSessionId(now, uuid);
    forall i | 0 <= i < |id| ensures !Validation.IsForbiddenFileNameChar(id[i]) {
      if i < 8 {
        assert id[i] == "session_"[i];
      } else if i < 8 + |digits| {
        assert id[i] == digits[i - 8];
      } else if i == 8 + |digits| {
        assert id[i] == '_';
      } else {
        assert id[i] == tail[i - 9 - |digits|];
      }
    }
  }

  /** `getSessionPaths`: the session's folder and its public URL prefix. */
  function GetSessionPaths(cwd: string, id: string): (r: SessionInfo)
    ensures r.id == id
    ensures StartsWith(r.folderPath, SessionsBase(cwd) + "/")
    ensures StartsWith(r.publicPath, SESSIONS_URL_PREFIX)
  {
    SessionInfo(id, JoinPath(SessionsBase(cwd), id), SESSIONS_URL_PREFIX + id)
  }

  /** `getSessionFilePath`. */
  function GetSessionFilePath(cwd: string, id: string, fileName: string): string {
    JoinPath(JoinPath(SessionsBase(cwd), id), fileName)
  }

  /** `getSessionFileUrl`. */
  function GetSessionFileUrl(id: string, fileName: string): string {
    "/audio/sessions/" + id + "/" + fileName
  }

  /** A session file sits directly inside the session folder, and its URL is the
      folder's public prefix followed by the file name. */
  lemma FileInsideSessionFolder(cwd: string, id: string, fileName: string)
    ensures var info := GetSessionPaths(cwd, id);
            && GetSessionFilePath(cwd, id, fileName) == info.folderPath + "/" + fileName
            && StartsWith(GetSessionFilePath(cwd, id, fileName), info.folderPath + "/")
            && GetSessionFileUrl(id, fileName) == info.publicPath + "/" + fileName
  {
    var info := GetSessionPaths(cwd, id);
    var p := GetSessionFilePath(cwd, id, fileName);
    assert p == info.folderPath + "/" + fileName;
    assert p[..|info.folderPath + "/"|] == info.folderPath + "/";
  }

  /** Sessions are isolated: two sessions whose ids are single path segments never
      share a file path, and neither do two different names in one session. */
  lemma {:induction false} SessionFilesDisjoint(cwd: string, a: string, f: string, b: string, g: string)
    requires '/' !in a && '/' !in b
    requires GetSessionFilePath(cwd, a, f) == GetSessionFilePath(cwd, b, g)
    ensures a == b && f == g
  {
    var base := SessionsBase(cwd) + "/";
    var p := GetSessionFilePath(cwd, a, f);
    assert p == base + (a + ['/'] + f);
    assert p == base + (b + ['/'] + g);
    assert p[|base|..] == a + ['/'] + f == b + ['/'] + g;
    SplitAfterField(a, '/', f);
    SplitAfterField(b, '/', g);
    assert Split(a + ['/'] + f, '/')[0] == a;
    assert a == b;
    assert f == (a + ['/'] + f)[|a| + 1..];
  }

  /** One directory entry under the sessions folder: its name, its modification
      time (`None` when `stat` fails) and whether deleting it succeeds. */
  datatype FolderEntry = FolderEntry(name: string, mtime: Option<int>, removable: bool)

  /** The sessions folder listing; `Unreadable` when creating or reading it fails. */
  datatype Listing = Unreadable | Listed(entries: seq<FolderEntry>)

  /** Older than the TTL, strictly: an age of exactly 24 hours is kept. */
  predicate IsStale(e: FolderEntry, now: int) {
    e.mtime.Some? && now - e.mtime.value > SESSION_DURATION
  }

  predicate IsRemoved(e: FolderEntry, now: int) {
    IsStale(e, now) && e.removable
  }

  /** Names of the folders the sweep deletes, in listing order. */
  function RemovedNames(entries: seq<FolderEntry>, now: int): seq<string>
  {
    if |entries| == 0 then []
    else
      var last := entries[|entries| - 1];
      RemovedNames(entries[..|entries| - 1], now) + (if IsRemoved(last, now) then [last.name] else [])
  }

  /** The entries still present after a sweep. */
  function Survivors(entries: seq<FolderEntry>, now: int): seq<FolderEntry>
  {
    if |entries| == 0 then []
    else
      var last := entries[|entries| - 1];
      Survivors(entries[..|entries| - 1], now) + (if IsRemoved(last, now) then [] else [last])
  }

  /** `cleanupOldSessions`: visits every folder, deletes those older than 24 hours,
      skips any folder whose `stat` or deletion fails, and reports how many it
      deleted; if the sessions folder cannot be read it reports 0. */
  method CleanupOldSessions(listing: Listing, now: int) returns (cleaned: nat, removed: seq<string>)
    ensures cleaned == |removed|
    ensures listing.Unreadable? ==> cleaned == 0 && removed == []
    ensures listing.Listed? ==> removed == RemovedNames(listing.entries, now)
  {
    cleaned := 0;
    removed := [];
    if listing.Unreadable? {
      return;
    }
    var entries := listing.entries;
    var i := 0;
    while i < |entries|
      invariant 0 <= i <= |entries|
      invariant removed == RemovedNames(entries[..i], now)
      invariant cleaned == |removed|
    {
      var e := entries[i];
      assert entries[..i + 1][..i] == entries[..i];
      if e.mtime.Some? && now - e.mtime.value > SESSION_DURATION {
        if e.removable {
          removed := removed + [e.name];
          cleaned := cleaned + 1;
        }
      }
      i := i + 1;
    }
    assert entries[..|entries|] == entries;
  }

  lemma {:induction false} RemovedNamesAppend(a: seq<FolderEntry>, b: seq<FolderEntry>, now: int)
    ensures RemovedNames(a + b, now) == RemovedNames(a, now) + RemovedNames(b, now)
    decreases |b|
  {
    if |b| > 0 {
      RemovedNamesAppend(a, b[..|b| - 1], now);
      assert (a + b)[..|a + b| - 1] == a + b[..|b| - 1];
    } else {
      assert a + b == a;
    }
  }

  /** A folder that cannot be inspected or deleted is skipped: the sweep of the
      rest is exactly what it would be without it. */
  lemma FailingFolderSkipped(a: seq<FolderEntry>, bad: FolderEntry, b: seq<FolderEntry>, now: int)
    requires bad.mtime.None? || !bad.removable
    ensures RemovedNames(a + [bad] + b, now) == RemovedNames(a, now) + RemovedNames(b, now)
  {
    RemovedNamesAppend(a + [bad], b, now);
    RemovedNamesAppend(a, [bad], now);
    assert RemovedNames([bad], now) == [] by {
      assert [bad][..0] == [];
    }
    assert RemovedNames(a + [bad], now) == RemovedNames(a, now);
  }

  /** The sweep deletes exactly the stale, deletable folders: each of them is
      reported, and every reported name belongs to one. */
  lemma {:induction false} RemovedNamesExact(entries: seq<FolderEntry>, now: int)
    ensures forall i :: 0 <= i < |entries| && IsRemoved(entries[i], now) ==> entries[i].name in RemovedNames(entries, now)
    ensures forall n :: n in RemovedNames(entries, now) ==>
              exists i :: 0 <= i < |entries| && IsRemoved(entries[i], now) && entries[i].name == n
    decreases |entries|
  {
    if |entries| > 0 {
      var init := entries[..|entries| - 1];
      RemovedNamesExact(init, now);
      forall n | n in RemovedNames(entries, now)
        ensures exists i :: 0 <= i < |entries| && IsRemoved(entries[i], now) && entries[i].name == n
      {
        if n in RemovedNames(init, now) {
          var i :| 0 <= i < |init| && IsRemoved(init[i], now) && init[i].name == n;
          assert entries[i] == init[i];
        } else {
          assert entries[|entries| - 1].name == n;
        }
      }
      forall i | 0 <= i < |entries| && IsRemoved(entries[i], now)
        ensures entries[i].name in RemovedNames(entries, now)
      {
        if i < |init| {
          assert init[i] == entries[i];
        }
      }
    }
  }

  /** The survivors are the entries that are not both stale and deletable. */
  lemma {:induction false} SurvivorsExact(entries: seq<FolderEntry>, now: int)
    ensures forall e :: e in Survivors(entries, now) <==> e in entries && !IsRemoved(e, now)
    decreases |entries|
  {
    if |entries| > 0 {
      var init := entries[..|entries| - 1];
      SurvivorsExact(init, now);
      assert entries == init + [entries[|entries| - 1]];
    }
  }

  /** A second sweep at the same time, over what the first left behind (with the
      same deletion failures), removes nothing. */
  lemma {:induction false} SweepIdempotent(entries: seq<FolderEntry>, now: int)
    ensures RemovedNames(Survivors(entries, now), now) == []
    decreases |entries|
  {
    if |entries| > 0 {
      var init := entries[..|entries| - 1];
      var last := entries[|entries| - 1];
      SweepIdempotent(init, now);
      RemovedNamesAppend(Survivors(init, now), if IsRemoved(last, now) then [] else [last], now);
      if !IsRemoved(last, now) {
        assert [last][..0] == [];
      }
    }
  }
}
