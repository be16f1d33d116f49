/**
 * The database wrapper of db_client.py over an in-memory copy of its two
 * tables. Every store call can fail; whether it does is a parameter
 * (`readOk`, `writeOk`, `fetchOk`), and the wrapper turns each failure into
 * the fallback value the source returns instead of raising.
 */
module Store {
  import opened Wrappers
  import opened Text

  /** A row of the `users` table; a column the row never received is null (`None`). */
  datatype UserRow = UserRow(
    username: Option<string>,
    fullName: Option<string>,
    lastActive: Option<string>,
    warningCount: Option<int>)

  /** The `users` table, keyed by `user_id`. */
  type Table = map<int, UserRow>

  /** A row of the `bad_words` table. */
  datatype WordRow = WordRow(word: string)

  /** What a counter operation leaves: the table afterwards and the count it returns. */
  datatype Counted = Counted(table: Table, count: int)

  /** The counter as a successful read sees it: a missing row, a null and a stored 0 all read as 0. */
  function StoredCount(t: Table, id: int): int {
    if id in t then (match t[id].warningCount case None => 0 case Some(n) => n) else 0
  }

  /** Every stored counter is non-negative: the invariant the counter operations keep. */
  predicate CountsNonNegative(t: Table) {
    forall id :: id in t ==> StoredCount(t, id) >= 0
  }

  /** `_get_warning_count`: the stored counter, or 0 when the row is missing, the column is null or the read fails. */
  function ReadCount(t: Table, id: int, readOk: bool): (c: int)
    ensures !readOk ==> c == 0
    ensures id !in t ==> c == 0
    ensures id in t && t[id].warningCount.None? ==> c == 0
    ensures readOk && id in t && t[id].warningCount.Some? ==> c == t[id].warningCount.value
    ensures CountsNonNegative(t) ==> c >= 0
  {
    if readOk then StoredCount(t, id) else 0
  }

  /** An `upsert` of `{user_id, warning_count}`: the row is created if missing, and its other columns are kept. */
  function WithCount(t: Table, id: int, n: int): (t': Table)
    ensures id in t' && StoredCount(t', id) == n
    ensures id in t ==> t'[id] == t[id].(warningCount := Some(n))
    ensures id !in t ==> t'[id] == UserRow(None, None, None, Some(n))
    ensures t' - {id} == t - {id}
  {
    t[id := if id in t then t[id].(warningCount := Some(n)) else UserRow(None, None, None, Some(n))]
  }

  /**
   * `add_warning`: read the counter, write back one more. On a successful write
   * the row holds and the call returns the read value plus one; on a failed write
   * the table is untouched and the read value comes back. Nothing else changes.
   */
  function AddWarningOutcome(t: Table, id: int, readOk: bool, writeOk: bool): (r: Counted)
    ensures writeOk ==> r.count == ReadCount(t, id, readOk) + 1 && id in r.table && StoredCount(r.table, id) == r.count
    ensures writeOk ==> r.table - {id} == t - {id}
    ensures writeOk ==> id in t ==> r.table[id] == t[id].(warningCount := Some(r.count))
    ensures !writeOk ==> r.count == ReadCount(t, id, readOk) && r.table == t
    ensures !readOk && writeOk ==> r.count == 1
    ensures CountsNonNegative(t) ==> CountsNonNegative(r.table) && r.count >= 0
  {
    var current := ReadCount(t, id, readOk);
    if writeOk then Counted(WithCount(t, id, current + 1), current + 1) else Counted(t, current)
  }

  function Max(a: int, b: int): int {
    if a >= b then a else b
  }

  /**
   * `remove_warning`: read the counter and write back one less, never below 0,
   * through an update that only touches an existing row. An unknown user gets
   * no row and the call returns 0; on a failed write the table is untouched and
   * the read value comes back.
   */
  function RemoveWarningOutcome(t: Table, id: int, readOk: bool, writeOk: bool): (r: Counted)
    ensures writeOk ==> r.count >= 0 && r.count == Max(0, ReadCount(t, id, readOk) - 1)
    ensures writeOk && ReadCount(t, id, readOk) <= 1 ==> r.count == 0
    ensures writeOk && id in t ==> r.table == t[id := t[id].(warningCount := Some(r.count))]
    ensures writeOk && id !in t ==> r.count == 0 && r.table == t
    ensures !writeOk ==> r.count == ReadCount(t, id, readOk) && r.table == t
    ensures CountsNonNegative(t) ==> CountsNonNegative(r.table) && r.count >= 0
  {
    var current := ReadCount(t, id, readOk);
    var newCount := Max(0, current - 1);
    if writeOk then
      Counted(if id in t then t[id := t[id].(warningCount := Some(newCount))] else t, newCount)
    else
      Counted(t, current)
  }

  /** The record `upsert_user` sends for a user. */
  datatype Profile = Profile(userId: int, username: Option<string>, fullName: Option<string>, lastActive: string)

  /** Python's `not name` for an optional string: `None` and the empty string. */
  predicate Falsy(name: Option<string>) {
    name.None? || name.value == []
  }

  /**
   * The record `upsert_user` builds: the id, the username as given, the time
   * of the call, and the given display name, replaced by `User_<id>` when the
   * given one is `None` or empty.
   */
  function ProfileRecord(id: int, username: Option<string>, fullName: Option<string>, now: string): (p: Profile)
    ensures p.userId == id && p.username == username && p.lastActive == now
    ensures Falsy(fullName) ==> p.fullName == Some("User_" + DecimalString(id))
    ensures !Falsy(fullName) ==> p.fullName == fullName
    ensures !Falsy(p.fullName)
  {
    var data := Profile(id, username, fullName, now);
    if Falsy(fullName) then data.(fullName := Some("User_" + DecimalString(id))) else data
  }

  /**
   * An `upsert` of a profile record: the row is created if missing, and gets
   * the record's username, display name and time; its counter is kept.
   */
  function MergeProfile(t: Table, p: Profile): (t': Table)
    ensures p.userId in t'
    ensures t'[p.userId].username == p.username && t'[p.userId].fullName == p.fullName
    ensures t'[p.userId].lastActive == Some(p.lastActive)
    ensures t' - {p.userId} == t - {p.userId}
    ensures forall x :: StoredCount(t', x) == StoredCount(t, x)
    ensures CountsNonNegative(t) ==> CountsNonNegative(t')
  {
    var count := if p.userId in t then t[p.userId].warningCount else None;
    t[p.userId := UserRow(p.username, p.fullName, Some(p.lastActive), count)]
  }

  /** The `word` column of the rows, in row order. */
  function Words(rows: seq<WordRow>): seq<string> {
    seq(|rows|, i requires 0 <= i < |rows| => rows[i].word)
  }

  /** The client of the store, holding the store's `users` and `bad_words` tables. */
  class Database {
    var users: Table
    var badWords: seq<WordRow>

    /** A client connected to a store that holds these tables. */
    constructor (users: Table, badWords: seq<WordRow>)
      ensures this.users == users && this.badWords == badWords
    {
      this.users := users;
      this.badWords := badWords;
    }

    /** `upsert_user`: write the profile record; a failed write is swallowed and changes nothing. */
    method UpsertUser(userId: int, username: Option<string>, fullName: Option<string>, now: string, writeOk: bool)
      modifies this
      ensures writeOk ==> users == MergeProfile(old(users), ProfileRecord(userId, username, fullName, now))
      ensures !writeOk ==> users == old(users)
      ensures badWords == old(badWords)
    {
      var data := Profile(userId, username, fullName, now);
      if Falsy(fullName) {
        data := data.(fullName := Some("User_" + DecimalString(userId)));
      }
      if writeOk {
        users := MergeProfile(users, data);
      }
    }

    /** `add_warning`: see `AddWarningOutcome`. */
    method AddWarning(userId: int, readOk: bool, writeOk: bool) returns (count: int)
      modifies this
      ensures Counted(users, count) == AddWarningOutcome(old(users), userId, readOk, writeOk)
      ensures badWords == old(badWords)
    {
      var current := ReadCount(users, userId, readOk);
      var newCount := current + 1;
      if writeOk {
        users := WithCount(users, userId, newCount);
        count := newCount;
      } else {
        count := current;
      }
    }

    /** `remove_warning`: see `RemoveWarningOutcome`. */
    method RemoveWarning(userId: int, readOk: bool, writeOk: bool) returns (count: int)
      modifies this
      ensures Counted(users, count) == RemoveWarningOutcome(old(users), userId, readOk, writeOk)
      ensures badWords == old(badWords)
    {
      var current := ReadCount(users, userId, readOk);
      var newCount := Max(0, current - 1);
      if writeOk {
        if userId in users {
          users := users[userId := users[userId].(warningCount := Some(newCount))];
        }
        count := newCount;
      } else {
        count := current;
      }
    }

    /** `get_bad_words`: the stored words in row order, or the empty list when the fetch fails. */
    function GetBadWords(fetchOk: bool): (ws: seq<string>)
      reads this
      ensures fetchOk ==> |ws| == |badWords| && forall i :: 0 <= i < |ws| ==> ws[i] == badWords[i].word
      ensures !fetchOk ==> ws == []
    {
      if fetchOk then Words(badWords) else []
    }
  }
}
