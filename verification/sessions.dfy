/** `MemorySessionRepository` (src/bot/repositories/sessions.py): per user, the
    current locator and a bounded history of saved locators. */
module Sessions {

  import opened Base
  import opened Locators

  const DefaultMaxHistoryLength: int := 50

  datatype Session = Session(locator: Locator, history: seq<Locator>)

  datatype SessionRepository = SessionRepository(maxHistoryLength: int, sessions: map<int, Session>)

  /** `MemorySessionRepository()`: no user is known yet, and histories keep at
      most 50 locators. */
  function DefaultRepository(): (r: SessionRepository)
    ensures r.sessions == map[] && Capacity(r) == 50
    ensures HistoriesBounded(r)
  {
    NewRepository(DefaultMaxHistoryLength)
  }

  /** `MemorySessionRepository(max_history_length=n)`: no user is known yet. */
  function NewRepository(maxHistoryLength: int): (r: SessionRepository)
    ensures r.maxHistoryLength == maxHistoryLength && r.sessions == map[]
  {
    SessionRepository(maxHistoryLength, map[])
  }

  /** Python's `s[:n]`: a negative `n` counts from the end, and the result never
      runs past either end. */
  function PyPrefix<T>(s: seq<T>, n: int): (r: seq<T>)
    ensures |r| == if n >= 0 then (if n < |s| then n else |s|) else (if |s| + n > 0 then |s| + n else 0)
    ensures r <= s
  {
    if n >= |s| then s
    else if n >= 0 then s[..n]
    else if |s| + n > 0 then s[..|s| + n]
    else []
  }

  /** The largest history the repository ever keeps. */
  function Capacity(repo: SessionRepository): nat {
    if repo.maxHistoryLength > 0 then repo.maxHistoryLength else 0
  }

  /** `save_user_history`: append, then keep only the first `max_history_length`
      entries; an unknown user is ignored. */
  function SaveUserHistory(repo: SessionRepository, userId: int, loc: Locator): (r: SessionRepository)
    ensures r.maxHistoryLength == repo.maxHistoryLength && r.sessions.Keys == repo.sessions.Keys
    ensures forall u :: u in repo.sessions && u != userId ==> r.sessions[u] == repo.sessions[u]
    ensures userId in repo.sessions ==> r.sessions[userId].locator == repo.sessions[userId].locator
  {
    if userId in repo.sessions then
      var s := repo.sessions[userId];
      var h := s.history + [loc];
      var h' := if |h| > repo.maxHistoryLength then PyPrefix(h, repo.maxHistoryLength) else h;
      repo.(sessions := repo.sessions[userId := s.(history := h')])
    else repo
  }

  /** `save_user_locator`: create the user's record on first save, replace the
      current locator otherwise, then record the locator in the history. */
  function SaveUserLocator(repo: SessionRepository, userId: int, loc: Locator): (r: SessionRepository)
    ensures r.maxHistoryLength == repo.maxHistoryLength
    ensures r.sessions.Keys == repo.sessions.Keys + {userId}
    ensures r.sessions[userId].locator == loc
  {
    var created :=
      if userId !in repo.sessions then repo.(sessions := repo.sessions[userId := Session(loc, [])])
      else repo.(sessions := repo.sessions[userId := repo.sessions[userId].(locator := loc)]);
    SaveUserHistory(created, userId, loc)
  }

  /** `get_locator_by_user_id`. */
  function GetLocatorByUserId(repo: SessionRepository, userId: int): (r: Option<Locator>)
    ensures r.None? <==> userId !in repo.sessions
    ensures r.Some? ==> r.value == repo.sessions[userId].locator
  {
    if userId in repo.sessions then Some(repo.sessions[userId].locator) else None
  }

  /** `get_user_history`. */
  function GetUserHistory(repo: SessionRepository, userId: int): (r: seq<Locator>)
    ensures userId !in repo.sessions ==> r == []
    ensures HistoriesBounded(repo) ==> |r| <= Capacity(repo)
  {
    if userId in repo.sessions then repo.sessions[userId].history else []
  }

  /** After a save, reading the user's locator gives the saved one back. */
  lemma SaveThenGet(repo: SessionRepository, userId: int, loc: Locator)
    ensures GetLocatorByUserId(SaveUserLocator(repo, userId, loc), userId) == Some(loc)
  {
  }

  /** A user never saved has no locator and an empty history. */
  lemma UnknownUser(repo: SessionRepository, userId: int)
    requires userId !in repo.sessions
    ensures GetLocatorByUserId(repo, userId) == None
    ensures GetUserHistory(repo, userId) == []
  {
  }

  /** The first save for a user starts the history with that single locator
      (or with nothing, if the bound is zero or negative). */
  lemma FirstSaveHistory(repo: SessionRepository, userId: int, loc: Locator)
    requires userId !in repo.sessions
    ensures repo.maxHistoryLength >= 1 ==> GetUserHistory(SaveUserLocator(repo, userId, loc), userId) == [loc]
    ensures repo.maxHistoryLength < 1 ==> GetUserHistory(SaveUserLocator(repo, userId, loc), userId) == []
  {
  }

  /** Every history respects the bound. */
  predicate HistoriesBounded(repo: SessionRepository) {
    forall u :: u in repo.sessions ==> |repo.sessions[u].history| <= Capacity(repo)
  }

  /** A fresh repository is bounded, and every save keeps it bounded. */
  lemma SaveKeepsHistoryBounded(repo: SessionRepository, userId: int, loc: Locator)
    requires HistoriesBounded(repo)
    ensures HistoriesBounded(NewRepository(repo.maxHistoryLength))
    ensures HistoriesBounded(SaveUserLocator(repo, userId, loc))
  {
    var r := SaveUserLocator(repo, userId, loc);
    forall u | u in r.sessions ensures |r.sessions[u].history| <= Capacity(r) {
      if u != userId {
        assert r.sessions[u] == repo.sessions[u];
      }
    }
  }

  /** Truncation keeps the oldest entries: the previous history is always a
      prefix of the new one; below the bound the locator is appended, and once
      the history is full it stays as it is while the current locator still moves. */
  lemma {:induction false} SaveKeepsOldest(repo: SessionRepository, userId: int, loc: Locator)
    requires HistoriesBounded(repo)
    requires userId in repo.sessions
    ensures GetUserHistory(repo, userId) <= GetUserHistory(SaveUserLocator(repo, userId, loc), userId)
    ensures |GetUserHistory(repo, userId)| < repo.maxHistoryLength ==>
      GetUserHistory(SaveUserLocator(repo, userId, loc), userId) == GetUserHistory(repo, userId) + [loc]
    ensures |GetUserHistory(repo, userId)| >= repo.maxHistoryLength ==>
      GetUserHistory(SaveUserLocator(repo, userId, loc), userId) == GetUserHistory(repo, userId)
    ensures GetLocatorByUserId(SaveUserLocator(repo, userId, loc), userId) == Some(loc)
  {
    var h := repo.sessions[userId].history;
    assert |h| <= Capacity(repo);
    var h2 := h + [loc];
    if |h2| > repo.maxHistoryLength {
      assert PyPrefix(h2, repo.maxHistoryLength) == h by {
        if repo.maxHistoryLength >= 0 {
          assert |h| == repo.maxHistoryLength;
          assert h2[..repo.maxHistoryLength] == h;
        } else {
          assert h == [];
        }
      }
    }
  }

  /** `save_user_history` for a user with no record does nothing. */
  lemma SaveHistoryUnknownUser(repo: SessionRepository, userId: int, loc: Locator)
    requires userId !in repo.sessions
    ensures SaveUserHistory(repo, userId, loc) == repo
  {
  }

  /** Saving for one user leaves every other user's locator and history alone. */
  lemma SaveIsolatesUsers(repo: SessionRepository, userId: int, loc: Locator, other: int)
    requires other != userId
    ensures GetLocatorByUserId(SaveUserLocator(repo, userId, loc), other) == GetLocatorByUserId(repo, other)
    ensures GetUserHistory(SaveUserLocator(repo, userId, loc), other) == GetUserHistory(repo, other)
  {
  }

  // ---------------------------------------------------------------------------
  // Bounded history with eviction of the oldest entry: the newest locator
  // always survives a save (the source's slice `[:n]` keeps the oldest instead).

  /** The last `n` entries of `s`, so nothing for `n == 0`. For `n >= 1` this is
      Python's `s[-n:]`; Python's `s[-0:]` would be all of `s`, which is why the
      corrected save below is stated with this function and not with `-n`. */
  function KeepNewest<T>(s: seq<T>, n: nat): (r: seq<T>)
    ensures |r| == if n < |s| then n else |s|
    ensures forall i :: 0 <= i < |r| ==> r[i] == s[|s| - |r| + i]
  {
    if n < |s| then s[|s| - n..] else s
  }

  /** `save_user_history` with `history[-max_history_length:]` in place of `[:max_history_length]`. */
  function SaveUserHistoryEvicting(repo: SessionRepository, userId: int, loc: Locator): (r: SessionRepository)
    ensures r.maxHistoryLength == repo.maxHistoryLength && r.sessions.Keys == repo.sessions.Keys
  {
    if userId in repo.sessions then
      var s := repo.sessions[userId];
      var h := s.history + [loc];
      var h' := if |h| > repo.maxHistoryLength then KeepNewest(h, Capacity(repo)) else h;
      repo.(sessions := repo.sessions[userId := s.(history := h')])
    else repo
  }

  function SaveUserLocatorEvicting(repo: SessionRepository, userId: int, loc: Locator): (r: SessionRepository)
    ensures r.maxHistoryLength == repo.maxHistoryLength
    ensures r.sessions.Keys == repo.sessions.Keys + {userId}
  {
    var created :=
      if userId !in repo.sessions then repo.(sessions := repo.sessions[userId := Session(loc, [])])
      else repo.(sessions := repo.sessions[userId := repo.sessions[userId].(locator := loc)]);
    SaveUserHistoryEvicting(created, userId, loc)
  }

  /** With eviction, the newest locator is always the last history entry
      (for a positive bound), the bound is kept, and once the history is full
      the oldest entry is the one dropped. */
  lemma {:induction false} EvictingSaveKeepsNewest(repo: SessionRepository, userId: int, loc: Locator)
    requires HistoriesBounded(repo)
    requires repo.maxHistoryLength >= 1
    ensures HistoriesBounded(SaveUserLocatorEvicting(repo, userId, loc))
    ensures var h' := GetUserHistory(SaveUserLocatorEvicting(repo, userId, loc), userId);
      |h'| > 0 && h'[|h'| - 1] == loc
    ensures var h := GetUserHistory(repo, userId);
      |h| == repo.maxHistoryLength ==>
        GetUserHistory(SaveUserLocatorEvicting(repo, userId, loc), userId) == h[1..] + [loc]
  {
    var r := SaveUserLocatorEvicting(repo, userId, loc);
    forall u | u in r.sessions ensures |r.sessions[u].history| <= Capacity(r) {
      if u != userId {
        assert r.sessions[u] == repo.sessions[u];
      }
    }
    var h := GetUserHistory(repo, userId);
    if |h| == repo.maxHistoryLength {
      assert userId in repo.sessions;
      var h2 := h + [loc];
      assert KeepNewest(h2, Capacity(repo)) == h2[1..];
      assert h2[1..] == h[1..] + [loc];
    }
  }

  /** The source's repository keeps a full history unchanged where eviction
      would have dropped the oldest entry: with a bound of 1, saving `b` after
      `a` leaves `[a]` in the source and `[b]` with eviction. */
  lemma TruncationKeepsOldestCounterexample(a: Locator, b: Locator)
    requires a != b
    ensures var r := SaveUserLocator(NewRepository(1), 7, a);
      GetUserHistory(SaveUserLocator(r, 7, b), 7) == [a]
    ensures var r := SaveUserLocatorEvicting(NewRepository(1), 7, a);
      GetUserHistory(SaveUserLocatorEvicting(r, 7, b), 7) == [b]
  {
    var r := SaveUserLocator(NewRepository(1), 7, a);
    assert GetUserHistory(r, 7) == [a];
    assert ([a] + [b])[..1] == [a];
    var e := SaveUserLocatorEvicting(NewRepository(1), 7, a);
    assert GetUserHistory(e, 7) == [a];
    assert ([a] + [b])[1..] == [b];
  }
}
