/** The conversation store (`Session` and `SessionManager` in
    app/services/session_manager.py): sessions keyed by id, each with a bounded
    diagnosis history, a context line derived from the newest entry and a
    sliding expiry window. Time is an integer `now` handed to every operation;
    the lock is gone because every public method is one atomic step; the random
    session id is an argument. */
module Sessions {
  import opened Common
  import opened Records

  /** One `diagnosis_history` entry. */
  datatype HistoryEntry = HistoryEntry(imageHash: string, diagnosis: DiagnosisRecord, timestamp: int)

  // ---------------------------------------------------------------------------
  // The context summary

  function DigitChar(d: nat): char
    requires d < 10
  {
    ('0' as int + d) as char
  }

  /** The decimal text of `n`, as an f-string prints an int. */
  function DecimalString(n: nat): (r: string)
    ensures |r| >= 1
    ensures forall i :: 0 <= i < |r| ==> '0' <= r[i] <= '9'
  {
    if n < 10 then [DigitChar(n)] else DecimalString(n / 10) + [DigitChar(n % 10)]
  }

  /** The number a string of decimal digits denotes. */
  function DecimalValue(s: string): nat
    requires forall i :: 0 <= i < |s| ==> '0' <= s[i] <= '9'
  {
    if s == [] then 0 else DecimalValue(s[..|s| - 1]) * 10 + (s[|s| - 1] as int - '0' as int)
  }

  /** The step count in the context can be read back exactly. */
  lemma {:induction false} DecimalRoundTrip(n: nat)
    ensures DecimalValue(DecimalString(n)) == n
  {
    var s := DecimalString(n);
    if n >= 10 {
      DecimalRoundTrip(n / 10);
      assert s[..|s| - 1] == DecimalString(n / 10);
    }
  }

  /** The three-line summary of one diagnosis, with the source's defaults for
      missing keys. */
  function Summary(d: DiagnosisRecord): string {
    "Object: " + d.objectIdentified.GetOr("unknown object") +
    "\nIssue: " + d.failureMode.GetOr("unknown issue") +
    "\nSteps provided: " + DecimalString(|d.repairSteps.GetOr([])|)
  }

  /** `_update_context`: the summary of the newest entry, "" for no history. */
  function ContextOf(history: seq<HistoryEntry>): string {
    if history == [] then "" else Summary(history[|history| - 1].diagnosis)
  }

  /** The context is empty exactly when there is no history, and otherwise
      depends on the newest entry alone. This is what lets an empty context
      stand for "no prior diagnosis". */
  lemma ContextEmptyIffNoHistory(history: seq<HistoryEntry>, older: seq<HistoryEntry>)
    ensures ContextOf(history) == "" <==> history == []
    ensures history != [] ==> ContextOf(older + history) == ContextOf(history)
    ensures history != [] ==> ContextOf(history)[..8] == "Object: "
  {
    if history != [] {
      assert (older + history)[|older + history| - 1] == history[|history| - 1];
    }
  }

  /** The newest entry's diagnosis, if any. */
  function LatestOf(history: seq<HistoryEntry>): Option<DiagnosisRecord> {
    if history == [] then None else Some(history[|history| - 1].diagnosis)
  }

  // ---------------------------------------------------------------------------
  // The history bound

  /** Keep only the newest `n` entries, dropping the oldest. */
  function Truncate(h: seq<HistoryEntry>, n: nat): seq<HistoryEntry> {
    if |h| > n then h[|h| - n..] else h
  }

  /** The slice `h[-n:]` as Python evaluates it: `-0` is `0`, so for `n == 0`
      the slice starts at the front and keeps everything. */
  function TruncateAsWritten(h: seq<HistoryEntry>, n: nat): seq<HistoryEntry> {
    if |h| > n then (if n == 0 then h[0..] else h[|h| - n..]) else h
  }

  /** With `max_session_history = 0` the code as written never shortens the
      history: one diagnosis leaves a history of length 1 > 0. */
  lemma TruncateAsWrittenIgnoresZero(e: HistoryEntry)
    ensures TruncateAsWritten([e], 0) == [e]
    ensures |TruncateAsWritten([e], 0)| > 0
  {
  }

  /** For every positive bound the code as written and `Truncate` agree. */
  lemma TruncateAgreesForPositiveBound(h: seq<HistoryEntry>, n: nat)
    requires n > 0
    ensures TruncateAsWritten(h, n) == Truncate(h, n)
  {
  }

  /** `Truncate` keeps exactly the newest `min(|h|, n)` entries in their
      original order. */
  lemma TruncateKeepsNewest(h: seq<HistoryEntry>, n: nat)
    ensures var r := Truncate(h, n);
      && |r| <= n
      && |r| == (if |h| > n then n else |h|)
      && forall i :: 0 <= i < |r| ==> r[i] == h[|h| - |r| + i]
  {
    if |h| > n {
      var r := h[|h| - n..];
      assert |r| == n;
      forall i | 0 <= i < n
        ensures r[i] == h[|h| - n + i]
      {
      }
    }
  }

  /** Appending an entry and truncating to a positive bound leaves that entry
      newest, so it is what the latest diagnosis and the context report. */
  lemma AppendThenTruncate(h: seq<HistoryEntry>, e: HistoryEntry, n: nat)
    requires n > 0
    ensures var r := Truncate(h + [e], n);
      && r != [] && r[|r| - 1] == e
      && LatestOf(r) == Some(e.diagnosis)
      && ContextOf(r) == Summary(e.diagnosis)
  {
    var u := h + [e];
    var r := Truncate(u, n);
    assert r[|r| - 1] == u[|u| - 1];
  }

  // ---------------------------------------------------------------------------
  // Abstract state of a session and of the store

  /** What a session holds apart from its identity and settings. */
  datatype SessionState = SessionState(lastAccessed: int, history: seq<HistoryEntry>, context: string) {

    /** `is_expired`: strictly more than the time-to-live since the last access. */
    predicate Expired(now: int, ttlSeconds: int) {
      now - lastAccessed > ttlSeconds
    }
  }

  /** The session `get_session(id)` finds: present and not expired. */
  predicate Found(v: map<string, SessionState>, id: string, now: int, ttlSeconds: int) {
    id in v && !v[id].Expired(now, ttlSeconds)
  }

  /** The store after `get_session(id)`: unchanged when `id` is absent, the
      session deleted when it has expired, otherwise its access time set to `now`. */
  function AfterAccess(v: map<string, SessionState>, id: string, now: int, ttlSeconds: int): map<string, SessionState> {
    if id !in v then v
    else if v[id].Expired(now, ttlSeconds) then v - {id}
    else v[id := v[id].(lastAccessed := now)]
  }

  /** The sessions `cleanup_expired` keeps. */
  function Unexpired(v: map<string, SessionState>, now: int, ttlSeconds: int): map<string, SessionState> {
    map id | id in v && !v[id].Expired(now, ttlSeconds) :: v[id]
  }

  /** The store after `update_session(id, ...)` records `e`: the previous
      history under `id` (none for a new session; an expired one is reused as it
      is) plus `e`, bounded, with the context refreshed and the access time set
      to the entry's time. */
  function Recorded(v: map<string, SessionState>, id: string, e: HistoryEntry, maxHistory: nat): map<string, SessionState> {
    var h := Truncate((if id in v then v[id].history else []) + [e], maxHistory);
    v[id := SessionState(e.timestamp, h, ContextOf(h))]
  }

  /** After recording, the session exists, every other session is as it was,
      and (for a positive bound) the recorded diagnosis is the latest one and
      the one the context summarises. */
  lemma RecordedIsLatest(v: map<string, SessionState>, id: string, e: HistoryEntry, maxHistory: nat, other: string)
    requires maxHistory > 0
    ensures var r := Recorded(v, id, e, maxHistory);
      && r.Keys == v.Keys + {id}
      && LatestOf(r[id].history) == Some(e.diagnosis)
      && r[id].context == Summary(e.diagnosis)
      && r[id].lastAccessed == e.timestamp
      && |r[id].history| <= maxHistory
      && (other != id && other in v ==> r[other] == v[other])
  {
    var before := if id in v then v[id].history else [];
    var h := Truncate(before + [e], maxHistory);
    AppendThenTruncate(before, e, maxHistory);
    assert Recorded(v, id, e, maxHistory) == v[id := SessionState(e.timestamp, h, ContextOf(h))];
  }

  /** Filing twice under one id keeps the second value only. */
  lemma UpdateTwice(v: map<string, SessionState>, id: string, a: SessionState, b: SessionState)
    ensures v[id := a][id := b] == v[id := b]
  {
  }

  /** Deleting a filed id shrinks the store by one. */
  lemma RemoveOne<V>(v: map<string, V>, id: string)
    requires id in v
    ensures |v - {id}| == |v| - 1
  {
    assert (v - {id}).Keys == v.Keys - {id};
  }

  /** Filing under a new id grows the store by one. */
  lemma AddOne<V>(v: map<string, V>, id: string, x: V)
    requires id !in v
    ensures |v[id := x]| == |v| + 1
  {
    assert v[id := x].Keys == v.Keys + {id};
  }

  /** A sub-map of `v` that holds exactly its unexpired sessions is `Unexpired`. */
  lemma UnexpiredKeys(v: map<string, SessionState>, w: map<string, SessionState>, now: int, ttlSeconds: int)
    requires forall k :: k in w <==> k in v && !v[k].Expired(now, ttlSeconds)
    requires forall k :: k in w ==> w[k] == v[k]
    ensures w == Unexpired(v, now, ttlSeconds)
  {
  }

  lemma DeleteStep<V>(m: map<string, V>, ids: set<string>, todo: set<string>, id: string)
    requires todo <= ids && id in todo
    ensures (m - (ids - todo)) - {id} == m - (ids - (todo - {id}))
    ensures |ids - (todo - {id})| == |ids - todo| + 1
  {
    assert ids - (todo - {id}) == (ids - todo) + {id};
  }

  /** Keeping the unexpired sessions is deleting the expired ones. */
  lemma UnexpiredIsRemoval(v: map<string, SessionState>, expired: set<string>, now: int, ttlSeconds: int)
    requires forall k :: k in expired <==> k in v && v[k].Expired(now, ttlSeconds)
    ensures Unexpired(v, now, ttlSeconds) == v - expired
    ensures |v - expired| == |v| - |expired|
  {
    var r := v - expired;
    assert r.Keys == v.Keys - expired;
    assert |r| == |r.Keys| && |v| == |v.Keys|;
  }

  /** The deletion loop of `cleanup_expired`: delete each given id, counting
      the deletions. */
  method DeleteAll<V>(m: map<string, V>, ids: set<string>) returns (r: map<string, V>, removed: nat)
    requires ids <= m.Keys
    ensures r == m - ids
    ensures removed == |ids| == |m| - |r|
  {
    r := m;
    removed := 0;
    var todo := ids;
    while todo != {}
      invariant todo <= ids && todo <= r.Keys
      invariant r == m - (ids - todo)
      invariant removed == |ids - todo|
      invariant |r| == |m| - removed
      decreases |todo|
    {
      var id :| id in todo;
      RemoveOne(r, id);
      DeleteStep(m, ids, todo, id);
      r := r - {id};
      todo := todo - {id};
      removed := removed + 1;
    }
    assert ids - todo == ids;
  }

  /** The sliding window: a session found at `t1` is, after that access, found
      again at `t2` exactly when no more than the time-to-live has passed since
      `t1`; it does not matter when it was created. */
  lemma SlidingWindow(v: map<string, SessionState>, id: string, t1: int, t2: int, ttlSeconds: int)
    requires Found(v, id, t1, ttlSeconds)
    ensures Found(AfterAccess(v, id, t1, ttlSeconds), id, t2, ttlSeconds) <==> t2 - t1 <= ttlSeconds
  {
    assert AfterAccess(v, id, t1, ttlSeconds)[id].lastAccessed == t1;
  }

  /** A second lookup at the same instant finds the session the first one
      found and changes nothing more. */
  lemma AccessTwice(v: map<string, SessionState>, id: string, now: int, ttlSeconds: int)
    requires ttlSeconds >= 0 && Found(v, id, now, ttlSeconds)
    ensures var w := AfterAccess(v, id, now, ttlSeconds);
      && Found(w, id, now, ttlSeconds)
      && w[id] == v[id].(lastAccessed := now)
      && AfterAccess(w, id, now, ttlSeconds) == w
  {
    var w := AfterAccess(v, id, now, ttlSeconds);
    assert w[id].lastAccessed == now;
    assert w[id := w[id].(lastAccessed := now)] == w;
  }

  /** An access only ever touches its own session. */
  lemma AccessLeavesOthers(v: map<string, SessionState>, id: string, other: string, now: int, ttlSeconds: int)
    requires other != id
    ensures other in AfterAccess(v, id, now, ttlSeconds) <==> other in v
    ensures other in v ==> AfterAccess(v, id, now, ttlSeconds)[other] == v[other]
  {
  }

  /** `cleanup_expired` deletes exactly the expired sessions and leaves every
      other session as it was; nothing it keeps is expired. */
  lemma UnexpiredIsExact(v: map<string, SessionState>, now: int, ttlSeconds: int, id: string)
    ensures id in Unexpired(v, now, ttlSeconds) <==> id in v && !v[id].Expired(now, ttlSeconds)
    ensures id in Unexpired(v, now, ttlSeconds) ==> Unexpired(v, now, ttlSeconds)[id] == v[id]
    ensures Unexpired(v, now, ttlSeconds).Keys <= v.Keys
  {
  }

  // ---------------------------------------------------------------------------
  // The objects

  /** `Session`: one conversation. */
  class Session {
    const sessionId: string
    const createdAt: int
    const maxHistory: nat
    const ttlSeconds: int
    var lastAccessed: int
    var history: seq<HistoryEntry>
    var context: string

    /** The history is bounded and the context is always derived from it. */
    ghost predicate Valid()
      reads this
    {
      |history| <= maxHistory && context == ContextOf(history)
    }

    ghost function State(): SessionState
      reads this
    {
      SessionState(lastAccessed, history, context)
    }

    constructor (sessionId: string, now: int, maxHistory: nat, ttlSeconds: int)
      ensures Valid()
      ensures this.sessionId == sessionId && this.maxHistory == maxHistory && this.ttlSeconds == ttlSeconds
      ensures createdAt == now && lastAccessed == now && history == [] && context == ""
    {
      this.sessionId := sessionId;
      this.maxHistory := maxHistory;
      this.ttlSeconds := ttlSeconds;
      createdAt := now;
      lastAccessed := now;
      history := [];
      context := "";
    }

    /** `add_diagnosis`: append, keep the newest `maxHistory`, refresh the context. */
    method AddDiagnosis(imageHash: string, diagnosis: DiagnosisRecord, now: int)
      requires Valid()
      modifies this`history, this`context
      ensures Valid()
      ensures history == Truncate(old(history) + [HistoryEntry(imageHash, diagnosis, now)], maxHistory)
      ensures context == ContextOf(history) && lastAccessed == old(lastAccessed)
    {
      var h := history + [HistoryEntry(imageHash, diagnosis, now)];
      if |h| > maxHistory {
        h := h[|h| - maxHistory..];
      }
      history := h;
      UpdateContext();
    }

    /** `_update_context`. */
    method UpdateContext()
      modifies this`context
      ensures context == ContextOf(history)
    {
      if history == [] {
        context := "";
        return;
      }
      var latest := history[|history| - 1].diagnosis;
      context := Summary(latest);
    }

    /** `get_latest_diagnosis`. */
    function LatestDiagnosis(): (d: Option<DiagnosisRecord>)
      reads this
      ensures d.None? <==> history == []
      ensures d.Some? ==> d.value == history[|history| - 1].diagnosis
    {
      LatestOf(history)
    }

    /** `is_expired`. */
    predicate IsExpired(now: int)
      reads this
    {
      now - lastAccessed > ttlSeconds
    }

    /** `touch`. */
    method Touch(now: int)
      modifies this`lastAccessed
      ensures lastAccessed == now
      ensures State() == old(State()).(lastAccessed := now)
    {
      lastAccessed := now;
    }
  }

  /** `SessionManager`: the sessions by id, with the history bound and the
      time-to-live (in minutes) every session uses. The ghost field `view` is the
      store's contents as values; `Valid` ties it to the session objects. */
  class SessionManager {
    const maxHistory: nat
    const ttlMinutes: nat
    var sessions: map<string, Session>
    ghost var view: map<string, SessionState>
    ghost var Repr: set<Session>

    /** Every session is filed under its own id, so distinct ids hold distinct
        objects; every session is one `Filed` describes. */
    ghost predicate Valid()
      reads this, Repr
    {
      && view.Keys == sessions.Keys
      && forall id :: id in sessions ==> Filed(id)
    }

    /** The session under `id` belongs to `Repr`, carries that id, is valid,
        uses the store's settings and is described by `view[id]`. */
    ghost predicate Filed(id: string)
      reads this, Repr
    {
      && id in sessions && id in view
      && var s := sessions[id];
      && s in Repr
      && s.sessionId == id
      && s.maxHistory == maxHistory
      && s.ttlSeconds == ttlMinutes * 60
      && s.Valid()
      && view[id] == s.State()
    }

    constructor (maxHistory: nat, ttlMinutes: nat)
      ensures Valid() && view == map[]
      ensures this.maxHistory == maxHistory && this.ttlMinutes == ttlMinutes
    {
      this.maxHistory := maxHistory;
      this.ttlMinutes := ttlMinutes;
      sessions := map[];
      view := map[];
      Repr := {};
    }

    /** `create_session`, with the new id given: a session with no history and
        no context, filed under `id` (`AddOne`: a new id adds one session). */
    method CreateSession(id: string, now: int) returns (sid: string)
      requires Valid()
      modifies this
      ensures Valid()
      ensures sid == id
      ensures view == old(view)[id := SessionState(now, [], "")]
      ensures id in sessions && fresh(sessions[id]) && Repr == old(Repr) + {sessions[id]}
    {
      var s := new Session(id, now, maxHistory, ttlMinutes * 60);
      sessions := sessions[id := s];
      view := view[id := s.State()];
      Repr := Repr + {s};
      sid := id;
    }

    /** `get_session`. */
    method GetSession(id: string, now: int) returns (r: Session?)
      requires Valid()
      modifies this, Repr
      ensures Valid() && Repr == old(Repr)
      ensures view == AfterAccess(old(view), id, now, ttlMinutes * 60)
      ensures r != null <==> Found(old(view), id, now, ttlMinutes * 60)
      ensures r != null ==> id in sessions && r == sessions[id] && r.State() == view[id]
      ensures sessions == if id in old(sessions) && !Found(old(view), id, now, ttlMinutes * 60)
                          then old(sessions) - {id} else old(sessions)
    {
      if id !in sessions {
        r := null;
        return;
      }
      var s := sessions[id];
      if s.IsExpired(now) {
        Discard(id);
        r := null;
        return;
      }
      Refresh(id, now);
      r := s;
    }

    /** `del self._sessions[id]`. */
    method Discard(id: string)
      requires Valid() && id in sessions
      modifies this
      ensures Valid() && Repr == old(Repr)
      ensures sessions == old(sessions) - {id} && view == old(view) - {id}
    {
      sessions := sessions - {id};
      view := view - {id};
      RemovalKeepsValid({id});
    }

    /** The live session under `id` gets `now` as its access time. */
    method Refresh(id: string, now: int)
      requires Valid() && id in sessions
      modifies this`view, sessions[id]
      ensures Valid() && Repr == old(Repr)
      ensures view == old(view)[id := old(view)[id].(lastAccessed := now)]
      ensures sessions[id].State() == view[id]
    {
      var s := sessions[id];
      s.Touch(now);
      view := view[id := s.State()];
      OthersUntouched(s);
    }

    /** After a change to the session `s` alone, the other sessions are as they
        were, because each is filed under its own id. */
    twostate lemma OthersUntouched(s: Session)
      requires old(Valid()) && s.sessionId in old(sessions) && old(sessions[s.sessionId]) == s
      requires sessions == old(sessions) && view.Keys == old(view.Keys) && Repr == old(Repr)
      requires forall o :: o in old(Repr) && o != s ==> unchanged(o)
      requires s.sessionId in view && view[s.sessionId] == s.State() && s.Valid()
      requires forall k :: k in view && k != s.sessionId ==> view[k] == old(view[k])
      ensures Valid()
    {
      forall k | k in sessions && k != s.sessionId
        ensures sessions[k] != s && sessions[k].State() == view[k] && sessions[k].Valid()
      {
        assert old(sessions[k].sessionId) == k;
      }
    }

    /** Deleting sessions leaves the rest of the store valid. */
    twostate lemma RemovalKeepsValid(ids: set<string>)
      requires old(Valid())
      requires sessions == old(sessions) - ids && view == old(view) - ids
      requires Repr == old(Repr) && unchanged(Repr)
      ensures Valid()
    {
      forall k | k in sessions
        ensures sessions[k] == old(sessions[k])
      {
      }
    }

    /** `update_session`: file a new session under `id` when there is none (an
        expired one is reused as it is), append the diagnosis, touch. */
    method UpdateSession(id: string, imageHash: string, diagnosis: DiagnosisRecord, now: int)
      requires Valid()
      modifies this, Repr
      ensures Valid() && fresh(Repr - old(Repr))
      ensures view == Recorded(old(view), id, HistoryEntry(imageHash, diagnosis, now), maxHistory)
    {
      ghost var v0 := view;
      EnsureSession(id, now);
      ghost var v1 := view;
      ghost var a := v1[id];
      ghost var h := Truncate(a.history + [HistoryEntry(imageHash, diagnosis, now)], maxHistory);
      Append(id, imageHash, diagnosis, now);
      ghost var v2 := view;
      Refresh(id, now);
      UpdateTwice(v1, id, v2[id], SessionState(now, h, ContextOf(h)));
      UpdateTwice(v0, id, a, SessionState(now, h, ContextOf(h)));
    }

    /** The first part of `update_session`: the session filed under `id`, or a
        new one filed there. */
    method EnsureSession(id: string, now: int)
      requires Valid()
      modifies this
      ensures Valid() && id in sessions && old(Repr) <= Repr && fresh(Repr - old(Repr))
      ensures id in old(sessions) ==> sessions[id] == old(sessions[id]) && Repr == old(Repr)
      ensures id !in old(sessions) ==> fresh(sessions[id]) && Repr == old(Repr) + {sessions[id]}
      ensures view == old(view)[id := if id in old(view) then old(view)[id] else SessionState(now, [], "")]
    {
      if id !in sessions {
        var _ := CreateSession(id, now);
      } else {
        assert view == view[id := view[id]];
      }
    }

    /** `add_diagnosis` on the session filed under `id`. */
    method Append(id: string, imageHash: string, diagnosis: DiagnosisRecord, now: int)
      requires Valid() && id in sessions
      modifies this`view, sessions[id]
      ensures Valid() && Repr == old(Repr)
      ensures var h := Truncate(old(view)[id].history + [HistoryEntry(imageHash, diagnosis, now)], maxHistory);
        view == old(view)[id := old(view)[id].(history := h, context := ContextOf(h))]
    {
      var s := sessions[id];
      assert old(Filed(id));
      s.AddDiagnosis(imageHash, diagnosis, now);
      view := view[id := s.State()];
      forall k | k in sessions
        ensures Filed(k)
      {
        if k != id {
          assert old(Filed(k)) && sessions[k] != s;
        }
      }
    }

    /** `get_context`: the context of the session `get_session` finds, else "". */
    method GetContext(id: string, now: int) returns (c: string)
      requires Valid()
      modifies this, Repr
      ensures Valid() && Repr == old(Repr)
      ensures view == AfterAccess(old(view), id, now, ttlMinutes * 60)
      ensures c == if Found(old(view), id, now, ttlMinutes * 60) then old(view)[id].context else ""
      ensures c != "" <==> Found(old(view), id, now, ttlMinutes * 60) && old(view)[id].history != []
      ensures Found(old(view), id, now, ttlMinutes * 60) ==> sessions == old(sessions)
    {
      var s := GetSession(id, now);
      c := if s != null then s.context else "";
      if s != null {
        ContextEmptyIffNoHistory(s.history, []);
      }
    }

    /** `get_latest_diagnosis`: the newest diagnosis of the session
        `get_session` finds, else none. */
    method GetLatestDiagnosis(id: string, now: int) returns (d: Option<DiagnosisRecord>)
      requires Valid()
      modifies this, Repr
      ensures Valid() && Repr == old(Repr)
      ensures view == AfterAccess(old(view), id, now, ttlMinutes * 60)
      ensures d == if Found(old(view), id, now, ttlMinutes * 60) then LatestOf(old(view)[id].history) else None
      ensures Found(old(view), id, now, ttlMinutes * 60) ==> sessions == old(sessions)
    {
      var s := GetSession(id, now);
      d := if s != null then s.LatestDiagnosis() else None;
    }

    /** `cleanup_expired`: collect the expired ids, delete them, count them. */
    method CleanupExpired(now: int) returns (removed: nat)
      requires Valid()
      modifies this
      ensures Valid() && Repr == old(Repr)
      ensures view == Unexpired(old(view), now, ttlMinutes * 60)
      ensures removed == |old(view)| - |view|
    {
      var expired := ExpiredIds(now);
      UnexpiredIsRemoval(view, expired, now, ttlMinutes * 60);
      removed := DeleteSessions(expired);
    }

    /** The ids of the sessions that have expired at `now`. */
    method ExpiredIds(now: int) returns (expired: set<string>)
      requires Valid()
      ensures forall k :: k in expired <==> k in view && view[k].Expired(now, ttlMinutes * 60)
    {
      expired := set id | id in sessions && sessions[id].IsExpired(now);
      forall k | k in sessions
        ensures sessions[k].IsExpired(now) <==> view[k].Expired(now, ttlMinutes * 60)
      {
        assert Filed(k);
      }
    }

    /** Delete the sessions filed under `ids`, counting them. */
    method DeleteSessions(ids: set<string>) returns (removed: nat)
      requires Valid() && ids <= view.Keys
      modifies this
      ensures Valid() && Repr == old(Repr)
      ensures view == old(view) - ids
      ensures removed == |ids|
    {
      sessions, removed := DeleteAll(sessions, ids);
      view := view - ids;
      RemovalKeepsValid(ids);
    }

    /** `get_session_count`. */
    method GetSessionCount() returns (n: nat)
      requires Valid()
      ensures n == |view|
    {
      n := |sessions|;
      assert |view| == |view.Keys| && |sessions| == |sessions.Keys|;
    }
  }
}
