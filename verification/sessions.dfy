/** The session manager of app/session_manager.py: what each operation does to a
    session record, and the manager that keeps live sessions in front of the store. */
module Sessions {
  import opened Records
  import opened SqliteStore
  import WriteThrough

  type View = WriteThrough.TwoLevel<string, string, SessionRecord>

  // ----- operations on one record

  function NewSession(id: string, subject: string, tenant: Option<string>, now: real): SessionRecord {
    SessionRecord(id, subject, tenant, now, now, 0, 0, 0, 0, 0, 0, 0, [], Normal)
  }

  function Touched(r: SessionRecord, now: real): SessionRecord {
    r.(lastSeenAt := now)
  }

  function Counted(r: SessionRecord, messages: nat, attachments: nat, now: real): SessionRecord {
    r.(requests := r.requests + 1, messages := r.messages + messages,
       attachments := r.attachments + attachments, lastSeenAt := now)
  }

  function WithRisk(r: SessionRecord, score: int, state: RiskState): SessionRecord {
    r.(riskHistory := r.riskHistory + [score], state := state)
  }

  function Refused(r: SessionRecord): SessionRecord {
    r.(refusals := r.refusals + 1)
  }

  function ToolUsed(r: SessionRecord): SessionRecord {
    r.(toolRequests := r.toolRequests + 1)
  }

  function Attempted(r: SessionRecord, score: int): SessionRecord {
    var attempts := r.attempts + 1;
    r.(attempts := attempts,
       escalations := if attempts >= 2 && score >= 60 then r.escalations + 1 else r.escalations)
  }

  // ----- the same operations as updates of what a lookup found

  function Existing(g: SessionRecord -> SessionRecord): Option<SessionRecord> -> Option<SessionRecord> {
    (o: Option<SessionRecord>) => match o case None => None case Some(r) => Some(g(r))
  }

  /** A read: nothing is saved. */
  function Nothing(o: Option<SessionRecord>): Option<SessionRecord> { None }

  function OrNew(id: string, subject: string, tenant: Option<string>,
                 now: real): Option<SessionRecord> -> Option<SessionRecord> {
    (o: Option<SessionRecord>) => match o
      case None => Some(NewSession(id, subject, tenant, now))
      case Some(r) => Some(Touched(r, now))
  }

  /** Rows are named by the session id itself. */
  function RowName(id: string): string { id }

  function Access(v: View, id: string, update: Option<SessionRecord> -> Option<SessionRecord>): View {
    WriteThrough.Access(v, RowName, id, update)
  }

  function Lookup(v: View, id: string): Option<SessionRecord> {
    WriteThrough.Lookup(v, RowName, id)
  }

  /** The view holds exactly the sessions of m: with a store in its rows, and nothing
      cached that is not in its row; without one in the cache. */
  ghost predicate ShowsMap(v: View, m: map<string, SessionRecord>) {
    if v.persistent then v.docs == m && forall id | id in v.cache :: id in m && m[id] == v.cache[id]
    else v.cache == m
  }

  lemma AccessShows(v: View, m: map<string, SessionRecord>, id: string,
                    update: Option<SessionRecord> -> Option<SessionRecord>)
    requires ShowsMap(v, m)
    ensures Lookup(v, id) == WriteThrough.Find(m, id)
    ensures ShowsMap(Access(v, id, update), WriteThrough.Put(m, id, update))
  {
  }

  // ----- the manager

  /** The dictionary of live sessions and its write-through to the store, if any. */
  class SessionManager {
    const store: StateStore?
    var sessions: map<string, SessionRecord>

    ghost function Stores(): set<StateStore> {
      if store == null then {} else {store}
    }

    ghost function View(): View
      reads this, Stores()`sessionDocs
    {
      WriteThrough.TwoLevel(sessions, if store == null then map[] else store.sessionDocs, store != null)
    }

    /** Every record sits under its own id. */
    ghost predicate Valid()
      reads this, Stores()`sessionDocs
    {
      && (forall id | id in sessions :: sessions[id].id == id)
      && (store != null ==> forall id | id in store.sessionDocs :: store.sessionDocs[id].id == id)
    }

    /** A process start: an empty dictionary over whatever the store already holds. */
    constructor (store: StateStore?)
      requires store != null ==> forall id | id in store.sessionDocs :: store.sessionDocs[id].id == id
      ensures this.store == store && Valid()
      ensures View() == WriteThrough.TwoLevel(map[], if store == null then map[] else store.sessionDocs, store != null)
    {
      this.store := store;
      sessions := map[];
    }

    method Save(s: SessionRecord)
      requires Valid()
      modifies this, Stores()`sessionDocs
      ensures Valid() && View() == WriteThrough.Save(old(View()), RowName, s.id, s)
    {
      sessions := sessions[s.id := s];
      if store != null {
        store.PutSession(s.id, s);
      }
    }

    method Load(id: string) returns (found: Option<SessionRecord>)
      requires Valid()
      modifies this
      ensures Valid() && View() == WriteThrough.Load(old(View()), RowName, id)
      ensures found == Lookup(old(View()), id) && (found.Some? ==> found.value.id == id)
    {
      if id in sessions {
        found := Some(sessions[id]);
        assert sessions == sessions[id := sessions[id]];
        return;
      }
      if store == null {
        return None;
      }
      found := store.GetSession(id);
      if found.Some? {
        sessions := sessions[found.value.id := found.value];
      }
    }

    /** `sessionId` may be empty, in which case the caller's freshly generated id names
        the new session. */
    method GetOrCreate(sessionId: string, freshId: string, subject: string, tenant: Option<string>, now: real)
      returns (s: SessionRecord)
      requires Valid()
      requires sessionId == "" ==> Lookup(View(), freshId).None?
      modifies this, Stores()`sessionDocs
      ensures var id := if sessionId != "" then sessionId else freshId;
              && Valid() && s.id == id
              && View() == Access(old(View()), id, OrNew(id, subject, tenant, now))
              && Some(s) == Lookup(View(), id)
    {
      var found: Option<SessionRecord> := None;
      if sessionId != "" {
        found := Load(sessionId);
      }
      if found.Some? {
        s := found.value.(lastSeenAt := now);
      } else {
        s := NewSession(if sessionId != "" then sessionId else freshId, subject, tenant, now);
      }
      Save(s);
    }

    method UpdateFromRequest(s: SessionRecord, messages: nat, attachments: nat, now: real) returns (s': SessionRecord)
      requires Valid() && Lookup(View(), s.id) == Some(s)
      modifies this, Stores()`sessionDocs
      ensures Valid() && s' == Counted(s, messages, attachments, now)
      ensures View() == WriteThrough.Save(old(View()), RowName, s.id, s')
    {
      s' := s.(requests := s.requests + 1);
      s' := s'.(messages := s'.messages + messages);
      s' := s'.(attachments := s'.attachments + attachments);
      s' := s'.(lastSeenAt := now);
      Save(s');
    }

    method AppendRiskScore(id: string, score: int, state: RiskState)
      requires Valid()
      modifies this, Stores()`sessionDocs
      ensures Valid() && View() == Access(old(View()), id, Existing(r => WithRisk(r, score, state)))
    {
      var found := Load(id);
      if found.None? {
        return;
      }
      var s := found.value;
      Save(s.(riskHistory := s.riskHistory + [score], state := state));
    }

    method RecordRefusal(id: string)
      requires Valid()
      modifies this, Stores()`sessionDocs
      ensures Valid() && View() == Access(old(View()), id, Existing(r => Refused(r)))
    {
      var found := Load(id);
      if found.Some? {
        var s := found.value;
        Save(s.(refusals := s.refusals + 1));
      }
    }

    method RecordToolRequest(id: string)
      requires Valid()
      modifies this, Stores()`sessionDocs
      ensures Valid() && View() == Access(old(View()), id, Existing(r => ToolUsed(r)))
    {
      var found := Load(id);
      if found.Some? {
        var s := found.value;
        Save(s.(toolRequests := s.toolRequests + 1));
      }
    }

    method RecordInjectionAttempt(id: string, score: int)
      requires Valid()
      modifies this, Stores()`sessionDocs
      ensures Valid() && View() == Access(old(View()), id, Existing(r => Attempted(r, score)))
    {
      var found := Load(id);
      if found.None? {
        return;
      }
      var s := found.value.(attempts := found.value.attempts + 1);
      if s.attempts >= 2 && score >= 60 {
        s := s.(escalations := s.escalations + 1);
      }
      Save(s);
    }

    method GetInjectionAttemptCount(id: string) returns (n: nat)
      requires Valid()
      modifies this
      ensures Valid() && View() == Access(old(View()), id, Nothing)
      ensures n == match Lookup(old(View()), id) case None => 0 case Some(r) => r.attempts
    {
      var found := Load(id);
      n := if found.None? then 0 else found.value.attempts;
    }
  }

  // ----- evictions and restarts

  ghost const ALL_IDS: iset<string> := iset id: string | true

  /** Dropping live sessions at any point of a run, up to a whole restart, changes
      nothing that any later session operation finds. */
  lemma RestartIsInvisible(v: View, ops: seq<WriteThrough.Op<string, SessionRecord>>)
    requires v.persistent && WriteThrough.Coherent(v, RowName)
    ensures WriteThrough.Answers(v, RowName, ops) == WriteThrough.PlainAnswers(v.docs, ops)
  {
    WriteThrough.EvictionIsInvisible(v, RowName, ALL_IDS, v.docs, ops);
  }
}
