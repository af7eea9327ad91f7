/** The tables of app/sqlite_store.py. Encoding is lossless here, so a document column
    holds the record itself; the key-value table is one map per namespace in use. */
module SqliteStore {
  import opened Records
  import opened RateLimit
  import opened Window

  class StateStore {
    var rows: seq<Row>
    var cooldowns: map<string, real>
    var sessionDocs: map<string, SessionRecord>
    var profileDocs: map<string, ProfileRecord>

    constructor ()
      ensures rows == [] && cooldowns == map[] && sessionDocs == map[] && profileDocs == map[]
    {
      rows, cooldowns, sessionDocs, profileDocs := [], map[], map[], map[];
    }

    method GetCooldown(key: string) returns (deadline: real)
      ensures deadline == DeadlineOf(cooldowns, key)
    {
      deadline := if key in cooldowns then cooldowns[key] else 0.0;
    }

    method SetCooldown(key: string, deadline: real)
      modifies this`cooldowns
      ensures DeadlineOf(cooldowns, key) == deadline
      ensures cooldowns == old(cooldowns)[key := deadline]
    {
      cooldowns := cooldowns[key := deadline];
    }

    method AddHit(key: string, ts: real)
      modifies this`rows
      ensures rows == old(rows) + [Row(key, ts)]
    {
      rows := rows + [Row(key, ts)];
    }

    method PruneHits(key: string, minTs: real)
      modifies this`rows
      ensures rows == DeleteBefore(old(rows), key, minTs)
      ensures TimesOf(rows, key) == Since(TimesOf(old(rows), key), minTs)
      ensures forall other | other != key :: TimesOf(rows, other) == TimesOf(old(rows), other)
    {
      DeleteTimes(rows, key, minTs);
      forall other | other != key {
        DeleteTimesOther(rows, key, minTs, other);
      }
      rows := DeleteBefore(rows, key, minTs);
    }

    method CountHits(key: string, minTs: real) returns (n: nat)
      ensures n == CountFrom(rows, key, minTs) == |Since(TimesOf(rows, key), minTs)|
    {
      CountIsSince(rows, key, minTs);
      n := CountFrom(rows, key, minTs);
    }

    method GetSession(id: string) returns (doc: Option<SessionRecord>)
      ensures doc == if id in sessionDocs then Some(sessionDocs[id]) else None
    {
      doc := if id in sessionDocs then Some(sessionDocs[id]) else None;
    }

    method PutSession(id: string, doc: SessionRecord)
      modifies this`sessionDocs
      ensures sessionDocs == old(sessionDocs)[id := doc]
    {
      sessionDocs := sessionDocs[id := doc];
    }

    method GetProfile(name: string) returns (doc: Option<ProfileRecord>)
      ensures doc == if name in profileDocs then Some(profileDocs[name]) else None
    {
      doc := if name in profileDocs then Some(profileDocs[name]) else None;
    }

    method PutProfile(name: string, doc: ProfileRecord)
      modifies this`profileDocs
      ensures profileDocs == old(profileDocs)[name := doc]
    {
      profileDocs := profileDocs[name := doc];
    }
  }
}
