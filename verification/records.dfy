/** Values shared by the stateful components: what model_dump and to_dict write to
    the store, and the option type. */
module Records {

  datatype Option<+T> = None | Some(value: T)

  datatype RiskState = Normal | Elevated | Restricted | Blocked

  /** A session as persisted under the "session" namespace. */
  datatype SessionRecord = SessionRecord(
    id: string, subject: string, tenant: Option<string>,
    createdAt: real, lastSeenAt: real,
    requests: nat, messages: nat, attachments: nat,
    refusals: nat, toolRequests: nat, attempts: nat, escalations: nat,
    riskHistory: seq<int>, state: RiskState)

  /** A profile as persisted under the "attacker_profile" namespace. */
  datatype ProfileRecord = ProfileRecord(
    client: string, subject: string, firstSeen: real, lastSeen: real,
    refusals: nat, reasons: seq<string>,
    injections: nat, jailbreaks: nat, escalations: nat, toolAbuses: nat)
}
