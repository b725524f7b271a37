/** Vocabulary shared by every component: byte strings, optional values, the rows of the
    offline queue, the keys of the configuration table, and what the network can do to one
    HTTP attempt. */
module Common {

  /** A byte string; one `char` stands for one byte. */
  type Bytes = string

  datatype Option<+T> = None | Some(value: T)

  /** The `type` column of a queue row. Every string that is not one of the three known
      payload types behaves alike, so it is kept as `OtherType`. */
  datatype Kind = HeartbeatType | InventoryType | SoftwareType | OtherType(name: string)

  /** Keys of the `config` table. The notes are what a producer stores about its last run and
      no modelled branch reads. */
  datatype Key =
    | AgentUuid | AgentToken | PortalConfiguration | PortalPolicy
    | RegistrationTime | LastSync | ConfigurationVersion
    | InventoryFingerprint | SoftwareFingerprint
    | InventoryHardware | InventoryTimeline
    | HeartbeatNote(name: string) | InventoryNote(name: string) | SoftwareNote(name: string)
    | OtherKey(name: string)

  /** A row of the `queue` table. `ticket` is a history variable: the number of rows inserted
      before this one since the database was created. No branch depends on it. */
  datatype Row = Row(id: int, kind: Kind, payload: Bytes, ticket: nat)

  /** The body of a reply, as far as the agent distinguishes bodies. */
  datatype ReplyBody = Unreadable | Blank | ValidJson | InvalidJson

  /** What can happen to one HTTP attempt. `NotSigned`: no nonce could be generated, so nothing
      was sent. `RequestLost` and `ReplyLost` are both transport errors for the agent, but only
      the second one reached the Portal. */
  datatype Outcome = NotSigned | RequestLost | ReplyLost | Replied(status: int, body: ReplyBody)

  predicate TransportError(o: Outcome) { o.RequestLost? || o.ReplyLost? }

  predicate Arrived(o: Outcome) { o.ReplyLost? || o.Replied? }

  /** An acknowledgement: a 2xx status with a body that is blank or valid JSON. */
  predicate Acceptable(o: Outcome) {
    o.Replied? && 200 <= o.status < 300 && (o.body.Blank? || o.body.ValidJson?)
  }

  function Min(a: int, b: int): int { if a <= b then a else b }
}
