/** Audit events, chained rows and the hash function of an entry (src/types.ts). */
module AuditTypes {
  import opened Wrappers
  import opened Json

  /** A nullable record of host values. */
  type Payload = v: Json | (v.Null? || v.Obj?) && WellFormed(v) witness Null

  /** `title` is the display label of the actor. */
  datatype Actor = Actor(kind: string, id: Option<string>, title: Option<string>)

  datatype Event = Event(
    id: string,
    event: string,
    stream: string,
    auditableType: Option<string>,
    auditableId: Option<string>,
    oldValues: Payload,
    newValues: Payload,
    metadata: Payload,
    actor: Actor,
    tenantId: Option<string>,
    requestId: Option<string>,
    correlationId: Option<string>,
    ipAddress: Option<string>,
    userAgent: Option<string>,
    url: Option<string>,
    httpMethod: Option<string>,
    tags: seq<string>,
    schemaVersion: string,
    createdAt: string)

  function StreamOf(e: Event): string {
    e.stream
  }

  type Hash = string

  /** A chained event: an event with its place in its stream. */
  datatype Row = Row(ev: Event, seqNo: nat, prevHash: Hash, hash: Hash)

  /** The newest place of a stream. */
  datatype Head = Head(seqNo: nat, hash: Hash)

  /** The hash of an entry: its event, sequence number and predecessor's hash. None where the
      event cannot be canonicalised and hashing throws. */
  type HashFn = (Event, int, Hash) -> Option<Hash>
}
