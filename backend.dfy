/** The records the frontend receives from the backend canister, as far as the
    modelled components read them. Timestamps are nanoseconds since the epoch. */
module Backend {

  type byte = bv8

  datatype Participant = Participant(id: string)

  /** A participant's evidence for a project. */
  datatype EvidenceRecord = EvidenceRecord(
    id: nat,
    participantId: string,
    status: string,
    timestamp: int,
    description: string,
    imageData: seq<seq<byte>>,
    feedback: string)

  /** A project as the backend returns it; `category` is the name of the Candid
      variant (the first key of the variant object). */
  datatype Project = Project(
    id: nat,
    title: string,
    description: string,
    category: string,
    createdAt: int,
    startDate: int,
    expiredAt: int,
    participants: seq<Participant>,
    reward: nat,
    status: nat,
    maxParticipants: nat,
    address: string,
    impact: string,
    evidence: seq<EvidenceRecord>)
}
