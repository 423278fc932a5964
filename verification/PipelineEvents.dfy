/**
 * The events of the ingestion pipeline, their deterministic ids and the
 * worker's dispatch table.
 */
module PipelineEvents {

  datatype EventType =
    | SourceVersionCreated
    | EvidenceVersionExtracted
    | EvidenceVersionIndexed
    | ProjectionRequested
    | Projected
    | NoteEmbeddingRequested

  /** The number of pipeline stages, one per event type. */
  const STAGES: nat := 6

  /** The position of an event type in the declared stage order. */
  function Rank(t: EventType): (rank: nat)
    ensures rank < STAGES
  {
    match t
    case SourceVersionCreated => 0
    case EvidenceVersionExtracted => 1
    case EvidenceVersionIndexed => 2
    case ProjectionRequested => 3
    case Projected => 4
    case NoteEmbeddingRequested => 5
  }

  function TypeName(t: EventType): string {
    match t
    case SourceVersionCreated => "source.version.created"
    case EvidenceVersionExtracted => "evidence.version.extracted"
    case EvidenceVersionIndexed => "evidence.version.indexed"
    case ProjectionRequested => "company.state.projection.requested"
    case Projected => "company.state.projected"
    case NoteEmbeddingRequested => "note.embedding.requested"
  }

  /** An idempotency key: the event type it is derived from and the state change it names. */
  datatype EventId = EventId(kind: EventType, key: string)

  /** The key as it is stored: the type name, a colon, and the rest. */
  function Render(id: EventId): string {
    TypeName(id.kind) + ":" + id.key
  }

  /** Three characters of a type name that tell it from every other one. */
  lemma TypeNamesDiffer(t: EventType, u: EventType)
    requires TypeName(t)[0] == TypeName(u)[0]
    requires |TypeName(t)| > 21 && |TypeName(u)| > 21
    requires TypeName(t)[17] == TypeName(u)[17] && TypeName(t)[21] == TypeName(u)[21]
    ensures t == u
  {
    var created, extracted, indexed := SourceVersionCreated, EvidenceVersionExtracted, EvidenceVersionIndexed;
    assert TypeName(created)[0] == 's' && TypeName(extracted)[0] == 'e' && TypeName(indexed)[0] == 'e';
    assert TypeName(extracted)[17] == 'e' && TypeName(indexed)[17] == 'i';
    assert TypeName(ProjectionRequested)[0] == 'c' && TypeName(Projected)[0] == 'c';
    assert TypeName(ProjectionRequested)[21] == 'i' && TypeName(Projected)[21] == 'e';
    assert TypeName(NoteEmbeddingRequested)[0] == 'n';
  }

  /**
   * A stored key determines both its parts. In particular two events of
   * different stages never share a row, so a row's stage never changes.
   */
  lemma StoredKeysAreUnambiguous(a: EventId, b: EventId)
    requires Render(a) == Render(b)
    ensures a == b
  {
    var s, t := TypeName(a.kind), TypeName(b.kind);
    assert |s| > 21 && |t| > 21;
    assert s[0] == Render(a)[0] && s[17] == Render(a)[17] && s[21] == Render(a)[21];
    assert t[0] == Render(b)[0] && t[17] == Render(b)[17] && t[21] == Render(b)[21];
    TypeNamesDiffer(a.kind, b.kind);
    assert a.key == Render(a)[|s| + 1..] && b.key == Render(b)[|t| + 1..];
  }

  /**
   * An event as the outbox stores it. `wellFormed` says whether the protocol
   * schema accepts it; the payload keeps only the fields ids are built from.
   */
  datatype Event = Event(
    id: EventId,
    companyId: string,
    ocrJobId: string,
    sourceVersionId: string,
    traceId: string,
    wellFormed: bool)

  function VersionKey(e: Event): string {
    e.companyId + ":v" + e.sourceVersionId
  }

  /**
   * What a successful handler run enqueues next. An expanded archive enqueues
   * nothing here: its entries carry their own events.
   */
  function Process(e: Event, expandedArchive: bool): (followUps: seq<Event>)
    ensures forall f | f in followUps :: Rank(e.id.kind) < Rank(f.id.kind)
    ensures |followUps| <= 1
    ensures followUps == [] <==>
      || (e.id.kind == SourceVersionCreated && expandedArchive)
      || e.id.kind == Projected || e.id.kind == NoteEmbeddingRequested
    ensures forall f | f in followUps ::
      && Rank(f.id.kind) == Rank(e.id.kind) + 1 && f.wellFormed == e.wellFormed && f.traceId == e.traceId
      && f.companyId == e.companyId && f.ocrJobId == e.ocrJobId && f.sourceVersionId == e.sourceVersionId
      && f.id.key == if f.id.kind == ProjectionRequested || f.id.kind == Projected then VersionKey(e) else e.ocrJobId
  {
    match e.id.kind
    case SourceVersionCreated =>
      if expandedArchive then [] else [e.(id := EventId(EvidenceVersionExtracted, e.ocrJobId))]
    case EvidenceVersionExtracted => [e.(id := EventId(EvidenceVersionIndexed, e.ocrJobId))]
    case EvidenceVersionIndexed => [e.(id := EventId(ProjectionRequested, VersionKey(e)))]
    case ProjectionRequested => [e.(id := EventId(Projected, VersionKey(e)))]
    case Projected => []
    case NoteEmbeddingRequested => []
  }
}
