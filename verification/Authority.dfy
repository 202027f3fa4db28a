/**
  Who may report progress for which operation (crates/operations/src/authority.rs).

  The wire names form closed vocabularies; each name the table mentions is one constructor here, and
  every other name is an `Other`.
*/
module Authority {
  import opened Common

  datatype Kind =
    | ContentCaptureSubmit
    | AiArchiveImport
    | ChannelDigestSubscriptionSet
    | ChannelDigestRun
    | ChannelDigestScheduleOccurrence
    | NotesConnectionConnect
    | NotesFileWrite
    | NotesConnectionWriteMode
    | SitesReleaseBuild
    | OtherKind(name: string)

  datatype Producer =
    | Extractor | X | Instagram | Threads
    | ChannelDigests | Notes | Sites
    | ChatGpt | Claude
    | OtherProducer(name: string)

  datatype Producers = Listed(names: set<Producer>) | ProviderBound

  /** The envelope tenant of a report: absent, not of the form `user:<uuid>`, or a user's. */
  datatype Tenant = NoTenant | Malformed | UserTenant(user: Uuid)

  function ProducersFor(kind: Kind): Option<Producers> {
    match kind
    case ContentCaptureSubmit => Some(Listed({Extractor, X, Instagram, Threads}))
    case AiArchiveImport => Some(ProviderBound)
    case ChannelDigestSubscriptionSet | ChannelDigestRun | ChannelDigestScheduleOccurrence =>
      Some(Listed({ChannelDigests}))
    case NotesConnectionConnect | NotesFileWrite | NotesConnectionWriteMode => Some(Listed({Notes}))
    case SitesReleaseBuild => Some(Listed({Sites}))
    case OtherKind(_) => None
  }

  predicate IsListed(kind: Kind) {
    ProducersFor(kind).Some? && ProducersFor(kind).value.Listed?
  }

  /** Whether `producer` may be recorded as the reporter of a new operation of `kind`. */
  predicate Allows(kind: Kind, producer: Producer) {
    match ProducersFor(kind)
    case Some(Listed(names)) => producer in names
    case _ => false
  }

  /** Whether a report may be applied to an operation of `kind` dispatched to `reporter`. */
  predicate Authorize(kind: Kind, producer: Producer, tenant: Tenant, owner: Uuid,
                      reporter: Option<Producer>, acceptanceBound: bool) {
    var tenantOk := tenant == UserTenant(owner);
    match ProducersFor(kind)
    case Some(Listed(names)) => tenantOk && producer in names && reporter == Some(producer)
    case Some(ProviderBound) => if tenant != NoTenant then tenantOk else acceptanceBound
    case None => false
  }
}
