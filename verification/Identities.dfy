/** Durable identities. Each SHA-256 identity of the source is an injective
    constructor over the fields it hashes; the kind prefix separates constructors. */
module Identities {
  /** `contract` stands for the expected result and the version bundle without host
      provenance; `host` for the two provenance fields that only the legacy id hashes. */
  datatype EventId =
    | OriginalEvent(business: string, run: string, contract: string)
    | LegacyEvent(business: string, run: string, contract: string, host: string)
    | CorrectionEvent(business: string, original: EventId)
    | OtherEvent(text: string)

  datatype ReportId =
    | ReportVersion(event: EventId, projection: string)
    | CorrectionReport(correction: EventId)
    | OtherReport(text: string)
}
