/** The records of an adversarial pack (benchmarks/lib/adversarial-intake.ts), as their schemas shape them. */
module IntakeTypes {
  import opened Ranges
  import opened Text

  datatype Status = Submitted | SafetyReview | FrozenFirstRun | Accepted | Rejected | ConvertedToMaintainerRegression
  datatype Qualification = ExternallyAuthored | MaintainerRegression
  datatype CredentialStatus = Synthetic | Revoked | Live | RealDerived | UnknownStatus
  datatype Affiliation = External | ProjectMaintainer | ProjectContributor
  datatype Action = MustRedact | MustNotFlag
  datatype RejectionReason =
    | RealCredentialMaterial | ScannerDerivedExpectations | NoRedistributionPermission
    | FailedSafetyReview | IncompleteRecord | OtherReason

  datatype Fixture = Fixture(id: Text, path: Text, content: Text, action: Action, expected: seq<Range>,
                             threatCategories: seq<Text>, credentialStatus: CredentialStatus)

  datatype Outcome = Redacted | Overbroad | Partial | Missed | Clean | Flagged | ScannerFailed

  datatype RunResult = RunResult(fixtureId: Text, scanner: Text, failed: bool, findings: seq<Range>)

  /** `scanners` lists the scanners' names. */
  datatype FirstRun<Digest> = FirstRun(packId: Text, expectationsDigest: Digest, recordedAt: Text,
                                       scanners: seq<Text>, results: seq<RunResult>)
}
