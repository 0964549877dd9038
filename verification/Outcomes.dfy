/** What preparing a release comes to: a value, or what it refuses. */
module Outcomes {
  import opened Text

  /** What the tool refuses. */
  datatype Problem =
    | NoLinks | NoUnreleased | EmptyUnreleased | BadLink | NoUnreleasedLink | NoTargetLink
    | NoWorkspaceVersion | ManyWorkspaceVersions | NoPluginVersion | NoLockVersion | MissingPackages
    | BadVersion | VersionsDiffer | SectionExists | PartialSection | NotPrepared | NoUrl | Crashed

  type Outcome<+T> = Result<T, Problem>
}
