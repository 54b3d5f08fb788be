/** The configuration constants of the system (src/config/constants.ts). */
module Constants {

  /** Certificates a non-premium account may issue in total. */
  const FREE_TIER_LIMIT: int := 10

  const DEFAULT_FONT_SIZE: int := 48
  const DEFAULT_FONT_COLOR: string := "#000000"
  const DEFAULT_PRIMARY_COLOR: string := "#2563eb"
  const DEFAULT_FONT_FAMILY: string := "Arial"

  const UPLOAD_DIR: string := "uploads"
  const CERTIFICATES_DIR: string := "certificates"

  /** Lifecycle of a generation batch. */
  datatype BatchStatus = Processing | Completed | Failed

  /** The string each status is stored as. */
  function StatusName(s: BatchStatus): (name: string)
    ensures name in {"processing", "completed", "failed"}
  {
    match s
    case Processing => "processing"
    case Completed => "completed"
    case Failed => "failed"
  }
}
