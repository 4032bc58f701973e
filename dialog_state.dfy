/** What the security-patch dialog shows: the advanced-mode toggle and its four text
    inputs (one "all" value for normal mode; system, boot and vendor for advanced mode). */
module DialogState {

  datatype Field = All | System | Boot | Vendor

  datatype Inputs = Inputs(advanced: bool, all: string, system: string, boot: string, vendor: string)
  {
    function Get(k: Field): string {
      match k
      case All => all
      case System => system
      case Boot => boot
      case Vendor => vendor
    }
  }

  /** The key a field is stored under in the patch file, and the suffix of its error
      message key. */
  function KeyName(k: Field): string {
    match k
    case All => "all"
    case System => "system"
    case Boot => "boot"
    case Vendor => "vendor"
  }
}
