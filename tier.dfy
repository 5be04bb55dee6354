/**
  The capability probe of the App Engine runtime, reduced to its answer. The
  servlet asks for the status of the memcache capability on every GET and on
  every POST whose body parses and has a `key` field, and falls back to the datastore only when that status is DISABLED; every other
  answer, including an unknown one, keeps the memcache tier.
*/
module Capabilities {

  /** The statuses the capabilities service reports for a capability. */
  datatype CapabilityStatus = Enabled | Disabled | ScheduledMaintenance | Unknown

  /** `memcacheNotAvailable`: true selects the datastore, false the memcache tier. */
  function MemcacheNotAvailable(status: CapabilityStatus): (fallback: bool)
    ensures fallback <==> status == Disabled
  {
    match status
    case Disabled => true
    case _ => false
  }
}
