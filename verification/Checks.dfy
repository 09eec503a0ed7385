/** A single check result, as every ingestion mode delivers it. */
module Checks {
  import opened Numerals

  datatype CheckResult = CheckResult(
    hostName: string, serviceDescription: string, checkCommand: string, state: int,
    pluginOutput: string, perfData: string, lastCheck: int, executionTime: Decimal, latency: Decimal)
}
