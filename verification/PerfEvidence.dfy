/** The environment and dataset a performance receipt must name (inspectEnvironment, inspectDataset and the
    first half of validateReceipt in cmd/aicrm-contact-perf/main.go). */
module PerfEvidence {
  import opened Wrappers
  import Hex

  datatype Environment = Environment(
    sourceSHA: string, mainCIURL: string, revision: string, modified: bool, database: string, version: string, cpus: int, memory: int,
    swap: int, goMemoryLimit: int, sharedBuffers: string, effectiveCacheSize: string, workMem: string, maxConnections: string)

  datatype Dataset = Dataset(
    customers: int, customerTags: int, staff: int, stages: int, channels: int, tags: int, deleted: int, hotActive: int, hotDeleted: int,
    addedBefore: int, addedWithin: int, addedAfter: int, interactBefore: int, interactWithin: int, interactAfter: int)

  /** The standard library where this model does not follow it: URL parsing and RFC 3339 timestamps. */
  datatype Outside = Outside(trustedURL: string -> bool, timestamp: string -> bool)

  const CUSTOMERS := 200_000
  const CUSTOMER_TAGS := 600_000

  predicate ExactSHA(value: string) {
    |value| == 40 && Hex.LowerHex(value)
  }

  /** The loop of isExactSHA. */
  method IsExactSHA(value: string) returns (ok: bool)
    ensures ok <==> ExactSHA(value)
  {
    if |value| != 40 { return false; }
    for i := 0 to |value|
      invariant forall j :: 0 <= j < i ==> '0' <= value[j] <= '9' || 'a' <= value[j] <= 'f'
    {
      if !(('0' <= value[i] <= '9') || ('a' <= value[i] <= 'f')) { return false; }
    }
    ok := true;
  }

  /** The frozen S tier. */
  predicate Frozen(e: Environment) {
    && e.database == "aicrm_perf" && e.version == "160014" && e.cpus == 2 && 3_500_000 <= e.memory <= 4_800_000 && e.swap >= 4_000_000
    && e.goMemoryLimit == 768 * 1024 * 1024 && e.sharedBuffers == "1GB" && e.effectiveCacheSize == "2GB" && e.workMem == "8MB"
    && e.maxConnections == "40"
  }

  predicate EnvironmentValid(o: Outside, sha: string, url: string, e: Environment) {
    && ExactSHA(sha) && o.trustedURL(url) && e.sourceSHA == sha && e.mainCIURL == url && e.revision == sha && !e.modified && Frozen(e)
  }

  /** inspectEnvironment: what the machine and the database report, when it is the clean binary of the
      source on the frozen tier. */
  function Inspected(machine: Environment, sha: string, url: string): (e: Option<Environment>)
    ensures e.Some? <==> ExactSHA(sha) && machine.revision == sha && !machine.modified && Frozen(machine)
    ensures e.Some? ==> forall o: Outside :: o.trustedURL(url) ==> EnvironmentValid(o, sha, url, e.value)
  {
    if !ExactSHA(machine.revision) || machine.revision != sha || machine.modified || !Frozen(machine) then None
    else Some(machine.(sourceSHA := sha, mainCIURL := url))
  }

  predicate DatasetValid(d: Dataset) {
    && d.customers == CUSTOMERS && d.customerTags == CUSTOMER_TAGS && d.staff == 64 && d.stages == 8 && d.channels == 12 && d.tags == 50
    && d.deleted == CUSTOMERS / 20 && d.hotActive >= 500 && d.hotDeleted >= 500
    && d.addedBefore > 0 && d.addedWithin > 0 && d.addedAfter > 0 && d.addedBefore + d.addedWithin + d.addedAfter == CUSTOMERS
    && d.interactBefore > 0 && d.interactWithin > 0 && d.interactAfter > 0
    && d.interactBefore + d.interactWithin + d.interactAfter == CUSTOMERS
  }
}
