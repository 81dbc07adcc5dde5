// The packet counters of the repair pipeline (src/stats.h). The two byte counters are kept by
// the framer, which alone changes them.
module Statistics {

  datatype Stats = Stats(
    packetsRead: nat,
    packetsWritten: nat,
    packetsDropped: nat,
    invalidPackets: nat,
    transportErrorPackets: nat,
    unrepairableTransportErrors: nat,
    psiCacheRepairs: nat,
    continuityErrors: nat,
    duplicates: nat,
    outOfOrder: nat,
    missingPackets: nat,
    psiInjections: nat,
    repairActions: nat,
    cleanTsNullPackets: nat,
    cleanTsFilteredPids: nat,
    cleanTsPsiCacheRepairs: nat,
    cleanTsBadPsiNulls: nat,
    cleanTsMediaCcRewrites: nat,
    cleanTsPtsRewrites: nat,
    cleanTsPcrRewrites: nat)

  function InitialStats(): Stats
  {
    Stats(0, 0, 0, 0, 0, 0, 0, 0, 0, 0, 0, 0, 0, 0, 0, 0, 0, 0, 0, 0)
  }
}
