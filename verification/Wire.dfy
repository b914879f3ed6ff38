/** The values that the server and the node exchange. Params, extra and error texts
    stay as encoded strings: the model never looks inside them. */
module Wire {

  import opened Prelude

  datatype Snapshot = Snapshot(
    id: string,
    target: string,
    prober: string,
    probeCount: int,
    timeoutMs: int,
    scheduleType: string,
    intervalSeconds: int,
    startsAt: int,
    endsAt: int,
    params: string,
    status: string)

  datatype Event = Event(eventType: string, runId: string, probe: Snapshot)

  /** One check result. `latencyUs` and `observedAt` are what latencyMicros and
      observedAtMS make of the raw fields: None when there is no usable value. */
  datatype Result = Result(
    runId: string,
    probeId: string,
    checkSeq: int,
    ok: bool,
    latencyUs: Option<int>,
    observedAt: Option<int>,
    body: string)

  datatype Ack = Ack(runId: string, checkSeq: int, accepted: bool)
}
