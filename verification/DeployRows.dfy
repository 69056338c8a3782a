/**
 The `deployments` table as the deploy queue writes it. Every write of the queue is one guarded
 SQL update, so each is a set of hit rows together with the status they receive.
 */
module DeployRows {

  type Uuid = string

  datatype Status = Queued | Running | Building | Pending | Deploying | Success | Failed | Cancelled

  /** The statuses every guard of the queue accepts: `status IN ('queued', 'running', 'building')`. */
  predicate Active(s: Status) {
    s.Queued? || s.Running? || s.Building?
  }

  /** User cancel and teardown also accept the two legacy statuses. */
  predicate Cancellable(s: Status) {
    Active(s) || s.Pending? || s.Deploying?
  }

  predicate Terminal(s: Status) {
    s.Success? || s.Failed? || s.Cancelled?
  }

  datatype Row = Row(project: int, environment: string, status: Status)
  type Rows = map<Uuid, Row>

  /** `UPDATE deployments SET status = st WHERE uuid IN hits`. */
  function Write(rows: Rows, hits: set<Uuid>, st: Status): (r: Rows)
    ensures r.Keys == rows.Keys
    ensures forall u :: u in rows ==> r[u].project == rows[u].project && r[u].environment == rows[u].environment
    ensures forall u :: u in rows && u !in hits ==> r[u] == rows[u]
  {
    map u | u in rows :: if u in hits then rows[u].(status := st) else rows[u]
  }

  /** The environment a start supersedes: its own row's, or production when the row is missing. */
  function EnvironmentOf(rows: Rows, keep: Uuid): string {
    if keep in rows then rows[keep].environment else "production"
  }

  function SupersedeHits(rows: Rows, project: int, keep: Uuid): set<Uuid> {
    set u | u in rows && u != keep && rows[u].project == project && Active(rows[u].status)
            && rows[u].environment == EnvironmentOf(rows, keep)
  }

  function CancelHits(rows: Rows, uuid: Uuid): set<Uuid> {
    set u | u in rows && u == uuid && Cancellable(rows[u].status)
  }

  /** The teardown of the dev environment or of one preview. */
  function TeardownHits(rows: Rows, project: int, environment: string): set<Uuid> {
    set u | u in rows && rows[u].project == project && rows[u].environment == environment && Cancellable(rows[u].status)
  }

  /** The agent's cancel tool has a guard of its own. */
  function ToolHits(rows: Rows, uuid: Uuid): set<Uuid> {
    set u | u in rows && u == uuid && (rows[u].status.Queued? || rows[u].status.Running? || rows[u].status.Deploying?)
  }

  /** The guard shared by mark-running, finalise and reap. */
  function ActiveHits(rows: Rows, uuid: Uuid): set<Uuid> {
    set u | u in rows && u == uuid && Active(rows[u].status)
  }

  function ClaimHits(rows: Rows, uuid: Uuid): set<Uuid> {
    set u | u in rows && u == uuid && rows[u].status.Queued?
  }

  function RequeueHits(rows: Rows): set<Uuid> {
    set u | u in rows && (rows[u].status.Running? || rows[u].status.Building?)
  }
}
