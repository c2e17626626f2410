// The model updater against the configuration API: deletions, waiting for the pods,
// removal of rows and creation of deployments, interleaved with any database writes
// of the API and with the cluster.

module UpdaterProtocol {
  import opened Collections
  import opened DeploymentRows

  /** Where the updater is in one turn of its loop. */
  datatype Pc =
    | Top
    | Deleting(snapshot: set<Detector>, requests: set<Key>)                // deletions still to request
    | Polling(snapshot: set<Detector>, absent: set<Key>, gone: set<Key>)   // seen without deployment; also without pods
    | Removing(snapshot: set<Detector>, todo: set<Detector>)               // rows still to remove
    | Listing
    | Checking(todo: set<Detector>, baseline: set<Detector>) // what was active when the detectors were listed
    | Creating(d: Detector, oodd: bool, todo: set<Detector>, baseline: set<Detector>) // about to create if missing
    | Finishing(d: Detector, todo: set<Detector>, baseline: set<Detector>)            // both deployments exist
    | Waiting
    | Refreshing(left: set<Key>)

  /**
   * `deployments` are the Kubernetes deployments that a look-up still finds, `terminating` those of
   * them whose deletion was requested, and `pods` the models with at least one pod.
   */
  datatype State = State(rows: Rows, deployments: set<Key>, terminating: set<Key>, pods: set<Key>, pc: Pc, separate: bool)

  datatype Step =
    // the updater
    | TakeSnapshot | RequestDeletion(k: Key) | PollDeployment(k: Key) | PollPods(k: Key) | PollAgain | AllGone | TimeOut
    | RemoveRows(d: Detector) | DoneRemoving | List | Check(d: Detector) | CreateIfMissing | Record | SkipDetector
    | BreakOff | StartRefresh | Refresh(k: Key) | DoneRefreshing | Crash
    // the API, in any number of requests at once
    | Mark(d: Detector) | Upsert(k: Key, pending: Option<bool>)
    // the cluster
    | Vanish(k: Key) | PodStarts(k: Key) | PodStops(k: Key)

  /** The models that the updater runs for these detectors. */
  function Own(separate: bool, ds: set<Detector>): set<Key> {
    if separate then KeysOf(ds) else set d | d in ds :: Key(d, false)
  }

  /** The set of detectors is not the one that was listed, or one of them is to be deleted. */
  predicate ConfigChanged(rows: Rows, baseline: set<Detector>) {
    Pending(rows) != {} || Active(rows) != baseline
  }

  function Detectors(rows: Rows): set<Detector> { set k | k in rows :: k.detector }

  predicate Enabled(s: State, st: Step) {
    match st
    case TakeSnapshot => s.pc.Top?
    case RequestDeletion(k) => s.pc.Deleting? && k in s.pc.requests
    case PollDeployment(k) => s.pc.Polling? && k in Own(s.separate, s.pc.snapshot) && k !in s.deployments
    case PollPods(k) => s.pc.Polling? && k in s.pc.absent && k !in s.pods
    case PollAgain => s.pc.Polling?
    case AllGone => s.pc.Polling? && Own(s.separate, s.pc.snapshot) <= s.pc.gone
    case TimeOut => s.pc.Polling?
    case RemoveRows(d) => s.pc.Removing? && d in s.pc.todo
    case DoneRemoving => s.pc.Removing? && s.pc.todo == {}
    case List => s.pc.Listing?
    case Check(d) => s.pc.Checking? && d in s.pc.todo
    case CreateIfMissing => s.pc.Creating?
    case Record => s.pc.Finishing?
    case SkipDetector => s.pc.Creating? || s.pc.Finishing?
    case BreakOff => s.pc.Checking? && (s.pc.todo == {} || ConfigChanged(s.rows, s.pc.baseline))
    case StartRefresh => s.pc.Waiting?
    case Refresh(k) => s.pc.Refreshing? && k in s.pc.left
    case DoneRefreshing => s.pc.Refreshing? && s.pc.left == {}
    case Crash => true
    case Mark(_) => true
    case Upsert(_, _) => true
    case Vanish(k) => k in s.terminating
    case PodStarts(k) => k in s.deployments
    case PodStops(k) => k in s.pods
  }

  function DoDeletion(s: State, k: Key): State
    requires s.pc.Deleting?
  {
    var rest := s.pc.requests - {k};
    s.(terminating := if k in s.deployments then s.terminating + {k} else s.terminating,
       pc := if rest == {} then Polling(s.pc.snapshot, {}, {}) else Deleting(s.pc.snapshot, rest))
  }

  function DoSnapshot(s: State): State {
    var snapshot := Pending(s.rows);
    s.(pc := if snapshot == {} then Listing else Deleting(snapshot, Own(s.separate, snapshot)))
  }

  /** Creates the deployment that is looked at unless it is there, then turns to the next one of the detector. */
  function DoCreate(s: State): State
    requires s.pc.Creating?
  {
    s.(deployments := s.deployments + {Key(s.pc.d, s.pc.oodd)},
       pc := if s.separate && !s.pc.oodd then Creating(s.pc.d, true, s.pc.todo, s.pc.baseline)
             else Finishing(s.pc.d, s.pc.todo, s.pc.baseline))
  }

  function DoRecord(s: State): State
    requires s.pc.Finishing?
  {
    var rows := SetCreated(s.rows, Key(s.pc.d, false), true);
    s.(rows := if s.separate then SetCreated(rows, Key(s.pc.d, true), true) else rows,
       pc := Checking(s.pc.todo, s.pc.baseline))
  }

  function Do(s: State, st: Step): State
    requires Enabled(s, st)
  {
    match st
    case TakeSnapshot => DoSnapshot(s)
    case RequestDeletion(k) => DoDeletion(s, k)
    case PollDeployment(k) => s.(pc := Polling(s.pc.snapshot, s.pc.absent + {k}, s.pc.gone))
    case PollPods(k) => s.(pc := Polling(s.pc.snapshot, s.pc.absent, s.pc.gone + {k}))
    case PollAgain => s.(pc := Polling(s.pc.snapshot, {}, {}))
    case AllGone => s.(pc := Removing(s.pc.snapshot, s.pc.snapshot))
    case TimeOut => s.(pc := Listing)
    case RemoveRows(d) => s.(rows := Without(s.rows, d), pc := Removing(s.pc.snapshot, s.pc.todo - {d}))
    case DoneRemoving => s.(pc := Listing)
    case List => s.(pc := Checking(Active(s.rows), Active(s.rows)))
    case Check(d) => s.(pc := Creating(d, false, s.pc.todo - {d}, s.pc.baseline))
    case CreateIfMissing => DoCreate(s)
    case Record => DoRecord(s)
    case SkipDetector => s.(pc := Checking(s.pc.todo, s.pc.baseline))
    case BreakOff => s.(pc := Waiting)
    case StartRefresh => s.(pc := Refreshing(Own(s.separate, Detectors(s.rows))))
    case Refresh(k) => s.(rows := SetCreated(s.rows, k, k in s.deployments), pc := Refreshing(s.pc.left - {k}))
    case DoneRefreshing => s.(pc := Top)
    case Crash => s.(pc := Top)
    case Mark(d) => s.(rows := Marked(s.rows, d))
    case Upsert(k, pending) => s.(rows := Upserted(s.rows, k, pending))
    case Vanish(k) => s.(deployments := s.deployments - {k}, terminating := s.terminating - {k})
    case PodStarts(k) => s.(pods := s.pods + {k})
    case PodStops(k) => s.(pods := s.pods - {k})
  }

  predicate Valid(s: State, steps: seq<Step>)
    decreases |steps|
  {
    steps == [] || (Enabled(s, steps[0]) && Valid(Do(s, steps[0]), steps[1..]))
  }

  function Run(s: State, steps: seq<Step>): State
    requires Valid(s, steps)
    decreases |steps|
  {
    if steps == [] then s else Run(Do(s, steps[0]), steps[1..])
  }

  function Init(separate: bool): State { State(map[], {}, {}, {}, Top, separate) }
}
