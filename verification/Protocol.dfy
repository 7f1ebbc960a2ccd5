/** The sync protocol of one user as a transition system: any number of devices,
    requests that may be lost or arrive late, and other users who may push
    anything under their own account. */
module Protocol {
  import opened Common
  import opened Rows
  import opened Server
  import opened Paging
  import opened Device

  type DeviceId = int

  /** A numbered version of a row, as the server counts them. */
  datatype Version = Version(key: Key, number: nat)

  /** The server's side. `minted` are the ids the user's devices have made and
      `history` the fields of every version of the user's rows there has been. No
      step computes with either; that an id to be made is not in `minted` is
      asked of Create and Apply. */
  datatype World = World(user: User, db: Database, minted: set<Id>, history: map<Version, Fields>)

  datatype Answer = Answer(sent: Local, outcome: Outcome)

  /** A device: its tables and pull cursor, and what is under way. `queue` holds
      the rows of a running push as they were read, `answers` the results not
      yet applied, `page` a pull's response. `seen` remembers the fields of each
      version the device has sent or received, and is read by no step. */
  datatype Node = Node(rows: Tables, cursor: nat, queue: map<Key, Local>, answers: map<Key, Answer>,
                       page: Option<Page>, seen: map<Version, Fields>)

  /** A pushed row whose sender has stopped waiting. */
  datatype Stray = Stray(device: DeviceId, write: Write)

  datatype State = State(world: World, nodes: map<DeviceId, Node>, network: set<Stray>)

  datatype Step =
    | Create(d: DeviceId, k: Key, fields: Fields, at: Stamp)
    | Edit(d: DeviceId, k: Key, fields: Fields, at: Stamp)
    | Snapshot(d: DeviceId, keys: set<Key>)
    | Handle(d: DeviceId, k: Key, now: Stamp)
    | Apply(d: DeviceId, k: Key, fork: Id, marker: string)
    | LosePush(d: DeviceId)
    | Late(stray: Stray, now: Stamp)
    | Answered(d: DeviceId, limit: nat, p: Page)
    | Deliver(d: DeviceId)
    | LosePage(d: DeviceId)
    | Foreign(other: User, write: Write, now: Stamp)

  predicate Mine(w: World, k: Key) {
    k in w.db.rows && w.db.rows[k].author == w.user
  }

  predicate Idle(n: Node) {
    n.queue == map[] && n.answers == map[] && n.page == None
  }

  /** The stamp of an edit differs from that of the copy under way, if there is
      one. Without this the edit is lost: see EditInFlight in Safety. */
  predicate FreshStamp(n: Node, k: Key, at: Stamp) {
    && (k in n.queue ==> n.queue[k].updated != at)
    && (k in n.answers ==> n.answers[k].sent.updated != at)
  }

  ghost predicate Enabled(s: State, step: Step) {
    match step
    case Create(d, k, fields, at) =>
      d in s.nodes && k.id !in s.world.minted && Normal(k.table, fields)
    case Edit(d, k, fields, at) =>
      && d in s.nodes && k in s.nodes[d].rows && Normal(k.table, fields)
      && FreshStamp(s.nodes[d], k, at)
    case Snapshot(d, keys) =>
      && d in s.nodes && s.nodes[d].page == None && keys <= DirtyKeys(s.nodes[d].rows)
      && keys !! s.nodes[d].queue.Keys && keys !! s.nodes[d].answers.Keys
    case Handle(d, k, now) =>
      d in s.nodes && k in s.nodes[d].queue
    case Apply(d, k, fork, marker) =>
      && d in s.nodes && k in s.nodes[d].answers && fork !in s.world.minted
    case LosePush(d) =>
      d in s.nodes
    case Late(stray, now) =>
      stray in s.network
    case Answered(d, limit, p) =>
      && d in s.nodes && Idle(s.nodes[d])
      && limit >= 1 && IsPage(s.world.db, s.world.user, s.nodes[d].cursor, limit, p)
    case Deliver(d) =>
      d in s.nodes && s.nodes[d].page.Some?
    case LosePage(d) =>
      d in s.nodes
    case Foreign(other, write, now) =>
      other != s.world.user
  }

  /** The server takes one of the user's rows. */
  function Submit(w: World, write: Write, now: Stamp): (World, Outcome) {
    var (db, outcome) := Upserted(w.db, w.user, write, now);
    if outcome.Accepted? then
      (w.(db := db, history := w.history[Version(write.key, outcome.row.version) := outcome.row.fields]), outcome)
    else
      (w, outcome)
  }

  function Created(n: Node, k: Key, fields: Fields, at: Stamp): Node {
    n.(rows := n.rows[k := Local(fields, 0, true, at)])
  }

  function Edited(n: Node, k: Key, fields: Fields, at: Stamp): Node
    requires k in n.rows
  {
    n.(rows := n.rows[k := Local(fields, n.rows[k].version, true, at)])
  }

  function Queued(n: Node, keys: set<Key>): Node
    requires keys <= n.rows.Keys
  {
    n.(queue := n.queue + map k | k in keys :: n.rows[k])
  }

  function Handled(n: Node, k: Key, outcome: Outcome): Node
    requires k in n.queue
  {
    n.(queue := n.queue - {k}, answers := n.answers[k := Answer(n.queue[k], outcome)])
  }

  function Learned(seen: map<Version, Fields>, k: Key, outcome: Outcome): map<Version, Fields> {
    if outcome.Forbidden? then seen else seen[Version(k, outcome.row.version) := outcome.row.fields]
  }

  function Applied(n: Node, k: Key, fork: Id, marker: string): Node
    requires k in n.answers
  {
    var a := n.answers[k];
    n.(rows := AfterResult(n.rows, k, a.sent, a.outcome, fork, marker),
       answers := n.answers - {k},
       seen := Learned(n.seen, k, a.outcome))
  }

  function Versions(p: Page): set<Version> {
    set k | k in p.rows :: Version(k, p.rows[k].version)
  }

  function PageVersions(p: Page): map<Version, Fields> {
    map v | v in Versions(p) :: p.rows[v.key].fields
  }

  function Delivered(n: Node): Node
    requires n.page.Some?
  {
    var p := n.page.value;
    n.(rows := AfterPage(n.rows, p.rows), cursor := p.cursor, page := None, seen := n.seen + PageVersions(p))
  }

  function Abandoned(n: Node): Node {
    n.(queue := map[], answers := map[])
  }

  function Strays(d: DeviceId, n: Node): set<Stray> {
    set k | k in n.queue :: Stray(d, ToWrite(k, n.queue[k]))
  }

  function With(s: State, d: DeviceId, n: Node): State {
    s.(nodes := s.nodes[d := n])
  }

  ghost function After(s: State, step: Step): State
    requires Enabled(s, step)
  {
    match step
    case Create(d, k, fields, at) =>
      With(s, d, Created(s.nodes[d], k, fields, at)).(world := s.world.(minted := s.world.minted + {k.id}))
    case Edit(d, k, fields, at) =>
      With(s, d, Edited(s.nodes[d], k, fields, at))
    case Snapshot(d, keys) =>
      With(s, d, Queued(s.nodes[d], keys))
    case Handle(d, k, now) =>
      var (w, outcome) := Submit(s.world, ToWrite(k, s.nodes[d].queue[k]), now);
      With(s, d, Handled(s.nodes[d], k, outcome)).(world := w)
    case Apply(d, k, fork, marker) =>
      With(s, d, Applied(s.nodes[d], k, fork, marker)).(world := s.world.(minted := s.world.minted + {fork}))
    case LosePush(d) =>
      With(s, d, Abandoned(s.nodes[d])).(network := s.network + Strays(d, s.nodes[d]))
    case Late(stray, now) =>
      s.(world := Submit(s.world, stray.write, now).0)
    case Answered(d, limit, p) =>
      With(s, d, s.nodes[d].(page := Some(p)))
    case Deliver(d) =>
      With(s, d, Delivered(s.nodes[d]))
    case LosePage(d) =>
      With(s, d, s.nodes[d].(page := None))
    case Foreign(other, write, now) =>
      s.(world := s.world.(db := Upserted(s.world.db, other, write, now).0))
  }

  /** A new account: no row of the user's on the server, every device empty.
      Other users may have any rows at all. */
  ghost predicate Init(s: State) {
    && SeqsOk(s.world.db)
    && s.world.db.Last(s.world.user) == 0
    && (forall k :: !Mine(s.world, k))
    && s.world.history == map[]
    && s.network == {}
    && (forall d :: d in s.nodes ==> s.nodes[d] == Node(map[], 0, map[], map[], None, map[]))
  }

  /** Any server on which the user has no row, and any number of new devices, is a
      start. */
  lemma AnyStart(user: User, db: Database, devices: set<DeviceId>)
    requires SeqsOk(db) && db.Last(user) == 0
    ensures var nodes := map d | d in devices :: Node(map[], 0, map[], map[], None, map[]);
            Init(State(World(user, db, {}, map[]), nodes, {}))
  {
  }

  /** A run: a state before and after every step. */
  ghost predicate Run(states: seq<State>, steps: seq<Step>) {
    && |states| == |steps| + 1
    && (forall i :: 0 <= i < |steps| ==> Enabled(states[i], steps[i]) && states[i + 1] == After(states[i], steps[i]))
  }

  lemma RunStep(states: seq<State>, steps: seq<Step>, i: nat)
    requires Run(states, steps) && i < |steps|
    ensures |states| == |steps| + 1 && Enabled(states[i], steps[i]) && states[i + 1] == After(states[i], steps[i])
  {
  }

  /** A pushed row whose answer nobody waits for may still be handled, at once or
      in any later state that has not dropped it, and stays to be handled again. */
  lemma LostRowsArrive(s: State, d: DeviceId, k: Key, now: Stamp)
    requires d in s.nodes && k in s.nodes[d].queue
    ensures var stray := Stray(d, Write(k, s.nodes[d].queue[k].fields, s.nodes[d].queue[k].version));
            var lost := After(s, LosePush(d));
            && Enabled(s, LosePush(d)) && lost.nodes[d].queue == map[] && lost.nodes[d].answers == map[]
            && lost.nodes[d].rows == s.nodes[d].rows && lost.world == s.world
            && stray in lost.network && Enabled(lost, Late(stray, now))
            && After(lost, Late(stray, now)).world.db == Upserted(s.world.db, s.world.user, stray.write, now).0
            && After(lost, Late(stray, now)).network == lost.network
  {
  }

  /** Any other account may push any row at any time, and any page may be lost. */
  lemma OthersMayPush(s: State, other: User, write: Write, now: Stamp)
    requires other != s.world.user
    ensures Enabled(s, Foreign(other, write, now))
    ensures After(s, Foreign(other, write, now)).world.db == Upserted(s.world.db, other, write, now).0
    ensures forall d :: d in s.nodes ==> Enabled(s, LosePage(d)) && After(s, LosePage(d)).nodes[d].page == None
  {
  }
}
