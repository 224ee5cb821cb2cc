/** The `consume-group` client loops together with the coordinator and the logs they read. */
module ConsumerModel {
  import opened Bytes
  import opened Assignor
  import opened GroupModel
  import opened GroupRuns

  /** One client loop: the session of its last successful join (with the coordinator's life and the group's epoch at
      that moment), its positions, and how much of the last fetched page is still to be processed. */
  datatype Client = Client(
    group: bytes,
    topic: bytes,
    latest: bool,
    member: bytes,
    generation: uint32,
    life: nat,
    epoch: nat,
    parts: set<uint16>,
    asked: set<uint16>,
    pos: map<uint16, uint64>,
    unc: map<uint16, uint64>,
    at: uint16,
    left: nat)

  /** A commit request whose client has given up waiting for the reply. */
  datatype Pending = Pending(id: Id, generation: uint32, entries: seq<Entry>)

  /** A record that some member of a group has processed. */
  datatype Mark = Mark(group: bytes, tp: TopicPartition, offset: nat)

  /** One epoch of one group. */
  datatype Spot = Spot(life: nat, group: bytes, epoch: nat)

  /** A commit that landed in this epoch, for this partition, after its client had given up on it. */
  datatype Late = Late(spot: Spot, tp: TopicPartition)

  /** `earliest` is where the logs begin in memory, and `dropped` is how far retention has ever dropped them: a crash
      before the files are removed brings dropped records back. */
  datatype View = View(
    w: World,
    earliest: Watermarks,
    dropped: Watermarks,
    clients: map<nat, Client>,
    pending: seq<Pending>,
    processed: set<Mark>,
    former: set<Id>,
    late: set<Late>)

  datatype Cut = NoCut | ByClient(who: nat) | ByPending(which: nat)

  datatype Move =
    | Others(e: Event)
    | Starts(i: nat, group: bytes, topic: bytes, latest: bool)
    | Dies(i: nat)
    | Joins(i: nat, e: Event)
    | ReadsOffset(i: nat, p: uint16)
    | Describes(i: nat, p: uint16)
    | DescribeFails(i: nat, p: uint16)
    | Fetches(i: nat, p: uint16, n: nat)
    | Processes(i: nat)
    | StopsEarly(i: nat)
    | Resets(i: nat, p: uint16)
    | Commits(i: nat, durable: bool, code: nat, heard: bool)
    | Abandons(i: nat)
    | LateCommit(k: nat, durable: bool, code: nat)
    | Trims(trimmed: Watermarks)
    | BrokerRestarts(cut: Cut, kept: nat, recovered: Watermarks, back: Watermarks)

  function Tp(c: Client, p: uint16): TopicPartition {
    TopicPartition(c.topic, p)
  }

  function Key(c: Client, p: uint16): CommitKey {
    CommitKey(c.group, Tp(c, p))
  }

  function MeId(c: Client): Id {
    Id(c.group, c.member)
  }

  /** The entries of a commit: the uncommitted partitions in ascending order. */
  function EntriesBelow(c: Client, n: nat): seq<Entry>
    requires n <= 0x1_0000
  {
    if n == 0 then []
    else EntriesBelow(c, n - 1) + if n - 1 in c.unc then [Entry(Tp(c, n - 1), c.unc[n - 1])] else []
  }

  function Entries(c: Client): seq<Entry> {
    EntriesBelow(c, 0x1_0000)
  }

  function PartsOf(assignment: seq<TopicPartition>): set<uint16> {
    set tp | tp in assignment :: tp.partition
  }

  /** What a client makes of the reply to its join. */
  function AfterJoin(c: Client, r: JoinResult, w: World): Client {
    match r
    case Joined(member, generation, _, assignment) =>
      c.(member := member, generation := generation, life := w.life,
         epoch := if c.group in w.epochs then w.epochs[c.group] else 0,
         parts := PartsOf(assignment), asked := {}, pos := map[], unc := map[], left := 0)
    case Refused(code) => if code == UNKNOWN_MEMBER then c.(member := []) else c
  }

  function NewClient(group: bytes, topic: bytes, latest: bool): Client {
    Client(group, topic, latest, [], 0, 0, 0, {}, {}, map[], map[], 0, 0)
  }

  function With(v: View, i: nat, c: Client): View {
    v.(clients := v.clients[i := c])
  }

  /** All positions of the session are known and the last page is finished. */
  predicate Ready(c: Client) {
    c.left == 0 && c.pos.Keys == c.parts
  }

  predicate HasLog(v: View, tp: TopicPartition) {
    tp in v.w.marks && tp in v.earliest
  }

  function AfterRead(v: View, c: Client, p: uint16): Client {
    var offset := CommittedOffset(v.w.s.committed, c.group, Tp(c, p));
    if offset >= 0 then c.(pos := c.pos[p := offset]) else c.(asked := c.asked + {p})
  }

  function Following(offset: uint64): uint64 {
    (offset + 1) % 0x1_0000_0000_0000_0000
  }

  function AfterRecord(c: Client): Client
    requires c.at in c.pos && c.left > 0
  {
    var next := Following(c.pos[c.at]);
    c.(pos := c.pos[c.at := next], unc := c.unc[c.at := next], left := c.left - 1)
  }

  /** No id that a client still carries from an earlier life of the coordinator is handed out again. */
  ghost predicate NewId(v: View, e: Event) {
    e.JoinCall? && e.joinReply.Joined? && e.q.member == [] ==> Id(e.q.group, e.joinReply.member) !in v.former
  }

  predicate Background(e: Event) {
    e.JoinCall? || e.HeartbeatCall? || e.LeaveCall? || e.ExpireCall? || e.TopicCreated? || e.LogsGrow?
  }

  ghost predicate CutBy(v: View, cut: Cut, id: Id, generation: uint32, entries: seq<Entry>, kept: nat) {
    match cut
    case NoCut => kept == 0
    case ByClient(i) =>
      i in v.clients && v.clients[i].left == 0 &&
      id == MeId(v.clients[i]) && generation == v.clients[i].generation && entries == Entries(v.clients[i])
    case ByPending(k) => k < |v.pending| && Pending(id, generation, entries) == v.pending[k]
  }

  /** The present epoch of a group. */
  function SpotNow(w: World, group: bytes): Spot {
    Spot(w.life, group, if group in w.epochs then w.epochs[group] else 0)
  }

  function Landed(spot: Spot, entries: seq<Entry>): set<Late> {
    set i | 0 <= i < |entries| :: Late(spot, entries[i].tp)
  }

  function Raised(a: Watermarks, b: Watermarks): Watermarks {
    map tp | tp in a.Keys + b.Keys ::
      if tp !in a then b[tp] else if tp !in b then a[tp] else if a[tp] < b[tp] then b[tp] else a[tp]
  }

  /** The logs begin where they did, or earlier, where dropped segments still have their files: what is possible here
      is what `PartitionRuns.ComesBackExactly` says of each partition. */
  ghost predicate ComesBack(earliest: Watermarks, back: Watermarks) {
    back.Keys == earliest.Keys && forall tp :: tp in back ==> back[tp] <= earliest[tp]
  }

  ghost predicate RestartedAs(cfg: Config, v: View, cut: Cut, kept: nat, marks: Watermarks, back: Watermarks, v': View,
                              id: Id, generation: uint32, entries: seq<Entry>)
  {
    && CutBy(v, cut, id, generation, entries, kept) && ComesBack(v.earliest, back)
    && Step(cfg, v.w, Restart(id, generation, entries, kept, marks), v'.w)
    && v' == v.(w := v'.w, earliest := back, pending := [],
                former := v.former + set i | i in v.clients :: MeId(v.clients[i]),
                late := v.late + if cut.ByPending? then Landed(SpotNow(v.w, id.group), entries) else {})
  }

  ghost predicate RestartMove(cfg: Config, v: View, cut: Cut, kept: nat, marks: Watermarks, back: Watermarks,
                              v': View) {
    exists id, generation, entries :: RestartedAs(cfg, v, cut, kept, marks, back, v', id, generation, entries)
  }

  ghost predicate ClientMove(cfg: Config, v: View, m: Move, i: nat, v': View)
    requires i in v.clients
  {
    var c := v.clients[i];
    match m
    case Dies(_) => v' == v.(clients := v.clients - {i})
    case Joins(_, e) =>
      && e.JoinCall? && e.q.group == c.group && e.q.member == c.member && e.q.topics == [c.topic]
      && Step(cfg, v.w, e, v'.w) && NewId(v, e)
      && v' == With(v, i, AfterJoin(c, e.joinReply, v'.w)).(w := v'.w)
    case ReadsOffset(_, p) => p in c.parts && p !in c.pos && p !in c.asked && v' == With(v, i, AfterRead(v, c, p))
    case Describes(_, p) =>
      && p in c.asked && HasLog(v, Tp(c, p))
      && v' == With(v, i, c.(asked := c.asked - {p},
                             pos := c.pos[p := if c.latest then v.w.marks[Tp(c, p)] else v.earliest[Tp(c, p)]]))
    case DescribeFails(_, p) =>
      && p in c.asked && HasLog(v, Tp(c, p))
      && v' == With(v, i, c.(asked := c.asked - {p}, pos := c.pos[p := 0]))
    case Fetches(_, p, n) =>
      && Ready(c) && p in c.pos && HasLog(v, Tp(c, p))
      && v.earliest[Tp(c, p)] <= c.pos[p] && c.pos[p] + n <= v.w.marks[Tp(c, p)]
      && v' == With(v, i, c.(at := p, left := n))
    case Processes(_) =>
      && c.left > 0 && c.at in c.pos
      && v' == With(v, i, AfterRecord(c)).(processed := v.processed + {Mark(c.group, Tp(c, c.at), c.pos[c.at])})
    case StopsEarly(_) => v' == With(v, i, c.(left := 0))
    case Resets(_, p) =>
      && Ready(c) && p in c.pos && HasLog(v, Tp(c, p))
      && (c.pos[p] < v.earliest[Tp(c, p)] || c.pos[p] > v.w.marks[Tp(c, p)])
      && v' == With(v, i, c.(pos := c.pos[p := v.earliest[Tp(c, p)]], unc := c.unc[p := v.earliest[Tp(c, p)]]))
    case Commits(_, durable, code, heard) =>
      && c.left == 0 && c.unc != map[]
      && Step(cfg, v.w, CommitCall(MeId(c), c.generation, Entries(c), durable, code), v'.w)
      && v' == With(v, i, if heard && code == 0 then c.(unc := map[]) else c).(w := v'.w)
    case Abandons(_) =>
      && c.left == 0 && c.unc != map[]
      && v' == v.(pending := v.pending + [Pending(MeId(c), c.generation, Entries(c))])
    case _ => false
  }

  ghost predicate Acts(cfg: Config, v: View, m: Move, v': View) {
    match m
    case Others(e) => Background(e) && Step(cfg, v.w, e, v'.w) && NewId(v, e) && v' == v.(w := v'.w)
    case Starts(i, group, topic, latest) => i !in v.clients && v' == With(v, i, NewClient(group, topic, latest))
    case LateCommit(k, durable, code) =>
      && k < |v.pending|
      && var r := v.pending[k];
      && Step(cfg, v.w, CommitCall(r.id, r.generation, r.entries, durable, code), v'.w)
      && v' == v.(w := v'.w, pending := v.pending[..k] + v.pending[k + 1..],
                  late := v.late + if code == 0 then Landed(SpotNow(v.w, r.id.group), r.entries) else {})
    case Trims(earliest) =>
      && Grown(v.earliest, earliest)
      && (forall tp :: tp in earliest ==> tp in v.w.marks && earliest[tp] <= v.w.marks[tp])
      && v' == v.(earliest := earliest, dropped := Raised(v.dropped, earliest))
    case BrokerRestarts(cut, kept, marks, back) => RestartMove(cfg, v, cut, kept, marks, back, v')
    case _ => m.i in v.clients && ClientMove(cfg, v, m, m.i, v')
  }

  ghost predicate Opening(v: View) {
    && Begin(v.w) && v.clients == map[] && v.pending == [] && v.processed == {} && v.former == {} && v.late == {}
    && v.dropped == v.earliest && forall tp :: tp in v.earliest ==> tp in v.w.marks && v.earliest[tp] <= v.w.marks[tp]
  }

  /** Offsets stay below 2^63 and no group changes its membership 2^32 times. */
  ghost predicate Bounded(v: View) {
    && (forall tp :: tp in v.w.marks ==> v.w.marks[tp] < 0x8000_0000_0000_0000)
    && forall g :: g in v.w.epochs ==> v.w.epochs[g] < 0xFFFF_FFFF
  }

  ghost predicate History(cfg: Config, vs: seq<View>, ms: seq<Move>) {
    && |vs| == |ms| + 1 && Opening(vs[0])
    && (forall n :: 0 <= n < |ms| ==> Acts(cfg, vs[n], ms[n], vs[n + 1]))
    && forall n :: 0 <= n < |vs| ==> Bounded(vs[n])
  }
}
