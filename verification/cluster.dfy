/**
 A cluster of Raft nodes over a network that may lose, duplicate and reorder
 messages, and what holds in every state of every run.
 */
module Cluster {
  import opened RaftTypes
  import opened Logs
  import opened Protocol
  import opened ProtocolActions
  import opened RaftNode
  import opened Refinement

  /** All nodes, and every message ever sent. */
  datatype Cluster = Cluster(nodes: map<Id, Node>, net: set<Msg>)

  predicate ValidConfig(cfg: Config) { cfg.voters != {} && NONE !in cfg.voters }

  /** The configuration entries that StartNode writes in term 1 (raft/node.go:233-269). */
  predicate BootLog(boot: seq<Entry>) {
    Contiguous(boot, 1) && forall k | 0 <= k < |boot| :: boot[k].term == BOOT_TERM
  }

  function InitNode(cfg: Config, boot: seq<Entry>, i: Id): Node {
    Node(i, BOOT_TERM, NONE, boot, |boot|, Follower, NONE, map[],
         map j | j in cfg.voters :: Progress(0, |boot| + 1, Probe, false, true, []), NONE, [], [], 0)
  }

  ghost predicate Init(cfg: Config, boot: seq<Entry>, c: Cluster) {
    && BootLog(boot)
    && c.nodes == (map i | i in cfg.voters :: InitNode(cfg, boot, i))
    && c.net == {}
  }

  /** Node i handles message m. */
  ghost predicate Delivers(cfg: Config, c: Cluster, c': Cluster, i: Id, m: Msg) {
    && i in c.nodes && Member(c.nodes[i]) && Deliverable(c.net, i, m)
    && Step(cfg, c.nodes[i], m).Done?
    && var w := Step(cfg, c.nodes[i], m).value;
       c' == Cluster(c.nodes[i := w.n], c.net + w.out)
  }

  /** The clock of node i ticks; timers are local messages that may fire at any time. */
  ghost predicate Ticks(c: Cluster, c': Cluster, i: Id) {
    && i in c.nodes
    && c' == c.(nodes := c.nodes[i := c.nodes[i].(elapsed := c.nodes[i].elapsed + 1)])
  }

  /** Node i restarts from its hard state and log (raft/raft.go:380-386, 1559-1566). */
  ghost predicate Restarts(c: Cluster, c': Cluster, i: Id) {
    && i in c.nodes
    && c' == c.(nodes := c.nodes[i := BecomeFollower(c.nodes[i], c.nodes[i].term, NONE).(readStates := [])])
  }

  ghost predicate Next(cfg: Config, c: Cluster, c': Cluster) {
    || (exists i :: Ticks(c, c', i))
    || (exists i :: Restarts(c, c', i))
    || (exists i, m :: Delivers(cfg, c, c', i, m))
  }

  /** A run: any finite sequence of steps from an initial state. */
  ghost predicate Run(cfg: Config, boot: seq<Entry>, b: seq<Cluster>) {
    && ValidConfig(cfg) && |b| > 0 && Init(cfg, boot, b[0])
    && forall x | 0 <= x < |b| - 1 :: Next(cfg, b[x], b[x + 1])
  }

  // ---------------------------------------------------------------- every reachable state mirrors a protocol state

  ghost predicate Mirrors(cfg: Config, c: Cluster, s: State) {
    && c.nodes.Keys == cfg.voters && s.net == c.net && Inv(s)
    && forall i | i in c.nodes :: Ready(cfg, s, i, c.nodes[i])
  }

  ghost function InitState(cfg: Config, boot: seq<Entry>): State {
    State(cfg.voters, map i | i in cfg.voters :: View(InitNode(cfg, boot, i)), {},
          Hist(map[BOOT_TERM := boot], map[], map p: At | p in InitAcks(cfg) :: |boot|, map[], map[], map[BOOT_TERM := |boot|]))
  }

  ghost function InitAcks(cfg: Config): set<At> { set i | i in cfg.voters :: At(BOOT_TERM, i) }

  lemma InitAcked(cfg: Config, boot: seq<Entry>, i: Id)
    ensures Acked(InitState(cfg, boot).h, BOOT_TERM, i) == if i in cfg.voters then |boot| else 0
    ensures forall T: nat | T != BOOT_TERM :: Acked(InitState(cfg, boot).h, T, i) == 0
  {
  }

  lemma BootIsGood(cfg: Config, boot: seq<Entry>)
    requires BootLog(boot)
    ensures Good(InitState(cfg, boot).h, boot, BOOT_TERM)
  {
  }

  lemma BootIsCommitted(cfg: Config, boot: seq<Entry>)
    requires ValidConfig(cfg) && BootLog(boot)
    ensures CommittedIn(InitState(cfg, boot), boot, BOOT_TERM, |boot|)
  {
    var s := InitState(cfg, boot);
    if boot != [] {
      forall j | j in cfg.voters ensures Acked(s.h, BOOT_TERM, j) >= |boot| { InitAcked(cfg, boot, j); }
      assert |cfg.voters| > 0;
      assert AckQuorum(s, BOOT_TERM, |boot|, cfg.voters);
      assert CommitWitness(s, boot, BOOT_TERM, |boot|, BOOT_TERM, |boot|);
    }
  }

  lemma InitNodeInv(cfg: Config, boot: seq<Entry>, i: Id)
    requires ValidConfig(cfg) && BootLog(boot) && i in cfg.voters
    ensures NodeInv(InitState(cfg, boot), i)
  {
    hide Good, CommittedIn;
    var s := InitState(cfg, boot);
    BootIsGood(cfg, boot);
    BootIsCommitted(cfg, boot);
    InitAcked(cfg, boot, i);
    forall T: nat, k: nat | T <= BOOT_TERM && OwnEntry(s.h, T, k) && k <= Acked(s.h, T, i) ensures Safe(s, boot, T, k) {
      HasIsSafe(s, boot, T, k);
    }
  }

  lemma InitHistInv(cfg: Config, boot: seq<Entry>)
    requires ValidConfig(cfg) && BootLog(boot)
    ensures HistInv(InitState(cfg, boot))
  {
    hide Good, View;
    BootIsGood(cfg, boot);
    var s := InitState(cfg, boot);
    assert AckKeys(s) by {
      forall p: At | p in s.h.acked ensures p.term == BOOT_TERM && p.id in cfg.voters && s.h.acked[p] == |boot| {}
      InitTerms(cfg, boot);
    }
  }

  lemma InitTerms(cfg: Config, boot: seq<Entry>)
    ensures forall i | i in cfg.voters :: InitState(cfg, boot).nodes[i].term == BOOT_TERM
  {
  }

  lemma InitReady(cfg: Config, boot: seq<Entry>, i: Id)
    requires ValidConfig(cfg) && BootLog(boot) && i in cfg.voters && Inv(InitState(cfg, boot))
    ensures Ready(cfg, InitState(cfg, boot), i, InitNode(cfg, boot, i))
  {
    hide Inv;
  }

  lemma InitMirrors(cfg: Config, boot: seq<Entry>, c: Cluster)
    requires ValidConfig(cfg) && Init(cfg, boot, c)
    ensures Mirrors(cfg, c, InitState(cfg, boot))
  {
    hide HistInv, NodeInv, View, Ready;
    var s := InitState(cfg, boot);
    InitHistInv(cfg, boot);
    forall i | i in s.nodes ensures NodeInv(s, i) { InitNodeInv(cfg, boot, i); }
    assert Inv(s);
    forall i | i in c.nodes ensures Ready(cfg, s, i, c.nodes[i]) { InitReady(cfg, boot, i); }
  }

  lemma OthersStayReady(cfg: Config, s: State, t: State, i: Id, out: set<Msg>, j: Id, n: Node)
    requires Ready(cfg, s, j, n) && Moves(s, t, i, out) && j != i && Inv(t)
    ensures Ready(cfg, t, j, n)
  {
    hide Inv;
  }

  /** Some node moved from c to c'. */
  lemma NextMoves(cfg: Config, c: Cluster, c': Cluster, s: State) returns (t: State, i: Id, out: set<Msg>)
    requires Mirrors(cfg, c, s) && Next(cfg, c, c')
    ensures i in c.nodes && i in c'.nodes && c' == Cluster(c.nodes[i := c'.nodes[i]], c.net + out)
    ensures Ready(cfg, t, i, c'.nodes[i]) && Moves(s, t, i, out)
  {
    hide Ready, Moves, Inv, Step;
    if i0 :| Ticks(c, c', i0) {
      t, i, out := s, i0, {};
      MovesNot(s, i);
      TicksKeepsMatches(cfg, c, c', s, i);
      SameMatchesReady(cfg, s, i, c.nodes[i], c'.nodes[i]);
    } else if i0 :| Restarts(c, c', i0) {
      i, out := i0, {};
      t := RestartMoves(cfg, s, i, c.nodes[i]);
    } else {
      var i0, m :| Delivers(cfg, c, c', i0, m);
      i, out := i0, Step(cfg, c.nodes[i0], m).value.out;
      t := StepMoves(cfg, s, i, c.nodes[i], m);
    }
  }

  lemma NextMirrors(cfg: Config, c: Cluster, c': Cluster, s: State) returns (t: State)
    requires Mirrors(cfg, c, s) && Next(cfg, c, c')
    ensures Mirrors(cfg, c', t) && Grows(s, t)
    ensures forall j | j in c.nodes :: j in c'.nodes && c.nodes[j].committed <= c'.nodes[j].committed
  {
    hide Ready, Moves, Inv, Next, Grows;
    var i, out;
    t, i, out := NextMoves(cfg, c, c', s);
    MovesFacts(cfg, s, t, i, out, c'.nodes[i]);
    forall j | j in c'.nodes ensures Ready(cfg, t, j, c'.nodes[j]) {
      if j != i { OthersStayReady(cfg, s, t, i, out, j, c.nodes[j]); }
    }
    forall j | j in c.nodes ensures c.nodes[j].committed <= c'.nodes[j].committed {
      ReadyCommitted(cfg, s, j, c.nodes[j]);
      ReadyCommitted(cfg, t, j, c'.nodes[j]);
    }
  }

  lemma ReadyCommitted(cfg: Config, s: State, j: Id, n: Node)
    requires Ready(cfg, s, j, n)
    ensures j in s.nodes && s.nodes[j].committed == n.committed
  {
  }

  lemma MovesFacts(cfg: Config, s: State, t: State, i: Id, out: set<Msg>, n: Node)
    requires Moves(s, t, i, out) && Ready(cfg, t, i, n)
    ensures Grows(s, t) && Inv(t) && t.net == s.net + out && t.nodes.Keys == s.nodes.Keys
    ensures forall j | j in s.nodes :: s.nodes[j].committed <= t.nodes[j].committed
  {
    hide Inv;
  }

  lemma TicksKeepsMatches(cfg: Config, c: Cluster, c': Cluster, s: State, i: Id)
    requires Ticks(c, c', i) && Ready(cfg, s, i, c.nodes[i])
    ensures SameMatches(c.nodes[i], c'.nodes[i])
  {
    hide Inv;
  }

  lemma RestartMoves(cfg: Config, s: State, i: Id, n: Node) returns (t: State)
    requires Ready(cfg, s, i, n)
    ensures Ready(cfg, t, i, BecomeFollower(n, n.term, NONE).(readStates := [])) && Moves(s, t, i, {})
  {
    hide Inv, Moves;
    InvVoters(s);
    t := BecomeFollowerMoves(cfg, s, i, n, n.term, NONE);
    var n' := BecomeFollower(n, n.term, NONE);
    SameMatchesReady(cfg, t, i, n', n'.(readStates := []));
  }
}
