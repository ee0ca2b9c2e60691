/** That reads are answered: a follower passes a read to its leader and hands on the answer, a leader
    asks for confirmation, and a confirmed read is answered with all that wait before it, each at the
    node that asked for it. */
module ReadAnswers {
  import opened RaftTypes
  import opened Logs
  import opened RaftNode

  // ---------------------------------------------------------------- the way to the leader and back

  /** A follower passes a read on to the leader it knows, and drops it otherwise. */
  lemma FollowerForwardsRead(cfg: Config, n: Node, from: Id, to: Id, ctx: Ctx)
    requires Member(n) && n.role == Follower
    ensures Step(cfg, n, MsgReadIndex(from, to, ctx)) ==
            Done(Work(n, if n.lead == NONE then {} else {MsgReadIndex(n.id, n.lead, ctx)}))
  {
  }

  /** The answer to a forwarded read becomes a read state, after those already there, and changes
      nothing else. */
  lemma FollowerTakesAnswer(cfg: Config, n: Node, from: Id, to: Id, index: nat, ctx: Ctx)
    requires Member(n) && n.role == Follower && n.term > 0
    ensures Step(cfg, n, MsgReadIndexResp(n.term, from, to, index, ctx)) ==
            Done(Work(n.(readStates := n.readStates + [ReadState(index, ctx)]), {}))
  {
  }

  /** A leader of several voters that committed in its term queues a new read at its commit index and
      asks every other voter to confirm it, with the context. */
  lemma LeaderAsks(cfg: Config, n: Node, from: Id, to: Id, ctx: Ctx)
    requires Member(n) && n.role == Leader && |n.prs| > 1 && !cfg.leaseRead
    requires TermAt(n.log, n.committed) == n.term && forall r | r in n.pending :: r.ctx != ctx
    ensures var o := Step(cfg, n, MsgReadIndex(from, to, ctx));
            && o.Done? && o.value.n == n.(pending := n.pending + [PendingRead(ctx, from, n.committed, {})])
            && o.value.out == set j | j in n.prs && j != n.id ::
                 MsgHeartbeat(n.term, n.id, j, Min(n.prs[j].matched, n.committed), ctx)
  {
    assert QuorumSize(n) >= 2;
    assert AddRead(n.pending, n.committed, from, ctx) == n.pending + [PendingRead(ctx, from, n.committed, {})];
    hide AddRead;
  }

  /** Without an entry of its term committed a leader does not know enough and refuses. */
  lemma LeaderRefuses(cfg: Config, n: Node, from: Id, to: Id, ctx: Ctx)
    requires Member(n) && n.role == Leader && |n.prs| > 1 && TermAt(n.log, n.committed) != n.term
    ensures Step(cfg, n, MsgReadIndex(from, to, ctx)) == Done(Work(n, {}))
  {
    assert QuorumSize(n) >= 2;
  }

  /** A follower confirms with the context it was sent. */
  lemma FollowerConfirms(cfg: Config, n: Node, from: Id, to: Id, commit: nat, ctx: Ctx)
    requires Member(n) && n.role == Follower && n.term > 0 && commit <= |n.log|
    ensures Step(cfg, n, MsgHeartbeat(n.term, from, to, commit, ctx)) ==
            Done(Work(n.(elapsed := 0, lead := from, committed := Max(n.committed, commit)),
                      {MsgHeartbeatResp(n.term, n.id, from, ctx)}))
  {
  }

  // ---------------------------------------------------------------- release

  /** The requests of this node itself among `rs`, as read states in order. */
  function LocalReads(id: Id, rs: seq<PendingRead>): seq<ReadState> {
    if rs == [] then []
    else (if rs[0].from in {NONE, id} then [ReadState(rs[0].index, rs[0].ctx)] else []) + LocalReads(id, rs[1..])
  }

  /** One answer for each of the others, to the node that asked. */
  function RemoteAnswers(n: Node, rs: seq<PendingRead>): set<Msg> {
    set r | r in rs && r.from !in {NONE, n.id} :: MsgReadIndexResp(n.term, n.id, r.from, r.index, r.ctx)
  }

  lemma {:induction false} ReleasesAll(w: Work, rs: seq<PendingRead>)
    ensures ReleaseReads(w, rs) == Work(w.n.(readStates := w.n.readStates + LocalReads(w.n.id, rs)), w.out + RemoteAnswers(w.n, rs))
    decreases |rs|
  {
    if rs == [] {
      assert w.n.readStates + [] == w.n.readStates && w.out + {} == w.out;
    } else {
      var r, rest := rs[0], rs[1..];
      var w' := ReleaseRead(w, r);
      ReleasesAll(w', rest);
      var now := if r.from in {NONE, w.n.id} then [ReadState(r.index, r.ctx)] else [];
      assert w'.n.readStates + LocalReads(w.n.id, rest) == w.n.readStates + (now + LocalReads(w.n.id, rest));
      AnswersMore(w, r, rs, rest);
    }
  }

  lemma AnswersMore(w: Work, r: PendingRead, rs: seq<PendingRead>, rest: seq<PendingRead>)
    requires rs == [r] + rest
    ensures ReleaseRead(w, r).out + RemoteAnswers(ReleaseRead(w, r).n, rest) == w.out + RemoteAnswers(w.n, rs)
  {
    assert forall x :: x in rs <==> x == r || x in rest;
  }

  ghost predicate Confirms(n: Node, m: Msg, k: nat) {
    && m.MsgHeartbeatResp? && k < |n.pending| && n.pending[k].ctx == m.ctx
    && forall l | 0 <= l < k :: n.pending[l].ctx != m.ctx
  }

  ghost function Acks(n: Node, m: Msg, k: nat): set<Id>
    requires Confirms(n, m, k)
  {
    n.pending[k].acks + {m.from}
  }

  lemma Finds(pending: seq<PendingRead>, ctx: Ctx, k: nat)
    requires k < |pending| && pending[k].ctx == ctx && forall l | 0 <= l < k :: pending[l].ctx != ctx
    ensures FindRead(pending, ctx) == k
  {
    var _ := FindRead(pending, ctx);
  }

  lemma AckReadReleases(w: Work, m: Msg, k: nat)
    requires Confirms(w.n, m, k)
    ensures var w' := LeaderAckRead(w, m.from, m.ctx);
            var front := w.n.pending[..k] + [w.n.pending[k].(acks := Acks(w.n, m, k))];
            if |Acks(w.n, m, k)| + 1 >= |w.n.prs| / 2 + 1 then
              w' == Work(w.n.(pending := w.n.pending[k + 1..], readStates := w.n.readStates + LocalReads(w.n.id, front)),
                         w.out + RemoteAnswers(w.n, front))
            else w' == w.(n := w.n.(pending := front + w.n.pending[k + 1..]))
  {
    var n := w.n;
    var front, rest := n.pending[..k] + [n.pending[k].(acks := Acks(n, m, k))], n.pending[k + 1..];
    Finds(n.pending, m.ctx, k);
    var pending := AckRead(n.pending, m.ctx, m.from);
    assert pending == front + rest;
    Finds(pending, m.ctx, k);
    assert pending[..k + 1] == front && pending[k + 1..] == rest;
    hide FindRead, ReleaseReads, LocalReads, RemoteAnswers;
    ReleasesAll(w.(n := n.(pending := rest)), front);
    SameAnswers(n, n.(pending := rest), front);
  }

  lemma SameAnswers(n: Node, n': Node, rs: seq<PendingRead>)
    requires n'.id == n.id && n'.term == n.term
    ensures RemoteAnswers(n, rs) == RemoteAnswers(n', rs)
  {
  }

  /** Only the answers among the messages. */
  function Answers(ms: set<Msg>): set<Msg> { set m | m in ms && m.MsgReadIndexResp? }

  /** When a confirmation completes a majority, the request it names and all before it are answered:
      those of this node as read states, in queue order; each other one by a message to the node that
      asked. Before that the confirmation is only counted. */
  lemma ConfirmationReleases(cfg: Config, n: Node, m: Msg, k: nat)
    requires Member(n) && n.role == Leader && m.MsgHeartbeatResp? && m.term == n.term && m.from in n.prs
    requires !cfg.leaseRead && m.ctx != "" && Confirms(n, m, k)
    ensures var o := Step(cfg, n, m);
            var front := n.pending[..k] + [n.pending[k].(acks := Acks(n, m, k))];
            && o.Done?
            && if |Acks(n, m, k)| + 1 >= |n.prs| / 2 + 1 then
                 && o.value.n.pending == n.pending[k + 1..]
                 && o.value.n.readStates == n.readStates + LocalReads(n.id, n.pending[..k + 1])
                 && Answers(o.value.out) == RemoteAnswers(n, n.pending[..k + 1])
               else
                 && o.value.n.pending == front + n.pending[k + 1..]
                 && o.value.n.readStates == n.readStates && Answers(o.value.out) == {}
  {
    hide Step, LeaderAckRead, LocalReads, RemoteAnswers;
    var w := RespIsAck(cfg, n, m);
    SameKeysSameSize(w.n.prs, n.prs);
    AckReadReleases(w, m, k);
    var front := n.pending[..k] + [n.pending[k].(acks := Acks(n, m, k))];
    SameAnswers(n, w.n, front);
    SameRequests(n, front, n.pending[..k + 1]);
    AnswersAre(w.out, RemoteAnswers(n, n.pending[..k + 1]));
  }

  /** A heartbeat response first concerns the progress of its sender, then the reads. */
  lemma RespIsAck(cfg: Config, n: Node, m: Msg) returns (w: Work)
    requires Member(n) && n.role == Leader && m.MsgHeartbeatResp? && m.term == n.term && m.from in n.prs
    requires !cfg.leaseRead && m.ctx != ""
    ensures w.n == n.(prs := w.n.prs) && w.n.prs.Keys == n.prs.Keys && Answers(w.out) == {}
    ensures Step(cfg, n, m) == Done(LeaderAckRead(w, m.from, m.ctx))
  {
    hide SendAppend, FreeTo, LeaderAckRead;
    var pr := n.prs[m.from].(recentActive := true, paused := false);
    var pr' := if pr.state == Replicate && pr.ins != [] && |pr.ins| == cfg.maxInflight
               then pr.(ins := FreeTo(pr.ins, pr.ins[0])) else pr;
    w := Work(SetProgress(n, m.from, pr'), {});
    SendingIsQuiet(cfg, w, m.from);
    if pr'.matched < |n.log| { w := SendAppend(cfg, w, m.from, true); }
  }

  lemma SendingIsQuiet(cfg: Config, w: Work, to: Id)
    requires to in w.n.prs
    ensures var w' := SendAppend(cfg, w, to, true);
            w'.n == w.n.(prs := w'.n.prs) && w'.n.prs.Keys == w.n.prs.Keys && Answers(w'.out) == Answers(w.out)
  {
  }

  lemma SameKeysSameSize(a: map<Id, Progress>, b: map<Id, Progress>)
    requires a.Keys == b.Keys
    ensures |a| == |b|
  {
    assert |a| == |a.Keys| && |b| == |b.Keys|;
  }

  lemma AnswersAre(out: set<Msg>, answers: set<Msg>)
    requires Answers(out) == {} && Answers(answers) == answers
    ensures Answers(out + answers) == answers
  {
    assert Answers(out + answers) == Answers(out) + Answers(answers);
  }

  /** Who has confirmed so far plays no part in the answers. */
  lemma {:induction false} SameRequests(n: Node, rs: seq<PendingRead>, ss: seq<PendingRead>)
    requires |rs| == |ss| && forall l | 0 <= l < |rs| :: rs[l] == ss[l].(acks := rs[l].acks)
    ensures LocalReads(n.id, rs) == LocalReads(n.id, ss) && RemoteAnswers(n, rs) == RemoteAnswers(n, ss)
    ensures Answers(RemoteAnswers(n, ss)) == RemoteAnswers(n, ss)
    decreases |rs|
  {
    if rs != [] {
      SameRequests(n, rs[1..], ss[1..]);
      forall a | a in RemoteAnswers(n, rs) ensures a in RemoteAnswers(n, ss) {
        var l :| 0 <= l < |rs| && rs[l].from !in {NONE, n.id} && a == MsgReadIndexResp(n.term, n.id, rs[l].from, rs[l].index, rs[l].ctx);
        assert ss[l] in ss;
      }
      forall a | a in RemoteAnswers(n, ss) ensures a in RemoteAnswers(n, rs) {
        var l :| 0 <= l < |ss| && ss[l].from !in {NONE, n.id} && a == MsgReadIndexResp(n.term, n.id, ss[l].from, ss[l].index, ss[l].ctx);
        assert rs[l] in rs;
      }
    }
  }

  /** A confirmation that names no waiting request answers nothing. */
  lemma StrayConfirmation(cfg: Config, n: Node, m: Msg)
    requires Member(n) && n.role == Leader && m.MsgHeartbeatResp? && m.term == n.term && m.from in n.prs
    requires cfg.leaseRead || m.ctx == "" || forall r | r in n.pending :: r.ctx != m.ctx
    ensures var o := Step(cfg, n, m);
            && o.Done? && o.value.n.pending == n.pending && o.value.n.readStates == n.readStates && Answers(o.value.out) == {}
  {
    hide SendAppend, FreeTo, ReleaseReads;
    var pr := n.prs[m.from].(recentActive := true, paused := false);
    var pr' := if pr.state == Replicate && pr.ins != [] && |pr.ins| == cfg.maxInflight
               then pr.(ins := FreeTo(pr.ins, pr.ins[0])) else pr;
    SendingIsQuiet(cfg, Work(SetProgress(n, m.from, pr'), {}), m.from);
    assert FindRead(n.pending, m.ctx) == |n.pending| || cfg.leaseRead || m.ctx == "";
    hide FindRead;
  }

  /** With a lease, or as the only voter, a leader answers at once at its commit index. */
  lemma AnsweredAtOnce(cfg: Config, n: Node, from: Id, to: Id, ctx: Ctx)
    requires Member(n) && n.role == Leader
    requires |n.prs| == 1 || (cfg.leaseRead && TermAt(n.log, n.committed) == n.term)
    ensures Step(cfg, n, MsgReadIndex(from, to, ctx)) ==
            Done(if from in {NONE, n.id} then Work(n.(readStates := n.readStates + [ReadState(n.committed, ctx)]), {})
                 else Work(n, {MsgReadIndexResp(n.term, n.id, from, n.committed, ctx)}))
  {
  }
}
