/** Elections with pre-vote (section 9.6 of the Raft thesis): who is asked, who answers what, when a
    pre-candidate may stand, and that a node whose log is not behind a majority can be elected. */
module Elections {
  import opened RaftTypes
  import opened Logs
  import opened Quorums
  import opened Protocol
  import opened ProtocolReplication
  import opened RaftNode
  import opened Refinement
  import opened Cluster
  import opened Safety
  import SizeLimit
  import FlowControl
  import Proposals

  /** Log a is at least as up to date as b: the term of its last entry is higher, or the same and it
      is not shorter (section 5.4.1). */
  predicate NotBehind(a: seq<Entry>, b: seq<Entry>) {
    var s, t := LastTermOf(a), LastTermOf(b);
    s > t || (s == t && |a| >= |b|)
  }

  function LastTermOf(log: seq<Entry>): nat { if log == [] then 0 else log[|log| - 1].term }

  /** A follower that has heard from its leader within the election timeout does not listen to candidates. */
  predicate InLease(cfg: Config, n: Node) { cfg.checkQuorum && n.lead != NONE && n.elapsed < cfg.electionTimeout }

  // ---------------------------------------------------------------- asking

  /** With pre-vote a node asks first: it keeps term, vote and log, and sends every other voter the next
      term and how far its log goes. */
  lemma PreVoteAsks(cfg: Config, n: Node)
    requires Member(n) && n.role != Leader && |n.prs| >= 2 && cfg.preVote
    ensures Step(cfg, n, MsgHup) ==
            Done(Work(n.(role := PreCandidate, lead := NONE, votes := map[n.id := true]),
                      set j | j in n.prs && j != n.id :: MsgPreVote(n.term + 1, n.id, j, |n.log|, LastTermOf(n.log))))
  {
    var n' := Poll(BecomePreCandidate(n), n.id, true);
    assert n'.votes == map[n.id := true];
    assert Granted(n') == {n.id};
  }

  /** Without it, or once the pre-vote is won, a node stands in the next term and votes for itself. */
  ghost predicate StandsFor(n: Node, transfer: bool, w: Work) {
    && w.n.term == n.term + 1 && w.n.role == Candidate && w.n.vote == n.id && w.n.log == n.log && w.n.id == n.id
    && w.n.lead == NONE && w.n.votes == map[n.id := true] && w.n.prs.Keys == n.prs.Keys
    && w.n.committed == n.committed && w.n.readStates == n.readStates
    && w.out == set j | j in n.prs && j != n.id :: MsgVote(n.term + 1, n.id, j, |n.log|, LastTermOf(n.log), transfer)
  }

  /** A candidate with its own vote. */
  lemma OwnVote(n: Node)
    requires Member(n) && n.role != Leader
    ensures var c := Poll(BecomeCandidate(n), n.id, true);
            && c == n.(term := n.term + 1, role := Candidate, vote := n.id, lead := NONE, elapsed := 0, transferee := NONE,
                       pending := [], votes := map[n.id := true], prs := c.prs)
            && c.prs.Keys == n.prs.Keys && |c.prs| == |n.prs| && Granted(c) == {n.id}
  {
    var c := Poll(BecomeCandidate(n), n.id, true);
    assert c.prs.Keys == n.prs.Keys;
    assert |c.prs| == |c.prs.Keys| && |n.prs| == |n.prs.Keys|;
  }

  lemma CampaignStands(n: Node, t: CampaignType)
    requires Member(n) && n.role != Leader && |n.prs| >= 2 && !t.PreElection?
    ensures StandsFor(n, t.Transfer?, Campaign(Work(n, {}), t))
  {
    var c := Poll(BecomeCandidate(n), n.id, true);
    OwnVote(n);
    assert |{n.id}| == 1;
    assert Campaign(Work(n, {}), t) == Work(c, {} + VotesFrom(c, t.Transfer?)) by { hide Poll, BecomeCandidate, Granted, BecomeLeader; }
    hide Campaign, Poll, BecomeCandidate, Granted;
    SameRequests(n, c, t.Transfer?);
  }

  ghost function VotesFrom(c: Node, transfer: bool): set<Msg> {
    set j | j in c.prs && j != c.id :: MsgVote(c.term, c.id, j, |c.log|, LastTerm(c.log), transfer)
  }

  lemma SameRequests(n: Node, c: Node, transfer: bool)
    requires c.prs.Keys == n.prs.Keys && c.term == n.term + 1 && c.id == n.id && c.log == n.log
    ensures VotesFrom(c, transfer) == set j | j in n.prs && j != n.id :: MsgVote(n.term + 1, n.id, j, |n.log|, LastTermOf(n.log), transfer)
  {
    assert LastTerm(c.log) == LastTermOf(n.log);
  }

  lemma VoteAsks(cfg: Config, n: Node)
    requires Member(n) && n.role != Leader && |n.prs| >= 2 && !cfg.preVote
    ensures Step(cfg, n, MsgHup).Done? && StandsFor(n, false, Step(cfg, n, MsgHup).value)
  {
    hide Campaign;
    CampaignStands(n, Election);
  }

  /** The only voter there is leads at once. */
  lemma LoneVoterLeads(cfg: Config, n: Node)
    requires Member(n) && n.role != Leader && |n.prs| == 1
    ensures var o := Step(cfg, n, MsgHup);
            && o.Done? && o.value.n.role == Leader && o.value.n.term == n.term + 1 && o.value.out == {}
            && o.value.n.log == n.log + [Entry(|n.log| + 1, n.term + 1, "")]
  {
    hide BecomeLeader, BecomeCandidate;
    if cfg.preVote {
      var p := Poll(BecomePreCandidate(n), n.id, true);
      assert p.votes == map[n.id := true];
      assert Granted(p) == {n.id};
      LoneCandidateLeads(p);
    } else {
      LoneCandidateLeads(n);
    }
  }

  lemma LoneCandidateLeads(n: Node)
    requires Member(n) && n.role != Leader && |n.prs| == 1
    ensures var w := Campaign(Work(n, {}), Election);
            && w.n.role == Leader && w.n.term == n.term + 1 && w.out == {}
            && w.n.log == n.log + [Entry(|n.log| + 1, n.term + 1, "")]
  {
    hide BecomeLeader, Poll, BecomeCandidate, Granted;
    OwnVote(n);
    assert |{n.id}| == 1;
    BecomesLeader(Poll(BecomeCandidate(n), n.id, true));
  }

  lemma BecomesLeader(n: Node)
    requires Member(n) && n.role == Candidate
    ensures var l := BecomeLeader(n); l.role == Leader && l.term == n.term && l.log == n.log + [Entry(|n.log| + 1, n.term, "")]
  {
    assert NewEntries(TakeOffice(n), [""]) == [Entry(|n.log| + 1, n.term, "")];
  }

  /** A leader transfer lets its target stand at once, even with pre-vote, and says so to the voters. */
  lemma TimeoutNowStands(cfg: Config, n: Node, from: Id, to: Id)
    requires Member(n) && n.role == Follower && |n.prs| >= 2 && n.term > 0
    ensures var o := Step(cfg, n, MsgTimeoutNow(n.term, from, to)); o.Done? && StandsFor(n, true, o.value)
  {
    hide Campaign;
    CampaignStands(n, Transfer);
  }

  // ---------------------------------------------------------------- answering

  /** What b answers to a's pre-vote request: it grants the next term exactly if a's log is not behind its
      own, stays silent in a lease, and never changes. A node that has got further refuses. */
  lemma PreVoteAnswered(cfg: Config, a: Node, b: Node)
    requires Member(b)
    ensures var m := MsgPreVote(a.term + 1, a.id, b.id, |a.log|, LastTermOf(a.log));
            var grant, refuse := {MsgPreVoteResp(a.term + 1, b.id, a.id, false)}, {MsgPreVoteResp(b.term, b.id, a.id, true)};
            Step(cfg, b, m) == Done(Work(b,
              if b.term <= a.term then if InLease(cfg, b) then {} else if NotBehind(a.log, b.log) then grant else refuse
              else if b.term == a.term + 1 && (b.vote == a.id || (b.vote == NONE && b.lead == NONE)) && NotBehind(a.log, b.log)
              then grant else refuse))
  {
  }

  /** And to its vote request: outside a lease, or for a transfer, b moves to a's term and votes for it
      exactly if it has not voted for another and a's log is not behind. */
  lemma VoteAnswered(cfg: Config, a: Node, b: Node, transfer: bool)
    requires Member(b) && b.term < a.term && (transfer || !InLease(cfg, b))
    ensures var m := MsgVote(a.term, a.id, b.id, |a.log|, LastTermOf(a.log), transfer);
            var o := Step(cfg, b, m);
            && o.Done? && o.value.n.term == a.term && o.value.n.role == Follower && o.value.n.log == b.log && o.value.n.id == b.id
            && o.value.n.vote == (if NotBehind(a.log, b.log) then a.id else NONE)
            && o.value.out == {MsgVoteResp(a.term, b.id, a.id, !NotBehind(a.log, b.log))}
  {
  }

  /** In a lease neither request has any effect. */
  lemma LeaseIgnores(cfg: Config, b: Node, m: Msg)
    requires Member(b) && InLease(cfg, b) && ((m.MsgVote? && !m.transfer) || m.MsgPreVote?) && m.term > b.term
    ensures Step(cfg, b, m) == Done(Work(b, {}))
  {
  }

  // ---------------------------------------------------------------- counting

  function Yes(votes: map<Id, bool>): set<Id> { set j | j in votes && votes[j] }

  /** A further answer: the pre-candidate stands with a majority of grants, gives up with a majority of
      refusals, and otherwise waits. */
  lemma PreVoteCounted(cfg: Config, n: Node, m: Msg)
    requires Member(n) && n.role == PreCandidate && |n.prs| >= 2 && m.MsgPreVoteResp?
    requires m.from !in n.votes && (if m.reject then m.term == n.term else m.term >= n.term) && m.term > 0
    ensures var o := Step(cfg, n, m);
            var votes := n.votes[m.from := !m.reject];
            && o.Done?
            && if |Yes(votes)| == |n.prs| / 2 + 1 then StandsFor(n, false, o.value)
               else if |votes| - |Yes(votes)| == |n.prs| / 2 + 1 then
                 o.value.n.role == Follower && o.value.n.term == n.term && o.value.n.vote == n.vote && o.value.n.log == n.log && o.value.out == {}
               else o.value == Work(n.(votes := votes), {})
  {
    hide Campaign, Reset;
    var n' := Poll(n, m.from, !m.reject);
    assert Granted(n') == Yes(n'.votes);
    CampaignStands(n', Election);
    hide Granted, Yes;
    ResetKeeps(n');
  }

  lemma ResetKeeps(n: Node)
    ensures Reset(n, n.term).vote == n.vote && Reset(n, n.term).log == n.log && Reset(n, n.term).term == n.term
  {
  }

  /** The same for votes; a majority makes a leader, whose first entry goes out to all. */
  lemma VoteCounted(cfg: Config, n: Node, from: Id, to: Id, reject: bool)
    requires Member(n) && n.role == Candidate && |n.prs| >= 2 && n.term > 0 && from !in n.votes
    ensures var o := Step(cfg, n, MsgVoteResp(n.term, from, to, reject));
            var votes := n.votes[from := !reject];
            && o.Done? && o.value.n.term == n.term && o.value.n.id == n.id
            && if |Yes(votes)| == |n.prs| / 2 + 1 then
                 && o.value.n.role == Leader && o.value.n.lead == n.id && o.value.n.transferee == NONE
                 && o.value.n.log == n.log + [Entry(|n.log| + 1, n.term, "")]
               else if |votes| - |Yes(votes)| == |n.prs| / 2 + 1 then
                 o.value.n.role == Follower && o.value.n.lead == NONE && o.value.n.log == n.log && o.value.out == {}
               else o.value == Work(n.(votes := votes), {})
  {
    hide BcastAppend, MaybeCommit;
    var n' := Poll(n, from, !reject);
    assert Granted(n') == Yes(n'.votes);
    if |Yes(n'.votes)| == |n.prs| / 2 + 1 { WinnerLeads(cfg, n'); }
  }

  lemma WinnerLeads(cfg: Config, n: Node)
    requires Member(n) && n.role == Candidate
    ensures var w := BcastAppend(cfg, Work(BecomeLeader(n), {}));
            && w.n.role == Leader && w.n.lead == n.id && w.n.term == n.term && w.n.id == n.id && w.n.transferee == NONE
            && w.n.log == n.log + [Entry(|n.log| + 1, n.term, "")]
  {
    var t := TakeOffice(n);
    assert NewEntries(t, [""]) == [Entry(|n.log| + 1, n.term, "")];
    hide BcastAppend;
    SendsKeepNode(cfg, BecomeLeader(n));
  }

  /** A new leader knows nothing of its peers and sends each its first entry, right after its old log. */
  lemma WinnerAnnounces(cfg: Config, n: Node, j: Id)
    requires Member(n) && n.role == Candidate && j in n.prs && j != n.id
    ensures var l, w := BecomeLeader(n), BcastAppend(cfg, Work(BecomeLeader(n), {}));
            && j in l.prs && l.prs[j] == Progress(0, |n.log| + 1, Probe, false, false, [])
            && exists m :: m in w.out && m.MsgApp? && m.term == n.term && m.from == n.id && m.to == j
                 && m.index == |n.log| && m.logTerm == LastTermOf(n.log) && m.entries == [Entry(|n.log| + 1, n.term, "")]
  {
    var t := TakeOffice(n);
    var e := Entry(|n.log| + 1, n.term, "");
    assert NewEntries(t, [""]) == [e];
    var l := BecomeLeader(n);
    assert l.log == n.log + [e] && l.prs[j] == t.prs[j];
    assert l.log[|n.log|..] == [e];
    SizeLimit.LimitSizeIsPrefix(cfg.size, [e], cfg.maxMsgSize);
    assert EntriesFrom(cfg, l.log, l.prs[j].next) == [e] by { OnlyOneEntry(cfg, e); }
    hide EntriesFrom, BecomeLeader;
    var m := AppendMsg(cfg, l, j, l.prs[j]);
    assert m in BcastAppend(cfg, Work(l, {})).out;
  }

  lemma OnlyOneEntry(cfg: Config, e: Entry)
    ensures SizeLimit.LimitSize(cfg.size, [e], cfg.maxMsgSize) == [e]
  {
    hide SizeLimit.LimitSize;
    SizeLimit.LimitSizeIsPrefix(cfg.size, [e], cfg.maxMsgSize);
    var es := SizeLimit.LimitSize(cfg.size, [e], cfg.maxMsgSize);
    assert es == [e][..|es|] && |es| == 1;
  }

  lemma SendsKeepNode(cfg: Config, n: Node)
    ensures BcastAppend(cfg, Work(n, {})).n == n.(prs := BcastAppend(cfg, Work(n, {})).n.prs)
  {
  }

  // ---------------------------------------------------------------- who sends pre-votes

  predicate Quiet(ms: set<Msg>) { forall m | m in ms :: !m.MsgPreVote? && !m.MsgPreVoteResp? }

  /** A leader's work: it does not take part in elections, and at most steps down. */
  ghost predicate Leads(n: Node, w: Work) { Quiet(w.out) && w.n.id == n.id && w.n.role in {Leader, Follower} }

  lemma SendAppendLeads(cfg: Config, n: Node, w: Work, to: Id, sendIfEmpty: bool)
    requires Leads(n, w) && to in w.n.prs
    ensures Leads(n, SendAppend(cfg, w, to, sendIfEmpty))
  {
  }

  lemma BcastAppendLeads(cfg: Config, n: Node, w: Work)
    requires Leads(n, w)
    ensures Leads(n, BcastAppend(cfg, w))
  {
  }

  lemma {:induction false} SendAllLeads(cfg: Config, n: Node, w: Work, to: Id)
    requires Leads(n, w) && to in w.n.prs
    ensures Leads(n, SendAll(cfg, w, to))
    decreases |w.n.log| + 1 - w.n.prs[to].next, if w.n.prs[to].paused then 0 else 1
  {
    hide Leads, AppendMsg;
    if Sends(cfg, w.n, w.n.prs[to], false) {
      SendAppendLeads(cfg, n, w, to, false);
      SendAllLeads(cfg, n, SendAppend(cfg, w, to, false), to);
    }
  }

  lemma {:induction false} ReleaseLeads(n: Node, w: Work, rs: seq<PendingRead>)
    requires Leads(n, w)
    ensures Leads(n, ReleaseReads(w, rs))
    decreases |rs|
  {
    if rs != [] { ReleaseLeads(n, ReleaseRead(w, rs[0]), rs[1..]); }
  }

  lemma AckReadLeads(n: Node, w: Work, from: Id, ctx: Ctx)
    requires Leads(n, w)
    ensures Leads(n, LeaderAckRead(w, from, ctx))
  {
    hide ReleaseReads, AckRead, FindRead;
    var pending := AckRead(w.n.pending, ctx, from);
    var k := FindRead(pending, ctx);
    if k < |pending| { ReleaseLeads(n, w.(n := w.n.(pending := pending[k + 1..])), pending[..k + 1]); }
  }

  lemma CommitAndSendLeads(cfg: Config, n: Node, n': Node, from: Id, oldPaused: bool)
    requires Leads(n, Work(n', {})) && from in n'.prs && Member(n')
    ensures var w := CommitAndSend(cfg, n', from, oldPaused); Leads(n, w) && from in w.n.prs
  {
    hide SendAppend, Quiet;
    var c := MaybeCommit(n').0;
    assert c.role == n'.role && c.id == n'.id && c.prs == n'.prs;
    BcastAppendLeads(cfg, n, Work(c, {}));
    SendAppendLeads(cfg, n, Work(c, {}), from, true);
    FlowControl.SendAppendKeys(cfg, Work(c, {}), from);
  }

  lemma AppRespLeads(cfg: Config, n: Node, m: Msg)
    requires Member(n) && n.role == Leader && m.MsgAppResp? && m.from in n.prs
    ensures Leads(n, LeaderAppResp(cfg, n, m))
  {
    hide SendAppend, SendAll, CommitAndSend, FreeTo;
    var pr := n.prs[m.from].(recentActive := true);
    if m.reject {
      var (pr', decreased) := MaybeDecrTo(pr, m.index, m.rejectHint);
      var pr'' := if pr'.state == Replicate then BecomeProbe(pr') else pr';
      SendAppendLeads(cfg, n, Work(SetProgress(n, m.from, pr''), {}), m.from, true);
    } else {
      var pr' := MaybeUpdate(pr, m.index);
      var pr'' := if pr'.state == Probe then BecomeReplicate(pr') else pr'.(ins := FreeTo(pr'.ins, m.index));
      var n' := SetProgress(n, m.from, pr'');
      CommitAndSendLeads(cfg, n, n', m.from, IsPaused(cfg, pr));
      SendAllLeads(cfg, n, CommitAndSend(cfg, n', m.from, IsPaused(cfg, pr)), m.from);
    }
  }

  lemma HeartbeatRespLeads(cfg: Config, n: Node, m: Msg)
    requires Member(n) && n.role == Leader && m.MsgHeartbeatResp? && m.from in n.prs
    ensures Leads(n, LeaderHeartbeatResp(cfg, n, m))
  {
    hide SendAppend, FreeTo, LeaderAckRead;
    var pr := n.prs[m.from].(recentActive := true, paused := false);
    var pr' := if pr.state == Replicate && pr.ins != [] && |pr.ins| == cfg.maxInflight
               then pr.(ins := FreeTo(pr.ins, pr.ins[0])) else pr;
    var w := Work(SetProgress(n, m.from, pr'), {});
    SendAppendLeads(cfg, n, w, m.from, true);
    var w' := if pr'.matched < |n.log| then SendAppend(cfg, w, m.from, true) else w;
    AckReadLeads(n, w', m.from, m.ctx);
  }

  lemma StepLeaderLeads(cfg: Config, n: Node, m: Msg)
    requires Member(n) && n.role == Leader
    ensures StepLeader(cfg, n, m).Done? ==> Leads(n, StepLeader(cfg, n, m).value)
  {
    hide LeaderAppResp, LeaderHeartbeatResp, AppendEntry, BcastAppend, SendAppend, AddRead;
    match m {
      case MsgProp(_, _, payload) =>
        Proposals.AppendEntryAppends(n, payload);
        BcastAppendLeads(cfg, n, Work(AppendEntry(n, payload), {}));
      case MsgAppResp(_, from, _, _, _, _) => if from in n.prs { AppRespLeads(cfg, n, m); }
      case MsgHeartbeatResp(_, from, _, _) => if from in n.prs { HeartbeatRespLeads(cfg, n, m); }
      case MsgTransferLeader(_, from, _) =>
        if from in n.prs { SendAppendLeads(cfg, n, Work(n.(elapsed := 0, transferee := from), {}), from, true); }
      case _ =>
    }
  }

  /** The message grants j's pre-vote for a term not before this one. */
  predicate Grants(m: Msg, j: Id, term: nat) { m.MsgPreVoteResp? && !m.reject && m.from == j && m.term >= term }

  ghost predicate AsksTruly(n: Node, ms: set<Msg>) {
    forall x | x in ms && x.MsgPreVote? ::
      x.from == n.id && x.term == n.term + 1 && x.index == |n.log| && x.logTerm == LastTermOf(n.log)
  }

  ghost predicate AnswersTruly(n: Node, m: Msg, ms: set<Msg>) {
    forall x | x in ms && x.MsgPreVoteResp? && !x.reject ::
      m.MsgPreVote? && x == MsgPreVoteResp(m.term, n.id, m.from, false) && Covers(m.logTerm, m.index, n.log)
  }

  /** A log that ends at this position with this term is not behind. */
  predicate Covers(logTerm: nat, index: nat, log: seq<Entry>) {
    logTerm > LastTermOf(log) || (logTerm == LastTermOf(log) && index >= |log|)
  }

  ghost predicate CountsTruly(n: Node, m: Msg, n': Node) {
    n'.role == PreCandidate ==>
      forall j | j in Yes(n'.votes) ::
        j == n.id || (n.role == PreCandidate && n'.term == n.term && j in Yes(n.votes)) || Grants(m, j, n'.term)
  }

  /** Those whose grants a pre-candidate has, with the message it is handling. */
  ghost function Backers(n: Node, m: Msg): set<Id> {
    Yes(n.votes) + if m.MsgPreVoteResp? && !m.reject && m.term >= n.term then {m.from} else {}
  }

  /** Unless told to by its leader, a pre-candidate stands only with a majority of grants. */
  ghost predicate StandsTruly(n: Node, m: Msg, n': Node) {
    n.role == PreCandidate && n'.role == Candidate && !m.MsgTimeoutNow? ==>
      && n'.term == n.term + 1 && n'.log == n.log
      && exists q :: q <= Backers(n, m) && |q| == |n.prs| / 2 + 1
  }

  ghost predicate Truly(n: Node, m: Msg, w: Work) {
    AsksTruly(w.n, w.out) && AnswersTruly(n, m, w.out) && CountsTruly(n, m, w.n) && StandsTruly(n, m, w.n) && w.n.id == n.id
    && (n.role == Follower && w.n.role in {Candidate, PreCandidate} ==> m.MsgTimeoutNow? || m.MsgHup?)
  }

  lemma QuietIsTrue(n: Node, m: Msg, w: Work)
    requires Quiet(w.out) && w.n.role in {Leader, Follower} && w.n.id == n.id
    ensures Truly(n, m, w)
  {
  }

  lemma StandingIsTrue(n: Node, m: Msg, n1: Node, transfer: bool, w: Work)
    requires StandsFor(n1, transfer, w) && n1.id == n.id && n.role != PreCandidate && (m.MsgTimeoutNow? || m.MsgHup?)
    ensures Truly(n, m, w)
  {
  }

  lemma HupIsTrue(cfg: Config, n: Node)
    requires Member(n) && |n.prs| >= 2 && n.role != Leader && (n.role == PreCandidate ==> cfg.preVote)
    ensures Truly(n, MsgHup, Step(cfg, n, MsgHup).value)
  {
    if cfg.preVote {
      PreVoteAsks(cfg, n);
      assert Yes(map[n.id := true]) == {n.id};
    } else {
      VoteAsks(cfg, n);
      hide Step;
      StandingIsTrue(n, MsgHup, n, false, Step(cfg, n, MsgHup).value);
    }
  }

  lemma PollBacked(n: Node, m: Msg)
    requires n.role == PreCandidate && m.MsgPreVoteResp? && m.term >= n.term
    ensures var n' := Poll(n, m.from, !m.reject);
            Granted(n') <= Backers(n, m) && n' == n.(votes := n'.votes) && Truly(n, m, Work(n', {}))
  {
  }

  lemma PreVoteRespIsTrue(cfg: Config, n: Node, m: Msg)
    requires Member(n) && |n.prs| >= 2 && n.role == PreCandidate && m.MsgPreVoteResp? && m.term >= n.term
    ensures Truly(n, m, CandidateVoteResp(cfg, n, m.from, !m.reject))
  {
    hide Campaign, QuorumSize, BecomeFollower, Granted, Truly, Poll, Backers;
    PollBacked(n, m);
    var n' := Poll(n, m.from, !m.reject);
    var w := CandidateVoteResp(cfg, n, m.from, !m.reject);
    if |Granted(n')| == QuorumSize(n') {
      CampaignStands(n', Election);
      HalfAndOne(n', Granted(n'));
      StandsAfterPreVote(n, m, n', w);
    } else if |n'.votes| - |Granted(n')| == QuorumSize(n') {
      StepsDown(n');
      QuietIsTrue(n, m, w);
    }
  }

  lemma HalfAndOne(n: Node, q: set<Id>)
    requires |q| == QuorumSize(n)
    ensures |q| == |n.prs| / 2 + 1
  {
  }

  lemma StepsDown(n: Node)
    ensures BecomeFollower(n, n.term, NONE).role == Follower && BecomeFollower(n, n.term, NONE).id == n.id
  {
  }

  lemma StandsAfterPreVote(n: Node, m: Msg, n': Node, w: Work)
    requires n' == n.(votes := n'.votes) && StandsFor(n', false, w)
    requires Granted(n') <= Backers(n, m) && |Granted(n')| == |n.prs| / 2 + 1 && n.role == PreCandidate
    ensures Truly(n, m, w)
  {
    hide Granted, Backers;
    assert StandsTruly(n, m, w.n);
  }

  lemma VoteRespIsTrue(cfg: Config, n: Node, m: Msg)
    requires Member(n) && n.role == Candidate && m.MsgVoteResp?
    ensures Truly(n, m, CandidateVoteResp(cfg, n, m.from, !m.reject))
  {
    hide BecomeLeader, BcastAppend, Granted, QuorumSize, BecomeFollower;
    var n' := Poll(n, m.from, !m.reject);
    var w := CandidateVoteResp(cfg, n, m.from, !m.reject);
    WinnerQuiet(cfg, n');
    StepsDown(n');
    if w != Work(n', {}) { QuietIsTrue(n, m, w); }
  }

  lemma WinnerQuiet(cfg: Config, n: Node)
    requires Member(n) && n.role == Candidate
    ensures var w := BcastAppend(cfg, Work(BecomeLeader(n), {})); Quiet(w.out) && w.n.role == Leader && w.n.id == n.id
  {
    hide BecomeLeader, BcastAppend;
    WinnerLeads(cfg, n);
    LeaderIsLeader(n);
    BcastAppendLeads(cfg, n, Work(BecomeLeader(n), {}));
  }

  lemma LeaderIsLeader(n: Node)
    requires Member(n) && n.role == Candidate
    ensures BecomeLeader(n).role == Leader && BecomeLeader(n).id == n.id
  {
    hide AppendEntry;
    Proposals.AppendEntryAppends(TakeOffice(n), [""]);
  }

  lemma AppendIsQuiet(n: Node, m: Msg)
    requires m.MsgApp? && n.role == Follower && HandleAppend(n, m).Done?
    ensures var w := HandleAppend(n, m).value; Quiet(w.out) && w.n.role == Follower && w.n.id == n.id
  {
    hide Merged, FindConflict;
  }

  lemma StepCandidateIsTrue(cfg: Config, n: Node, m: Msg)
    requires Member(n) && |n.prs| >= 2 && (n.role == Candidate || n.role == PreCandidate)
    requires m.MsgPreVoteResp? ==> m.term >= n.term
    ensures StepCandidate(cfg, n, m).Done? ==> Truly(n, m, StepCandidate(cfg, n, m).value)
  {
    hide CandidateVoteResp, HandleAppend;
    if StepCandidate(cfg, n, m).Done? {
      match m {
        case MsgApp(term, from, _, _, _, _, _) =>
          AppendIsQuiet(BecomeFollower(n, term, from), m);
          QuietIsTrue(n, m, StepCandidate(cfg, n, m).value);
        case MsgVoteResp(_, _, _, _) => if n.role == Candidate { VoteRespIsTrue(cfg, n, m); }
        case MsgPreVoteResp(_, _, _, _) => if n.role == PreCandidate { PreVoteRespIsTrue(cfg, n, m); }
        case _ =>
      }
    }
  }

  lemma StepFollowerIsTrue(cfg: Config, n: Node, m: Msg)
    requires Member(n) && |n.prs| >= 2 && n.role == Follower
    ensures StepFollower(cfg, n, m).Done? ==> Truly(n, m, StepFollower(cfg, n, m).value)
  {
    hide Campaign, HandleAppend;
    if StepFollower(cfg, n, m).Done? {
      match m {
        case MsgApp(_, from, _, _, _, _, _) => AppendIsQuiet(n.(elapsed := 0, lead := from), m);
        case MsgTimeoutNow(_, _, _) =>
          CampaignStands(n, Transfer);
          StandingIsTrue(n, m, n, true, Campaign(Work(n, {}), Transfer));
        case _ =>
      }
    }
  }

  lemma DispatchIsTrue(cfg: Config, n: Node, m: Msg)
    requires Member(n) && |n.prs| >= 2 && (n.role == PreCandidate ==> cfg.preVote)
    requires m.MsgPreVoteResp? ==> m.term >= n.term
    ensures Dispatch(cfg, n, m).Done? ==> Truly(n, m, Dispatch(cfg, n, m).value)
  {
    hide Campaign, StepLeader, StepFollower, StepCandidate, Truly;
    if m.MsgHup? {
      DispatchHup(cfg, n);
    } else if m.MsgVote? || m.MsgPreVote? {
      BallotsAreTrue(n, m);
    } else if n.role == Leader {
      StepLeaderLeads(cfg, n, m);
      if StepLeader(cfg, n, m).Done? { QuietIsTrue(n, m, StepLeader(cfg, n, m).value); }
    } else if n.role == Follower {
      StepFollowerIsTrue(cfg, n, m);
    } else {
      StepCandidateIsTrue(cfg, n, m);
    }
  }

  lemma DispatchHup(cfg: Config, n: Node)
    requires Member(n) && |n.prs| >= 2 && (n.role == PreCandidate ==> cfg.preVote)
    ensures Dispatch(cfg, n, MsgHup).Done? && Truly(n, MsgHup, Dispatch(cfg, n, MsgHup).value)
  {
    hide Campaign, Truly;
    if n.role == Leader {
      QuietIsTrue(n, MsgHup, Work(n, {}));
    } else {
      HupIsTrue(cfg, n);
    }
  }

  lemma BallotsAreTrue(n: Node, m: Msg)
    ensures m.MsgVote? ==> Truly(n, m, HandleVote(n, m))
    ensures m.MsgPreVote? ==> Truly(n, m, HandlePreVote(n, m))
  {
  }

  /** Falling back to follower first does not change what the step amounts to. */
  lemma FollowerFirst(n: Node, n': Node, m: Msg, w: Work)
    requires Truly(n', m, w) && n'.role == Follower && n'.id == n.id && n'.log == n.log && !m.MsgHup?
    ensures Truly(n, m, w)
  {
  }

  lemma StepIsTrue(cfg: Config, n: Node, m: Msg)
    requires Member(n) && |n.prs| >= 2 && (n.role == PreCandidate ==> cfg.preVote) && (m.MsgPreVoteResp? ==> m.term > 0)
    ensures Step(cfg, n, m).Done? ==> Truly(n, m, Step(cfg, n, m).value)
  {
    hide Dispatch, Truly, Reset;
    var term := TermOf(m);
    if term == 0 || term == n.term {
      DispatchIsTrue(cfg, n, m);
    } else if term > n.term {
      DispatchIsTrue(cfg, n, m);
      NewTermIsTrue(cfg, n, m, if m.MsgApp? || m.MsgHeartbeat? then m.from else NONE);
      OldTermIsTrue(n, m);
    } else {
      OldTermIsTrue(n, m);
    }
  }

  lemma OldTermIsTrue(n: Node, m: Msg)
    ensures Truly(n, m, Work(n, {}))
    ensures m.MsgPreVote? ==> Truly(n, m, Work(n, {MsgPreVoteResp(n.term, n.id, m.from, true)}))
    ensures m.MsgHeartbeat? || m.MsgApp? ==> Truly(n, m, Work(n, {MsgAppResp(n.term, n.id, m.from, 0, false, 0)}))
  {
  }

  lemma NewTermIsTrue(cfg: Config, n: Node, m: Msg, lead: Id)
    requires Member(n) && |n.prs| >= 2 && TermOf(m) > n.term
    ensures var n' := BecomeFollower(n, TermOf(m), lead);
            Member(n') && (Dispatch(cfg, n', m).Done? ==> Truly(n, m, Dispatch(cfg, n', m).value))
  {
    hide Dispatch, Truly;
    var n' := BecomeFollower(n, TermOf(m), lead);
    assert |n'.prs| == |n.prs| by { assert n'.prs.Keys == n.prs.Keys && |n.prs| == |n.prs.Keys| && |n'.prs| == |n'.prs.Keys|; }
    DispatchIsTrue(cfg, n', m);
    if Dispatch(cfg, n', m).Done? { FollowerFirst(n, n', m, Dispatch(cfg, n', m).value); }
  }

  // ---------------------------------------------------------------- every run

  /** Every node knows who it is and who votes; messages with a term have a positive one. */
  ghost predicate Named(cfg: Config, c: Cluster) {
    && c.nodes.Keys == cfg.voters
    && (forall i | i in c.nodes :: c.nodes[i].id == i && c.nodes[i].prs.Keys == cfg.voters && c.nodes[i].term > 0)
    && (forall m | m in c.net :: Termless(m) || m.term > 0)
  }

  lemma RunNamed(cfg: Config, boot: seq<Entry>, b: seq<Cluster>, x: nat)
    requires Run(cfg, boot, b) && x < |b|
    ensures Named(cfg, b[x])
  {
    hide Inv, Run, MsgInv, View;
    var ss := RunMirrors(cfg, boot, b);
    assert Mirrors(cfg, b[x], ss[x]);
    forall i | i in b[x].nodes
      ensures b[x].nodes[i].id == i && b[x].nodes[i].prs.Keys == cfg.voters && b[x].nodes[i].term > 0
    {
      MirrorsNode(cfg, b[x], ss[x], i);
    }
    forall m | m in b[x].net ensures Termless(m) || m.term > 0 { TermIsPositive(ss[x], m); }
  }

  lemma TermIsPositive(s: State, m: Msg)
    requires Inv(s) && m in s.net
    ensures Termless(m) || m.term > 0
  {
    hide Inv;
    InvMsg(s, m);
  }

  /** In this state node i had reached the term before T, with a log that ends like this. */
  ghost predicate StoodAt(c: Cluster, i: Id, T: nat, index: nat, logTerm: nat) {
    i in c.nodes && c.nodes[i].term + 1 == T && |c.nodes[i].log| == index && LastTermOf(c.nodes[i].log) == logTerm
  }

  ghost predicate Stood(b: seq<Cluster>, x: nat, i: Id, T: nat, index: nat, logTerm: nat)
    requires x < |b|
  {
    exists z :: 0 <= z <= x && StoodAt(b[z], i, T, index, logTerm)
  }

  ghost predicate BackedAt(b: seq<Cluster>, y: nat, j: Id, i: Id, T: nat, index: nat, logTerm: nat)
    requires y < |b|
  {
    Stood(b, y, i, T, index, logTerm) && j in b[y].nodes && Covers(logTerm, index, b[y].nodes[j].log)
  }

  /** At some moment up to x node j had a log not ahead of the one with which i asked for term T. */
  ghost predicate Backed(b: seq<Cluster>, x: nat, j: Id, i: Id, T: nat)
    requires x < |b|
  {
    exists y, index, logTerm :: 0 <= y <= x && BackedAt(b, y, j, i, T, index, logTerm)
  }

  ghost predicate GrantBacked(b: seq<Cluster>, x: nat, j: Id, i: Id, term: nat)
    requires x < |b|
  {
    exists T: nat :: T >= term && Backed(b, x, j, i, T)
  }

  ghost predicate MsgTrue(b: seq<Cluster>, x: nat, m: Msg)
    requires x < |b|
  {
    && (m.MsgPreVote? ==> Stood(b, x, m.from, m.term, m.index, m.logTerm))
    && (m.MsgPreVoteResp? && !m.reject ==> Backed(b, x, m.from, m.to, m.term))
  }

  ghost predicate CountTrue(b: seq<Cluster>, x: nat, i: Id)
    requires x < |b| && i in b[x].nodes
  {
    b[x].nodes[i].role == PreCandidate ==>
      forall j | j in Yes(b[x].nodes[i].votes) :: j == i || GrantBacked(b, x, j, i, b[x].nodes[i].term)
  }

  ghost predicate AllTrue(b: seq<Cluster>, x: nat)
    requires x < |b|
  {
    (forall m | m in b[x].net :: MsgTrue(b, x, m)) && (forall i | i in b[x].nodes :: CountTrue(b, x, i))
  }

  lemma MsgTrueLater(b: seq<Cluster>, x: nat, y: nat, m: Msg)
    requires x <= y < |b| && MsgTrue(b, x, m)
    ensures MsgTrue(b, y, m)
  {
    hide BackedAt, StoodAt;
  }

  lemma BackedLater(b: seq<Cluster>, x: nat, y: nat, j: Id, i: Id, term: nat)
    requires x <= y < |b| && GrantBacked(b, x, j, i, term)
    ensures GrantBacked(b, y, j, i, term)
  {
    hide BackedAt;
    var T: nat :| T >= term && Backed(b, x, j, i, T);
    assert Backed(b, y, j, i, T);
  }

  /** A message of the last step. */
  lemma NewMsgTrue(cfg: Config, b: seq<Cluster>, x: nat, y: nat, i: Id, m: Msg, a: Msg)
    requires y == x + 1 < |b| && AllTrue(b, x) && Named(cfg, b[x]) && Delivers(cfg, b[x], b[y], i, m)
    requires Truly(b[x].nodes[i], m, Step(cfg, b[x].nodes[i], m).value) && a in Step(cfg, b[x].nodes[i], m).value.out
    ensures MsgTrue(b, y, a)
  {
    hide Step, CountsTruly, StandsTruly, Named, CountTrue;
    var n, w := b[x].nodes[i], Step(cfg, b[x].nodes[i], m).value;
    assert n.id == i by { OwnName(cfg, b[x], i); }
    if a.MsgPreVote? {
      assert StoodAt(b[y], i, a.term, a.index, a.logTerm);
    } else if a.MsgPreVoteResp? && !a.reject {
      assert MsgTrue(b, x, m);
      assert BackedAt(b, x, i, m.from, m.term, m.index, m.logTerm);
    }
  }

  lemma OwnName(cfg: Config, c: Cluster, i: Id)
    requires Named(cfg, c) && i in c.nodes
    ensures c.nodes[i].id == i
  {
  }

  lemma NewCountTrue(cfg: Config, b: seq<Cluster>, x: nat, y: nat, i: Id, m: Msg)
    requires y == x + 1 < |b| && AllTrue(b, x) && Named(cfg, b[x]) && Delivers(cfg, b[x], b[y], i, m)
    requires Truly(b[x].nodes[i], m, Step(cfg, b[x].nodes[i], m).value)
    ensures CountTrue(b, y, i)
  {
    hide Step, AsksTruly, AnswersTruly, StandsTruly, Backed, Named;
    var n, n' := b[x].nodes[i], b[y].nodes[i];
    assert n.id == i by { OwnName(cfg, b[x], i); }
    assert CountTrue(b, x, i);
    if n'.role == PreCandidate {
      forall j | j in Yes(n'.votes) ensures j == i || GrantBacked(b, y, j, i, n'.term) {
        if j != i {
          if n.role == PreCandidate && n'.term == n.term && j in Yes(n.votes) {
            BackedLater(b, x, y, j, i, n.term);
          } else {
            assert MsgTrue(b, x, m);
            assert GrantBacked(b, x, j, i, n'.term);
            BackedLater(b, x, y, j, i, n'.term);
          }
        }
      }
    }
  }

  lemma SameCountTrue(b: seq<Cluster>, x: nat, y: nat, i: Id)
    requires y == x + 1 < |b| && i in b[x].nodes && i in b[y].nodes && CountTrue(b, x, i)
    requires SameCount(b[x].nodes[i], b[y].nodes[i])
    ensures CountTrue(b, y, i)
  {
    hide Backed;
    var n' := b[y].nodes[i];
    if n'.role == PreCandidate {
      forall j | j in Yes(n'.votes) ensures j == i || GrantBacked(b, y, j, i, n'.term) {
        if j != i { BackedLater(b, x, y, j, i, n'.term); }
      }
    }
  }

  lemma {:induction false} RunTrue(cfg: Config, boot: seq<Entry>, b: seq<Cluster>, x: nat)
    requires Run(cfg, boot, b) && x < |b| && cfg.preVote && |cfg.voters| >= 2
    ensures AllTrue(b, x)
    decreases x
  {
    hide Next, AllTrue, Named, Init;
    if x == 0 {
      BootTrue(cfg, boot, b);
    } else {
      RunTrue(cfg, boot, b, x - 1);
      RunNamed(cfg, boot, b, x - 1);
      assert Next(cfg, b[x - 1], b[x - 1 + 1]);
      NextTrue(cfg, b, x - 1, x);
    }
  }

  lemma BootTrue(cfg: Config, boot: seq<Entry>, b: seq<Cluster>)
    requires |b| > 0 && Init(cfg, boot, b[0])
    ensures AllTrue(b, 0)
  {
    hide MsgTrue, CountTrue;
    forall i | i in b[0].nodes ensures CountTrue(b, 0, i) { FollowerCounts(b, 0, i); }
  }

  lemma FollowerCounts(b: seq<Cluster>, x: nat, i: Id)
    requires x < |b| && i in b[x].nodes && b[x].nodes[i].role == Follower
    ensures CountTrue(b, x, i)
  {
  }

  lemma NextTrue(cfg: Config, b: seq<Cluster>, x: nat, y: nat)
    requires y == x + 1 < |b| && AllTrue(b, x) && Named(cfg, b[x]) && Next(cfg, b[x], b[y]) && cfg.preVote && |cfg.voters| >= 2
    ensures AllTrue(b, y)
  {
    hide AllTrue, Named, Delivers, Ticks, Restarts;
    var c, c' := b[x], b[y];
    if i :| Ticks(c, c', i) {
      TickIsQuiet(c, c', i);
      QuietStepTrue(b, x, y);
    } else if i :| Restarts(c, c', i) {
      RestartIsQuiet(c, c', i);
      QuietStepTrue(b, x, y);
    } else {
      var i, m :| Delivers(cfg, c, c', i, m);
      DeliveryTrue(cfg, b, x, y, i, m);
    }
  }

  /** No message is sent and no vote is counted. */
  ghost predicate Uneventful(c: Cluster, c': Cluster) {
    && c'.net == c.net && c'.nodes.Keys == c.nodes.Keys
    && forall i | i in c.nodes :: SameCount(c.nodes[i], c'.nodes[i])
  }

  predicate SameCount(n: Node, n': Node) {
    n'.role == PreCandidate ==> n.role == PreCandidate && n'.votes == n.votes && n'.term == n.term
  }

  lemma TickIsQuiet(c: Cluster, c': Cluster, i: Id)
    requires Ticks(c, c', i)
    ensures Uneventful(c, c')
  {
  }

  lemma RestartIsQuiet(c: Cluster, c': Cluster, i: Id)
    requires Restarts(c, c', i)
    ensures Uneventful(c, c')
  {
  }

  lemma QuietStepTrue(b: seq<Cluster>, x: nat, y: nat)
    requires y == x + 1 < |b| && AllTrue(b, x) && Uneventful(b[x], b[y])
    ensures AllTrue(b, y)
  {
    hide MsgTrue, CountTrue, SameCount;
    forall m | m in b[y].net ensures MsgTrue(b, y, m) { MsgTrueLater(b, x, y, m); }
    forall i | i in b[y].nodes ensures CountTrue(b, y, i) { SameCountTrue(b, x, y, i); }
  }

  lemma StepOfNamed(cfg: Config, c: Cluster, c': Cluster, i: Id, m: Msg)
    requires Named(cfg, c) && Delivers(cfg, c, c', i, m) && cfg.preVote && |cfg.voters| >= 2
    ensures Truly(c.nodes[i], m, Step(cfg, c.nodes[i], m).value)
  {
    hide Step, Truly, Named, Deliverable;
    if m.MsgPreVoteResp? {
      CameFromNet(c.net, i, m);
      PositiveTerm(cfg, c, m);
    }
    NamedPeers(cfg, c, i);
    StepIsTrue(cfg, c.nodes[i], m);
  }

  lemma CameFromNet(net: set<Msg>, i: Id, m: Msg)
    requires Deliverable(net, i, m) && (m.MsgPreVoteResp? || m.MsgPreVote?)
    ensures m in net && m.to == i
  {
  }

  lemma PositiveTerm(cfg: Config, c: Cluster, m: Msg)
    requires Named(cfg, c) && m in c.net && m.MsgPreVoteResp?
    ensures m.term > 0
  {
  }

  lemma NamedPeers(cfg: Config, c: Cluster, i: Id)
    requires Named(cfg, c) && i in c.nodes
    ensures |c.nodes[i].prs| == |cfg.voters| && c.nodes[i].prs.Keys == cfg.voters && c.nodes[i].id == i
  {
    EnoughPeers(cfg, c.nodes[i]);
  }

  lemma EnoughPeers(cfg: Config, n: Node)
    requires n.prs.Keys == cfg.voters
    ensures |n.prs| == |cfg.voters|
  {
    assert |n.prs| == |n.prs.Keys|;
  }

  lemma DeliveryTrue(cfg: Config, b: seq<Cluster>, x: nat, y: nat, i: Id, m: Msg)
    requires y == x + 1 < |b| && AllTrue(b, x) && Named(cfg, b[x]) && Delivers(cfg, b[x], b[y], i, m)
    requires cfg.preVote && |cfg.voters| >= 2
    ensures AllTrue(b, y)
  {
    hide Step, Truly, MsgTrue, CountTrue, Named, Deliverable;
    StepOfNamed(cfg, b[x], b[y], i, m);
    forall a | a in b[y].net ensures MsgTrue(b, y, a) {
      if a in b[x].net { MsgTrueLater(b, x, y, a); } else { NewMsgTrue(cfg, b, x, y, i, m, a); }
    }
    forall j | j in b[y].nodes ensures CountTrue(b, y, j) {
      if j == i { NewCountTrue(cfg, b, x, y, i, m); } else { SameCountTrue(b, x, y, j); }
    }
  }

  /** At some moment up to x node j had a log that was not ahead of the one node i had when it asked,
      in its present term or the one before. */
  ghost predicate Vouches(b: seq<Cluster>, x: nat, i: Id, j: Id)
    requires x < |b| && i in b[x].nodes
  {
    exists z, y :: VouchesAt(b, x, z, y, i, j)
  }

  ghost predicate VouchesAt(b: seq<Cluster>, x: nat, z: int, y: int, i: Id, j: Id)
    requires x < |b| && i in b[x].nodes
  {
    && 0 <= z <= y <= x && i in b[z].nodes && j in b[y].nodes
    && b[x].nodes[i].term <= b[z].nodes[i].term + 1 && NotBehind(b[z].nodes[i].log, b[y].nodes[j].log)
  }

  lemma BackedVouches(b: seq<Cluster>, x: nat, i: Id, j: Id)
    requires x < |b| && i in b[x].nodes && GrantBacked(b, x, j, i, b[x].nodes[i].term)
    ensures Vouches(b, x, i, j)
  {
    var T: nat :| T >= b[x].nodes[i].term && Backed(b, x, j, i, T);
    var y, index, logTerm :| 0 <= y <= x && BackedAt(b, y, j, i, T, index, logTerm);
    var z :| 0 <= z <= y && StoodAt(b[z], i, T, index, logTerm);
    assert VouchesAt(b, x, z, y, i, j);
  }

  /** The majority behind a candidate: with pre-vote no node stands, unless its leader tells it to, without
      a majority of voters each of which had a log that was not ahead when it was asked. */
  lemma StandsWithMajority(cfg: Config, boot: seq<Entry>, b: seq<Cluster>, x: nat, i: Id)
    requires Run(cfg, boot, b) && x + 1 < |b| && cfg.preVote && |cfg.voters| >= 2
    requires i in b[x].nodes && i in b[x + 1].nodes
    requires b[x].nodes[i].role == PreCandidate && b[x + 1].nodes[i].role == Candidate
    ensures || (exists m: Msg :: m.MsgTimeoutNow? && Delivers(cfg, b[x], b[x + 1], i, m))
            || (exists q :: Quorum(cfg.voters, q) && forall j | j in q :: j == i || Vouches(b, x, i, j))
  {
    hide Run, AllTrue, Delivers, Truly, Vouches, Named, Step;
    RunTrue(cfg, boot, b, x);
    RunNamed(cfg, boot, b, x);
    var m := StandingStep(cfg, boot, b, x, i);
    if !m.MsgTimeoutNow? {
      StepOfNamed(cfg, b[x], b[x + 1], i, m);
      SameVoters(cfg, boot, b, x);
      MajorityOf(cfg, b, x, i, m);
    }
  }

  lemma SameVoters(cfg: Config, boot: seq<Entry>, b: seq<Cluster>, x: nat)
    requires Run(cfg, boot, b) && x < |b|
    ensures forall y | 0 <= y <= x :: b[y].nodes.Keys == cfg.voters
  {
    hide Run;
    forall y | 0 <= y <= x ensures b[y].nodes.Keys == cfg.voters { RunNamed(cfg, boot, b, y); }
  }

  lemma StandingStep(cfg: Config, boot: seq<Entry>, b: seq<Cluster>, x: nat, i: Id) returns (m: Msg)
    requires Run(cfg, boot, b) && x + 1 < |b| && i in b[x].nodes && i in b[x + 1].nodes
    requires b[x].nodes[i].role == PreCandidate && b[x + 1].nodes[i].role == Candidate
    ensures Delivers(cfg, b[x], b[x + 1], i, m)
  {
    hide Init, Step;
    assert Next(cfg, b[x], b[x + 1]);
    var c, c' := b[x], b[x + 1];
    var j, m' :| Delivers(cfg, c, c', j, m');
    m := m';
  }

  lemma VoterVouches(cfg: Config, b: seq<Cluster>, x: nat, i: Id, j: Id)
    requires x < |b| && i in b[x].nodes && Vouches(b, x, i, j) && forall y | 0 <= y <= x :: b[y].nodes.Keys == cfg.voters
    ensures j in cfg.voters
  {
    var z, y :| VouchesAt(b, x, z, y, i, j);
    assert j in b[y].nodes.Keys;
  }

  lemma MajorityOf(cfg: Config, b: seq<Cluster>, x: nat, i: Id, m: Msg)
    requires x + 1 < |b| && AllTrue(b, x) && Named(cfg, b[x]) && Delivers(cfg, b[x], b[x + 1], i, m) && !m.MsgTimeoutNow?
    requires Truly(b[x].nodes[i], m, Step(cfg, b[x].nodes[i], m).value)
    requires b[x].nodes[i].role == PreCandidate && b[x + 1].nodes[i].role == Candidate
    requires forall y | 0 <= y <= x :: b[y].nodes.Keys == cfg.voters
    ensures exists q :: Quorum(cfg.voters, q) && forall j | j in q :: j == i || Vouches(b, x, i, j)
  {
    hide Step, AsksTruly, AnswersTruly, CountsTruly, GrantBacked, Vouches, Named, Deliverable, AllTrue, Backers;
    var n := b[x].nodes[i];
    assert StandsTruly(n, m, b[x + 1].nodes[i]);
    var q :| q <= Backers(n, m) && |q| == |n.prs| / 2 + 1;
    forall j | j in q ensures j in cfg.voters && (j == i || Vouches(b, x, i, j)) {
      if j != i { BackerVouches(cfg, b, x, i, m, j); } else { assert i in b[x].nodes.Keys; }
    }
    NamedPeers(cfg, b[x], i);
    assert Quorum(cfg.voters, q);
  }

  lemma BackerVouches(cfg: Config, b: seq<Cluster>, x: nat, i: Id, m: Msg, j: Id)
    requires x < |b| && AllTrue(b, x) && i in b[x].nodes && Deliverable(b[x].net, i, m)
    requires b[x].nodes[i].role == PreCandidate && j in Backers(b[x].nodes[i], m) && j != i
    requires forall y | 0 <= y <= x :: b[y].nodes.Keys == cfg.voters
    ensures j in cfg.voters && Vouches(b, x, i, j)
  {
    hide Backed, Vouches;
    assert CountTrue(b, x, i);
    if j !in Yes(b[x].nodes[i].votes) {
      CameFromNet(b[x].net, i, m);
      assert MsgTrue(b, x, m);
    }
    assert GrantBacked(b, x, j, i, b[x].nodes[i].term);
    BackedVouches(b, x, i, j);
    VoterVouches(cfg, b, x, i, j);
  }
}
