/** One operation at a time per project: internal/api/project_oplock.go, and the handlers
    that claim a project before they touch its files. Requests on all projects run
    concurrently, one disk step at a time. */
module ProjectProtocol {
  import opened Options
  import opened PathJail
  import opened ProjectFolder
  import opened ProjectSteps
  import opened RestoreSafety

  datatype Op = Op(held: bool, what: string)

  type Ops = map<int, Op>

  predicate Held(ops: Ops, project: int) {
    project in ops && ops[project].held
  }

  function Claimed(ops: Ops, project: int, what: string): Ops {
    if Held(ops, project) then ops else ops[project := Op(true, what)]
  }

  function Released(ops: Ops, project: int): Ops {
    ops[project := Op(false, "")]
  }

  class ProjectOps {
    var ops: Ops

    constructor ()
      ensures ops == map[]
    {
      ops := map[];
    }

    /** Claims the project, or says what is running on it. */
    method BeginProjectOp(project: int, what: string) returns (ok: bool, busy: string)
      modifies this`ops
      ensures ok == !Held(old(ops), project)
      ensures !ok ==> busy == old(ops)[project].what
      ensures ops == Claimed(old(ops), project, what)
    {
      if project !in ops {
        ops := ops[project := Op(false, "")];
      }
      var op := ops[project];
      if op.held {
        return false, op.what;
      }
      ops := ops[project := Op(true, what)];
      return true, "";
    }

    method Release(project: int)
      modifies this`ops
      ensures ops == Released(old(ops), project) && !Held(ops, project)
    {
      ops := ops[project := Op(false, "")];
    }
  }

  // ----- concurrent runs -----

  /** A request that holds its project: which claim it is, and how many steps it made. */
  datatype Thread = Thread(project: int, req: Request, pc: Pc, claim: nat, steps: nat)

  datatype Claim = Claim(project: int, req: Request)

  datatype State = State(disks: map<int, Disk>, ops: Ops, threads: map<int, Thread>, used: set<int>,
                         claims: seq<Claim>, replies: map<int, Reply>)

  datatype Event =
    | Start(thread: int, project: int, what: string, req: Request)
    | Move(thread: int)
    | Leave(thread: int)

  function Step(s: State, e: Event): State {
    match e
    case Start(t, p, what, req) =>
      if t in s.used || p !in s.disks then s
      else if Held(s.ops, p) then s.(used := s.used + {t}) // answered 409
      else s.(used := s.used + {t}, ops := Claimed(s.ops, p, what),
              threads := s.threads[t := Thread(p, req, Begin, |s.claims|, 0)],
              claims := s.claims + [Claim(p, req)])
    case Move(t) =>
      if t !in s.threads || s.threads[t].pc.Finished? || s.threads[t].project !in s.disks then s
      else
        var th := s.threads[t];
        var (pc, d) := Next(th.req, th.pc, s.disks[th.project]);
        s.(disks := s.disks[th.project := d], threads := s.threads[t := th.(pc := pc, steps := th.steps + 1)])
    case Leave(t) =>
      if t !in s.threads || !s.threads[t].pc.Finished? then s
      else
        var th := s.threads[t];
        s.(ops := Released(s.ops, th.project), threads := s.threads - {t},
          replies := s.replies[th.claim := th.pc.reply])
  }

  function Run(s: State, events: seq<Event>): State {
    if events == [] then s else Step(Run(s, events[..|events| - 1]), events[|events| - 1])
  }

  ghost predicate Init(s: State) {
    s.ops == map[] && s.threads == map[] && s.claims == [] && s.replies == map[]
  }

  // ----- the serial reference -----

  /** The disk of project `p` after the claims made on it have run one after another. */
  function Serial(d: Disk, claims: seq<Claim>, p: int): Disk {
    if claims == [] then d
    else
      var before := Serial(d, claims[..|claims| - 1], p);
      var last := claims[|claims| - 1];
      if last.project == p then DiskAfter(last.req, before) else before
  }

  function SerialReply(d: Disk, claims: seq<Claim>, i: nat): Reply
    requires i < |claims|
  {
    ReplyTo(claims[i].req, Serial(d, claims[..i], claims[i].project))
  }

  function Iter(req: Request, d: Disk, n: nat): (Pc, Disk) {
    if n == 0 then (Begin, d)
    else
      var (pc, d') := Iter(req, d, n - 1);
      Next(req, pc, d')
  }

  lemma {:induction false} IterLeadsToRest(req: Request, d: Disk, n: nat)
    ensures var (pc, d') := Iter(req, d, n); Rest(req, pc, d') == Rest(req, Begin, d)
  {
    hide Next;
    if n > 0 {
      IterLeadsToRest(req, d, n - 1);
      var (pc, d') := Iter(req, d, n - 1);
      if pc.Finished? { NextStays(req, pc, d'); }
    }
  }

  lemma NextStays(req: Request, pc: Pc, d: Disk)
    requires pc.Finished?
    ensures Next(req, pc, d) == (pc, d)
  {
  }

  // ----- what every run keeps -----

  predicate On(threads: map<int, Thread>, p: int) {
    exists t :: t in threads && threads[t].project == p
  }

  ghost predicate Locks(threads: map<int, Thread>, ops: Ops, used: set<int>, disks: map<int, Disk>) {
    && (forall t :: t in threads ==> t in used && Held(ops, threads[t].project) && threads[t].project in disks)
    && (forall t, u :: t in threads && u in threads && t != u ==> threads[t].project != threads[u].project)
  }

  /** A thread made the last claim on its project, and its project's disk is the one its
      request gets to by itself from where the claims before it left off. */
  ghost predicate ThreadOk(d0: map<int, Disk>, claims: seq<Claim>, th: Thread, d: Disk) {
    && th.claim < |claims| && claims[th.claim] == Claim(th.project, th.req)
    && th.project in d0
    && (th.pc, d) == Iter(th.req, Serial(d0[th.project], claims[..th.claim], th.project), th.steps)
    && Serial(d0[th.project], claims, th.project)
       == DiskAfter(th.req, Serial(d0[th.project], claims[..th.claim], th.project))
  }

  ghost predicate Threads(d0: map<int, Disk>, claims: seq<Claim>, threads: map<int, Thread>, disks: map<int, Disk>) {
    forall t :: t in threads && threads[t].project in disks ==>
      ThreadOk(d0, claims, threads[t], disks[threads[t].project])
  }

  ghost predicate Quiet(d0: map<int, Disk>, claims: seq<Claim>, threads: map<int, Thread>, disks: map<int, Disk>) {
    && disks.Keys == d0.Keys
    && forall p :: p in disks && !On(threads, p) ==> disks[p] == Serial(d0[p], claims, p)
  }

  ghost predicate Replies(d0: map<int, Disk>, claims: seq<Claim>, replies: map<int, Reply>) {
    forall i :: i in replies ==>
      0 <= i < |claims| && claims[i].project in d0 && replies[i] == SerialReply(d0[claims[i].project], claims, i)
  }

  ghost predicate Inv(d0: map<int, Disk>, s: State) {
    && Locks(s.threads, s.ops, s.used, s.disks)
    && Threads(d0, s.claims, s.threads, s.disks)
    && Quiet(d0, s.claims, s.threads, s.disks)
    && Replies(d0, s.claims, s.replies)
  }

  lemma SerialOfOthers(d: Disk, claims: seq<Claim>, c: Claim, p: int)
    ensures Serial(d, claims + [c], p) == if c.project == p then DiskAfter(c.req, Serial(d, claims, p))
            else Serial(d, claims, p)
  {
    assert (claims + [c])[..|claims|] == claims;
  }

  lemma OnMoves(before: map<int, Thread>, after: map<int, Thread>, p: int)
    requires forall u :: u in before && before[u].project == p ==> u in after && after[u].project == p
    ensures On(before, p) ==> On(after, p)
  {
    if On(before, p) {
      var u :| u in before && before[u].project == p;
      assert after[u].project == p;
    }
  }

  /** A claim on `p` changes what is expected of `p` alone. */
  lemma ThreadAfterClaim(d0: map<int, Disk>, claims: seq<Claim>, c: Claim, th: Thread, d: Disk)
    requires ThreadOk(d0, claims, th, d) && th.project != c.project
    ensures ThreadOk(d0, claims + [c], th, d)
  {
    hide Serial, Iter, DiskAfter;
    assert (claims + [c])[..th.claim] == claims[..th.claim];
    SerialOfOthers(d0[th.project], claims, c, th.project);
  }

  lemma NewThread(d0: map<int, Disk>, claims: seq<Claim>, p: int, req: Request, d: Disk)
    requires p in d0 && d == Serial(d0[p], claims, p)
    ensures ThreadOk(d0, claims + [Claim(p, req)], Thread(p, req, Begin, |claims|, 0), d)
  {
    hide Serial, DiskAfter;
    assert (claims + [Claim(p, req)])[..|claims|] == claims;
    SerialOfOthers(d0[p], claims, Claim(p, req), p);
  }

  lemma StartKeeps(d0: map<int, Disk>, s: State, t: int, p: int, what: string, req: Request)
    requires Inv(d0, s)
    ensures Inv(d0, Step(s, Start(t, p, what, req)))
  {
    hide Serial, ThreadOk, Replies, On;
    if t !in s.used && p in s.disks && !Held(s.ops, p) {
      var s' := Step(s, Start(t, p, what, req));
      var c := Claim(p, req);
      NobodyOn(s, p);
      ClaimsGrow(d0, s.claims, c, s.replies);
      NewThread(d0, s.claims, p, req, s.disks[p]);
      forall u | u in s'.threads && s'.threads[u].project in s'.disks
        ensures ThreadOk(d0, s'.claims, s'.threads[u], s'.disks[s'.threads[u].project])
      {
        if u != t { ThreadAfterClaim(d0, s.claims, c, s.threads[u], s.disks[s.threads[u].project]); }
      }
      forall q | q in s'.disks && !On(s'.threads, q) ensures s'.disks[q] == Serial(d0[q], s'.claims, q) {
        OnMoves(s.threads, s'.threads, q);
        HereIsOne(s'.threads, t);
        SerialOfOthers(d0[q], s.claims, c, q);
      }
    }
  }

  lemma HereIsOne(threads: map<int, Thread>, t: int)
    requires t in threads
    ensures On(threads, threads[t].project)
  {
  }

  lemma NobodyOn(s: State, p: int)
    requires Locks(s.threads, s.ops, s.used, s.disks) && !Held(s.ops, p)
    ensures !On(s.threads, p)
  {
  }

  lemma ClaimsGrow(d0: map<int, Disk>, claims: seq<Claim>, c: Claim, replies: map<int, Reply>)
    requires Replies(d0, claims, replies)
    ensures Replies(d0, claims + [c], replies)
  {
    hide ReplyTo, Serial;
    forall i | i in replies
      ensures 0 <= i < |claims + [c]| && (claims + [c])[i] == claims[i] && (claims + [c])[..i] == claims[..i] {
    }
  }

  lemma MoveKeeps(d0: map<int, Disk>, s: State, t: int)
    requires Inv(d0, s)
    ensures Inv(d0, Step(s, Move(t)))
  {
    hide Next, DiskAfter, Serial, Replies, On;
    if t in s.threads && !s.threads[t].pc.Finished? && s.threads[t].project in s.disks {
      var s' := Step(s, Move(t));
      forall u | u in s'.threads && s'.threads[u].project in s'.disks
        ensures ThreadOk(d0, s'.claims, s'.threads[u], s'.disks[s'.threads[u].project])
      {
        assert ThreadOk(d0, s.claims, s.threads[u], s.disks[s.threads[u].project]);
      }
      forall p | p in s'.disks && !On(s'.threads, p) ensures s'.disks[p] == Serial(d0[p], s'.claims, p) {
        OnMoves(s.threads, s'.threads, p);
        HereIsOne(s'.threads, t);
      }
    }
  }

  lemma LeaveKeeps(d0: map<int, Disk>, s: State, t: int)
    requires Inv(d0, s)
    ensures Inv(d0, Step(s, Leave(t)))
  {
    hide Next, Serial, Iter, Rest, On;
    if t in s.threads && s.threads[t].pc.Finished? {
      var s' := Step(s, Leave(t));
      var th := s.threads[t];
      assert ThreadOk(d0, s.claims, th, s.disks[th.project]);
      IterLeadsToRest(th.req, Serial(d0[th.project], s.claims[..th.claim], th.project), th.steps);
      RestOfFinished(th.req, th.pc, s.disks[th.project]);
      forall p | p in s'.disks && !On(s'.threads, p) ensures s'.disks[p] == Serial(d0[p], s'.claims, p) {
        if p != th.project { OnMoves(s.threads, s'.threads, p); }
      }
    }
  }

  lemma StepKeeps(d0: map<int, Disk>, s: State, e: Event)
    requires Inv(d0, s)
    ensures Inv(d0, Step(s, e))
  {
    hide Inv, Step;
    match e
    case Start(t, p, what, req) => StartKeeps(d0, s, t, p, what, req);
    case Move(t) => MoveKeeps(d0, s, t);
    case Leave(t) => LeaveKeeps(d0, s, t);
  }

  lemma InitInv(s: State)
    requires Init(s)
    ensures Inv(s.disks, s)
  {
  }

  lemma {:induction false} RunInv(s: State, events: seq<Event>)
    requires Init(s)
    ensures Inv(s.disks, Run(s, events))
  {
    hide Inv, Step, Init;
    if events == [] {
      InitInv(s);
    } else {
      RunInv(s, events[..|events| - 1]);
      StepKeeps(s.disks, Run(s, events[..|events| - 1]), events[|events| - 1]);
    }
  }

  // ----- the main results -----

  /** However the steps of all requests interleave, a project nobody holds is exactly what
      running its successful claims one after another, in claim order, makes of it, and
      every answer given is the one that serial run gives. */
  lemma OperationsSerialise(s: State, events: seq<Event>)
    requires Init(s)
    ensures var s' := Run(s, events);
            && (forall p :: p in s.disks && !Held(s'.ops, p) ==>
                  p in s'.disks && s'.disks[p] == Serial(s.disks[p], s'.claims, p))
            && (forall i :: i in s'.replies ==>
                  0 <= i < |s'.claims| && s'.claims[i].project in s.disks &&
                  s'.replies[i] == SerialReply(s.disks[s'.claims[i].project], s'.claims, i))
  {
    hide Step, Serial, SerialReply, ThreadOk;
    RunInv(s, events);
    var s' := Run(s, events);
    forall p | p in s.disks && !Held(s'.ops, p)
      ensures p in s'.disks && s'.disks[p] == Serial(s.disks[p], s'.claims, p) {
      NobodyOn(s', p);
    }
  }

  /** No two requests hold a project at once, and what the one holder sees, at any moment,
      is a moment of its own request started from the serial outcome of the claims before. */
  lemma OneHolderAtATime(s: State, events: seq<Event>, t: int)
    requires Init(s) && t in Run(s, events).threads
    ensures var s' := Run(s, events);
            var th := s'.threads[t];
            && (forall u :: u in s'.threads && u != t ==> s'.threads[u].project != th.project)
            && Held(s'.ops, th.project) && th.project in s'.disks && th.project in s.disks && th.claim < |s'.claims|
            && (th.pc, s'.disks[th.project])
               == Iter(th.req, Serial(s.disks[th.project], s'.claims[..th.claim], th.project), th.steps)
  {
    hide Step, Serial, Iter, Replies;
    RunInv(s, events);
    var th := Run(s, events).threads[t];
    assert ThreadOk(s.disks, Run(s, events).claims, th, Run(s, events).disks[th.project]);
  }
}
