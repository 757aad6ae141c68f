/** A request on a free project gets the project, runs to its end and lets go of it; one on a
    busy project changes nothing: internal/api/project_oplock.go. */
module ProjectProgress {
  import opened Options
  import opened ProjectSteps
  import opened ProjectProtocol

  lemma {:induction false} RunConcat(s: State, events: seq<Event>, more: seq<Event>)
    ensures Run(s, events + more) == Run(Run(s, events), more)
  {
    hide Step;
    if more == [] {
      assert events + more == events;
    } else {
      var n := |more| - 1;
      RunConcat(s, events, more[..n]);
      assert (events + more)[..|events + more| - 1] == events + more[..n];
    }
  }

  lemma RunOne(s: State, e: Event)
    ensures Run(s, [e]) == Step(s, e)
  {
    hide Step;
    assert [e][..0] == [];
  }

  function Moves(t: int, n: nat): seq<Event> {
    if n == 0 then [] else [Move(t)] + Moves(t, n - 1)
  }

  /** The state in which thread `t` is at `pc`, its disk is `d`, and it made `n` more steps. */
  function MovedTo(s: State, t: int, pc: Pc, d: Disk, n: nat): State
    requires t in s.threads
  {
    var th := s.threads[t];
    s.(disks := s.disks[th.project := d], threads := s.threads[t := th.(pc := pc, steps := th.steps + n)])
  }

  lemma OneMove(s: State, t: int)
    requires t in s.threads && s.threads[t].project in s.disks && !s.threads[t].pc.Finished?
    ensures var th := s.threads[t];
            var (pc, d) := Next(th.req, th.pc, s.disks[th.project]);
            && Step(s, Move(t)) == MovedTo(s, t, pc, d, 1) && Rank(pc) < Rank(th.pc)
            && |Course(th.req, th.pc, s.disks[th.project])| == |Course(th.req, pc, d)| + 1
            && Rest(th.req, th.pc, s.disks[th.project]) == Rest(th.req, pc, d)
  {
    hide Next;
  }

  lemma NoMove(s: State, t: int)
    requires t in s.threads && s.threads[t].project in s.disks && s.threads[t].pc.Finished?
    ensures s == MovedTo(s, t, s.threads[t].pc, s.disks[s.threads[t].project], 0)
  {
    hide Next;
    var th := s.threads[t];
    assert s.disks[th.project := s.disks[th.project]] == s.disks && s.threads[t := th] == s.threads;
  }

  lemma MovedTwice(s: State, t: int, pc: Pc, d: Disk, pc': Pc, d': Disk, n: nat)
    requires t in s.threads
    ensures MovedTo(MovedTo(s, t, pc, d, 1), t, pc', d', n) == MovedTo(s, t, pc', d', n + 1)
  {
    var p := s.threads[t].project;
    assert s.disks[p := d][p := d'] == s.disks[p := d'];
  }

  lemma MovesMore(s: State, t: int, n: nat)
    ensures Run(s, Moves(t, n + 1)) == Run(Step(s, Move(t)), Moves(t, n))
    ensures Run(s, Moves(t, 0)) == s
  {
    hide Step;
    RunOne(s, Move(t));
    RunConcat(s, [Move(t)], Moves(t, n));
  }

  /** As many moves as the request has moments left bring it to its end. */
  lemma {:induction false} MovesFinish(s: State, t: int)
    requires t in s.threads && s.threads[t].project in s.disks
    ensures var th := s.threads[t];
            var n := |Course(th.req, th.pc, s.disks[th.project])|;
            var (pc, d) := Rest(th.req, th.pc, s.disks[th.project]);
            Run(s, Moves(t, n)) == MovedTo(s, t, pc, d, n)
    decreases Rank(s.threads[t].pc)
  {
    hide Next, Run, Step, Moves, Rank, Course, Rest;
    var th := s.threads[t];
    if th.pc.Finished? {
      NoMove(s, t);
      MovesMore(s, t, 0);
      RestOfFinished(th.req, th.pc, s.disks[th.project]);
    } else {
      OneMove(s, t);
      var s' := Step(s, Move(t));
      var (pc', d') := Next(th.req, th.pc, s.disks[th.project]);
      MovesFinish(s', t);
      var n := |Course(th.req, pc', d')|;
      var (pc, d) := Rest(th.req, pc', d');
      MovesMore(s, t, n);
      MovedTwice(s, t, pc', d', pc, d, n);
    }
  }

  /** A request starts exactly when its thread is new and nobody holds its project; what it
      meets otherwise is a refusal that changes nothing. */
  lemma StartsIffFree(s: State, t: int, p: int, what: string, req: Request)
    requires t !in s.used && p in s.disks
    ensures var s' := Step(s, Start(t, p, what, req));
            && s'.disks == s.disks && s'.replies == s.replies
            && (if p in s.ops && s.ops[p].held then
                  s'.ops == s.ops && s'.threads == s.threads && s'.claims == s.claims
                else
                  && s'.ops == s.ops[p := Op(true, what)] && s'.claims == s.claims + [Claim(p, req)]
                  && s'.threads == s.threads[t := Thread(p, req, Begin, |s.claims|, 0)])
  {
  }

  /** Left alone, a request on a free project leaves the disk as its steps do, has its answer
      recorded for its claim, and frees the project again. */
  lemma FreeProjectServes(s: State, t: int, p: int, what: string, req: Request)
    requires t !in s.used && t !in s.threads && p in s.disks && !Held(s.ops, p)
    ensures var n := |Course(req, Begin, s.disks[p])|;
            var s' := Run(s, [Start(t, p, what, req)] + Moves(t, n) + [Leave(t)]);
            && s'.disks == s.disks[p := DiskAfter(req, s.disks[p])]
            && s'.claims == s.claims + [Claim(p, req)] && s'.threads == s.threads
            && s'.replies == s.replies[|s.claims| := ReplyTo(req, s.disks[p])]
            && !Held(s'.ops, p) && forall q :: q != p ==> (Held(s'.ops, q) <==> Held(s.ops, q))
  {
    hide Run, Rest, Course, Moves, Next;
    var start, n := Start(t, p, what, req), |Course(req, Begin, s.disks[p])|;
    RunOne(s, start);
    var s1 := Step(s, start);
    MovesFinish(s1, t);
    var s2 := Run(s1, Moves(t, n));
    RunOne(s2, Leave(t));
    RunConcat(s, [start], Moves(t, n));
    RunConcat(s, [start] + Moves(t, n), [Leave(t)]);
    assert s2.threads - {t} == s.threads;
  }
}
