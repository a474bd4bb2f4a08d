/**
 A validation as a forest of calls with steps between them, and what the tracer's records of it say about
 the call of the paymaster.
 */
module CallForests {
  import opened Basics
  import opened Tracer
  import opened CallStack
  import opened ValidationRules

  /** A step, or a call with all that happens inside it. */
  datatype Piece =
    | StepOf(log: Log)
    | CallOf(kind: string, source: string, target: string, input: string, gas: string, inside: seq<Piece>,
             failed: bool, gasUsed: string, output: string)

  /** A call begins, and after what happens inside it, it ends. */
  ghost function Around(c: Piece, inner: seq<Happening>): seq<Happening>
    requires c.CallOf?
  {
    [Entered(c.kind, c.source, c.target, c.input, c.gas)] + inner + [Exited(c.failed, c.gasUsed, c.output)]
  }

  /** What the node tells the tracer, in order. */
  ghost function Happenings(ps: seq<Piece>): seq<Happening> {
    if ps == [] then []
    else
      (if ps[0].StepOf? then [Stepped(ps[0].log)] else Around(ps[0], Happenings(ps[0].inside))) + Happenings(ps[1..])
  }

  ghost function StepsIn(ps: seq<Piece>): Trace {
    if ps == [] then [] else (if ps[0].StepOf? then [ps[0].log] else StepsIn(ps[0].inside)) + StepsIn(ps[1..])
  }

  /** The calls, each after the calls it makes. */
  ghost function CallsIn(ps: seq<Piece>): seq<Piece> {
    if ps == [] then [] else (if ps[0].StepOf? then [] else CallsIn(ps[0].inside) + [ps[0]]) + CallsIn(ps[1..])
  }

  ghost predicate Ends(log: Log) { log.depth == 1 && (log.op == "RETURN" || log.op == "REVERT") }

  /** No step ends the top-level call, and calls are of a kind of their own. */
  ghost predicate Goes(ps: seq<Piece>) {
    ps != [] ==>
      && (if ps[0].StepOf? then !Ends(ps[0].log)
          else ps[0].kind != "RETURN" && ps[0].kind != "REVERT" && Goes(ps[0].inside))
      && Goes(ps[1..])
  }

  /** What happens is the forest and then the end of the top-level call. */
  ghost predicate IsValidation(hs: seq<Happening>, ps: seq<Piece>, end: Log) {
    hs == Happenings(ps) + [Stepped(end)] && Goes(ps) && Ends(end)
  }

  // The paymaster's call

  /** A call, not a CREATE, of the paymaster's validation method. */
  ghost predicate AsksPaymaster(c: Piece, paymaster: string) {
    c.CallOf? && c.kind != "CREATE" && c.target == paymaster && "0xf465c77e" <= c.input
  }

  ghost predicate IsLastAsked(calls: seq<Piece>, i: int, paymaster: string) {
    && 0 <= i < |calls| && AsksPaymaster(calls[i], paymaster)
    && forall j :: i < j < |calls| ==> !AsksPaymaster(calls[j], paymaster)
  }

  /** The last call to end among those of the paymaster's validation method returns at most 194 characters,
      or the paymaster is staked. */
  ghost predicate ObeysContextRule(q: Request, ps: seq<Piece>) {
    q.paymaster.Some? ==>
      exists i :: IsLastAsked(CallsIn(ps), i, q.paymaster.value)
                  && (|CallsIn(ps)[i].output| <= 194
                      || (q.paymasterStake.stake > 1 && q.paymasterStake.unstakeDelaySec > 1))
  }

  ghost predicate NeverAsked(q: Request, ps: seq<Piece>) {
    q.paymaster.Some? && forall i :: 0 <= i < |CallsIn(ps)| ==> !AsksPaymaster(CallsIn(ps)[i], q.paymaster.value)
  }

  // What the tracer makes of it

  lemma {:induction false} TraceConcat(a: seq<Happening>, b: seq<Happening>)
    ensures TraceOf(a + b) == TraceOf(a) + TraceOf(b)
  {
    if b == [] {
      assert a + b == a;
    } else {
      var (front, last) := (b[..|b| - 1], b[|b| - 1]);
      TraceConcat(a, front);
      assert a + b == (a + front) + [last];
      OneMore(a + front, last);
      Associates(TraceOf(a), TraceOf(front), if last.Stepped? then [last.log] else []);
    }
  }

  lemma OneHappening(h: Happening)
    ensures RecordsOf([h]) == Recorded(h)
    ensures TraceOf([h]) == if h.Stepped? then [h.log] else []
  {
    assert [] + [h] == [h];
    OneMore([], h);
  }

  /** What the call of a piece and its end are recorded as. */
  ghost function EnterOf(c: Piece): Record
    requires c.CallOf?
  {
    Recorded(Entered(c.kind, c.source, c.target, c.input, c.gas))[0]
  }

  ghost function ExitOf(c: Piece): Record
    requires c.CallOf?
  {
    Recorded(Exited(c.failed, c.gasUsed, c.output))[0]
  }

  ghost function FrameOf(c: Piece, children: seq<Frame>): Frame
    requires c.CallOf?
  {
    Frame(EnterOf(c), children, ExitOf(c))
  }

  ghost function FramesOf(ps: seq<Piece>): seq<Frame> {
    if ps == [] then []
    else (if ps[0].StepOf? then [] else [FrameOf(ps[0], FramesOf(ps[0].inside))]) + FramesOf(ps[1..])
  }

  lemma AroundRecords(c: Piece, inner: seq<Happening>)
    requires c.CallOf?
    ensures RecordsOf(Around(c, inner)) == [EnterOf(c)] + RecordsOf(inner) + [ExitOf(c)]
  {
    var (enter, exit) := (Entered(c.kind, c.source, c.target, c.input, c.gas), Exited(c.failed, c.gasUsed, c.output));
    OneHappening(enter);
    OneHappening(exit);
    CollectConcat(Recorded, [enter], inner);
    CollectConcat(Recorded, [enter] + inner, [exit]);
  }

  lemma AroundTrace(c: Piece, inner: seq<Happening>)
    requires c.CallOf?
    ensures TraceOf(Around(c, inner)) == TraceOf(inner)
  {
    var (enter, exit) := (Entered(c.kind, c.source, c.target, c.input, c.gas), Exited(c.failed, c.gasUsed, c.output));
    OneHappening(enter);
    OneHappening(exit);
    TraceConcat([enter], inner);
    TraceConcat([enter] + inner, [exit]);
  }

  lemma FirstFrame(f: Frame, fs: seq<Frame>)
    ensures Records([f] + fs) == [f.enter] + Records(f.children) + [f.exit] + Records(fs)
    ensures Frames([f] + fs) == Frames(f.children) + [f] + Frames(fs)
    ensures WellNested([f] + fs) <==>
              !f.enter.Exits() && f.exit.Exits() && WellNested(f.children) && WellNested(fs)
  {
    assert ([f] + fs)[1..] == fs;
  }

  lemma QuietStep(log: Log)
    requires !Ends(log)
    ensures RecordsOf([Stepped(log)]) == []
  {
    OneHappening(Stepped(log));
  }

  lemma CallRecords(c: Piece, children: seq<Frame>, fs: seq<Frame>, inner: seq<Happening>, rest: seq<Happening>)
    requires c.CallOf? && RecordsOf(inner) == Records(children) && RecordsOf(rest) == Records(fs)
    ensures RecordsOf(Around(c, inner) + rest) == Records([FrameOf(c, children)] + fs)
  {
    AroundRecords(c, inner);
    CollectConcat(Recorded, Around(c, inner), rest);
    FirstFrame(FrameOf(c, children), fs);
  }

  /** The records of a forest are those of its frames. */
  lemma {:induction false} ForestRecords(ps: seq<Piece>)
    requires Goes(ps)
    ensures RecordsOf(Happenings(ps)) == Records(FramesOf(ps))
    decreases ps
  {
    if ps != [] {
      var (p, rest) := (ps[0], ps[1..]);
      ForestRecords(rest);
      if p.StepOf? {
        QuietStep(p.log);
        CollectConcat(Recorded, [Stepped(p.log)], Happenings(rest));
        assert [] + RecordsOf(Happenings(rest)) == RecordsOf(Happenings(rest));
        assert [] + FramesOf(rest) == FramesOf(rest);
      } else {
        ForestRecords(p.inside);
        CallRecords(p, FramesOf(p.inside), FramesOf(rest), Happenings(p.inside), Happenings(rest));
      }
    }
  }

  lemma CallNests(c: Piece)
    requires c.CallOf? && c.kind != "RETURN" && c.kind != "REVERT"
    ensures !EnterOf(c).Exits() && ExitOf(c).Exits()
  {
  }

  lemma {:induction false} ForestNested(ps: seq<Piece>)
    requires Goes(ps)
    ensures WellNested(FramesOf(ps))
    decreases ps
  {
    if ps != [] {
      var (p, rest) := (ps[0], ps[1..]);
      ForestNested(rest);
      if p.StepOf? {
        assert [] + FramesOf(rest) == FramesOf(rest);
      } else {
        ForestNested(p.inside);
        CallNests(p);
        FirstFrame(FrameOf(p, FramesOf(p.inside)), FramesOf(rest));
      }
    }
  }

  /** Its steps are the steps among what happens. */
  lemma {:induction false} ForestSteps(ps: seq<Piece>)
    ensures TraceOf(Happenings(ps)) == StepsIn(ps)
    decreases ps
  {
    if ps != [] {
      var (p, rest) := (ps[0], ps[1..]);
      ForestSteps(rest);
      if p.StepOf? {
        OneHappening(Stepped(p.log));
        TraceConcat([Stepped(p.log)], Happenings(rest));
      } else {
        ForestSteps(p.inside);
        AroundTrace(p, Happenings(p.inside));
        TraceConcat(Around(p, Happenings(p.inside)), Happenings(rest));
      }
    }
  }

  /** Each frame is the call's at its place. */
  ghost predicate AreFramesOf(frames: seq<Frame>, calls: seq<Piece>) {
    |frames| == |calls| && forall i :: 0 <= i < |calls| ==> IsFrameOf(frames[i], calls[i])
  }

  ghost predicate IsFrameOf(f: Frame, c: Piece) { c.CallOf? && f.enter == EnterOf(c) && f.exit == ExitOf(c) }

  lemma AreFramesConcat(a: seq<Frame>, c: seq<Piece>, b: seq<Frame>, d: seq<Piece>)
    requires AreFramesOf(a, c) && AreFramesOf(b, d)
    ensures AreFramesOf(a + b, c + d)
  {
  }

  lemma {:induction false} FramesAreCalls(ps: seq<Piece>)
    ensures AreFramesOf(Frames(FramesOf(ps)), CallsIn(ps))
    decreases ps
  {
    if ps != [] {
      var (p, rest) := (ps[0], ps[1..]);
      FramesAreCalls(rest);
      if p.StepOf? {
        assert [] + FramesOf(rest) == FramesOf(rest) && [] + CallsIn(rest) == CallsIn(rest);
      } else {
        var f := FrameOf(p, FramesOf(p.inside));
        FramesAreCalls(p.inside);
        FirstFrame(f, FramesOf(rest));
        AreFramesConcat(Frames(FramesOf(p.inside)), CallsIn(p.inside), [f], [p]);
        AreFramesConcat(Frames(FramesOf(p.inside)) + [f], CallsIn(p.inside) + [p],
                        Frames(FramesOf(rest)), CallsIn(rest));
      }
    }
  }

  /** The records show of a call what matters: whom it called, with which selector, and how long its answer was
      up to a thousand characters. */
  lemma CallShows(c: Piece, f: Frame, paymaster: string)
    requires IsFrameOf(f, c)
    ensures CallsPaymaster(f, paymaster) <==> AsksPaymaster(c, paymaster)
    ensures |f.exit.data| > 194 <==> |c.output| > 194
  {
    assert |VALIDATE_PAYMASTER_USER_OP| == 10;
  }

  lemma LastIsLast(frames: seq<Frame>, calls: seq<Piece>, paymaster: string)
    requires AreFramesOf(frames, calls)
    ensures forall i :: IsLastCall(frames, i, paymaster) <==> IsLastAsked(calls, i, paymaster)
    ensures forall i :: 0 <= i < |calls| ==>
                          && (CallsPaymaster(frames[i], paymaster) <==> AsksPaymaster(calls[i], paymaster))
                          && (|frames[i].exit.data| > 194 <==> |calls[i].output| > 194)
  {
    forall i | 0 <= i < |calls|
      ensures CallsPaymaster(frames[i], paymaster) <==> AsksPaymaster(calls[i], paymaster)
      ensures |frames[i].exit.data| > 194 <==> |calls[i].output| > 194
    {
      CallShows(calls[i], frames[i], paymaster);
    }
  }

  lemma NoneAsked(frames: seq<Frame>, calls: seq<Piece>, paymaster: string)
    requires AreFramesOf(frames, calls)
    ensures (forall f :: f in frames ==> !CallsPaymaster(f, paymaster)) <==>
              forall i :: 0 <= i < |calls| ==> !AsksPaymaster(calls[i], paymaster)
  {
    LastIsLast(frames, calls, paymaster);
    assert forall i :: 0 <= i < |calls| ==> frames[i] in frames;
  }
}
