/** A view's submitted frames, until the shell reports them (src/timing.rs, Taken, Frame and Frames).

    Barriers and feedback callbacks are objects the clients own: here they are identities, and what the server
    calls on them is recorded in the order of the calls. */
module FrameQueues {
  import opened Basics

  type Barrier = nat
  type Callback = nat
  /** A layer and the content generation of it a frame shows. */
  type Content = (nat, nat)

  const MAX_IN_FLIGHT: nat := 16
  const STALE_NS: nat := 250_000_000

  datatype Feedback = Feedback(content: Content, callback: Callback)

  datatype Taken = Taken(feedback: seq<Feedback>, barriers: seq<Barrier>)

  datatype Report = Report(seqNo: nat, ustNs: U64, refreshNs: U32, msc: nat, flags: nat)

  /** What a presented event carries: the refresh is unknown when reported as 0, and only the four flags of
      wp_presentation_feedback are kept. */
  datatype Timing = Timing(ustNs: nat, refresh: Option<nat>, msc: nat, flags: nat)

  datatype Answer = Presented(callback: Callback, timing: Timing) | Discarded(callback: Callback)

  datatype Frame = Frame(seqNo: nat, submittedNs: nat, shown: seq<Content>, feedback: seq<Feedback>,
                         barriers: seq<Barrier>, flushed: bool)
  {
    predicate Shows(content: Content) { content in shown }

    /** Something of it is still to be released: a barrier, or on screen its frame callbacks. */
    predicate Pending(onScreen: bool) { barriers != [] || (onScreen && !flushed) }
  }

  function TimingOf(r: Report): Timing {
    Timing(r.ustNs, if r.refreshNs == 0 then None else Some(r.refreshNs), r.msc, r.flags % 16)
  }

  // ----- what the operations compute -----

  function BarriersOf(fs: seq<Frame>): seq<Barrier> {
    if fs == [] then [] else fs[0].barriers + BarriersOf(fs[1..])
  }

  function FeedbackOf(fs: seq<Frame>): seq<Feedback> {
    if fs == [] then [] else fs[0].feedback + FeedbackOf(fs[1..])
  }

  function Select(feedback: seq<Feedback>, shown: seq<Content>, keep: bool): seq<Feedback> {
    if feedback == [] then []
    else (if (feedback[0].content in shown) == keep then [feedback[0]] else []) + Select(feedback[1..], shown, keep)
  }

  function Discards(feedback: seq<Feedback>): seq<Answer> {
    seq(|feedback|, i requires 0 <= i < |feedback| => Discarded(feedback[i].callback))
  }

  function Answers(feedback: seq<Feedback>, shown: seq<Content>, timing: Timing): seq<Answer> {
    seq(|feedback|, i requires 0 <= i < |feedback| =>
      if feedback[i].content in shown then Presented(feedback[i].callback, timing) else Discarded(feedback[i].callback))
  }

  function Entering(seqNo: nat, now: nat, shown: seq<Content>, taken: Taken): Frame {
    Frame(seqNo, now, shown, Select(taken.feedback, shown, true), taken.barriers, false)
  }

  function Excess(n: nat): nat { if n > MAX_IN_FLIGHT then n - MAX_IN_FLIGHT else 0 }

  /** How many frames leave on a report of s. */
  function Replaced(fs: seq<Frame>, s: nat): (n: nat)
    ensures n <= |fs|
  {
    if fs != [] && fs[0].seqNo <= s then 1 + Replaced(fs[1..], s) else 0
  }

  /** What frame s shows, nothing when it is no longer queued. */
  function ShownBy(fs: seq<Frame>, s: nat): seq<Content> {
    if fs == [] then [] else if fs[0].seqNo == s then fs[0].shown else ShownBy(fs[1..], s)
  }

  function ReleasedOlder(fs: seq<Frame>, before: nat): seq<Frame> {
    seq(|fs|, i requires 0 <= i < |fs| => if fs[i].submittedNs < before then fs[i].(barriers := []) else fs[i])
  }

  function BarriersOlder(fs: seq<Frame>, before: nat): seq<Barrier> {
    if fs == [] then []
    else (if fs[0].submittedNs < before then fs[0].barriers else []) + BarriersOlder(fs[1..], before)
  }

  function FlushedOlder(fs: seq<Frame>, before: nat): seq<Frame> {
    seq(|fs|, i requires 0 <= i < |fs| => if fs[i].submittedNs < before then fs[i].(flushed := true) else fs[i])
  }

  /** The stale time of the first pending frame, if any is pending. */
  function NextStale(fs: seq<Frame>, onScreen: bool): Option<nat> {
    if fs == [] then None
    else if fs[0].Pending(onScreen) then Some(SatAdd(fs[0].submittedNs, STALE_NS))
    else NextStale(fs[1..], onScreen)
  }

  // ----- the operations, as the source performs them -----

  class Frames {
    var frames: seq<Frame>
    /** The feedback callbacks answered, and the barriers signaled, in order. */
    var answers: seq<Answer>
    var signaled: seq<Barrier>

    constructor (frames: seq<Frame>)
      ensures this.frames == frames && answers == [] && signaled == []
    {
      this.frames, answers, signaled := frames, [], [];
    }

    /** The front frame leaves as never shown. */
    method DropOldest() returns (released: bool)
      requires frames != []
      modifies this
      ensures frames == old(frames[1..])
      ensures answers == old(answers + Discards(frames[0].feedback))
      ensures signaled == old(signaled + frames[0].barriers)
      ensures released == (old(frames[0].barriers) != [])
    {
      var frame := frames[0];
      frames := frames[1..];
      var i := 0;
      while i < |frame.feedback|
        invariant 0 <= i <= |frame.feedback|
        invariant answers == old(answers) + Discards(frame.feedback)[..i]
        invariant frames == old(frames[1..]) && signaled == old(signaled)
      {
        answers := answers + [Discarded(frame.feedback[i].callback)];
        i := i + 1;
      }
      released := frame.barriers != [];
      signaled := signaled + frame.barriers;
    }

    /** Keep the feedback for what the frame shows, and discard the rest. */
    method Admit(feedback: seq<Feedback>, shown: seq<Content>) returns (kept: seq<Feedback>)
      modifies this`answers
      ensures kept == Select(feedback, shown, true)
      ensures answers == old(answers) + Discards(Select(feedback, shown, false))
    {
      kept := [];
      var i := 0;
      while i < |feedback|
        invariant 0 <= i <= |feedback|
        invariant kept == Select(feedback[..i], shown, true)
        invariant answers == old(answers) + Discards(Select(feedback[..i], shown, false))
      {
        var f := feedback[i];
        SelectOneMore(feedback, i, shown);
        if f.content in shown {
          kept := kept + [f];
        } else {
          DiscardsConcat(Select(feedback[..i], shown, false), [f]);
          answers := answers + [Discarded(f.callback)];
        }
        i := i + 1;
      }
      assert feedback[..i] == feedback;
    }

    /** Take the oldest frames as never shown until the queue is back to its bound. */
    method Trim() returns (released: bool)
      modifies this
      ensures var dropped := old(frames)[..Excess(|old(frames)|)];
              && frames == old(frames)[Excess(|old(frames)|)..]
              && answers == old(answers) + Discards(FeedbackOf(dropped))
              && signaled == old(signaled) + BarriersOf(dropped)
              && released == (BarriersOf(dropped) != [])
    {
      ghost var all := frames;
      ghost var k := 0;
      released := false;
      while |frames| > MAX_IN_FLIGHT
        invariant 0 <= k <= Excess(|all|) && frames == all[k..]
        invariant answers == old(answers) + Discards(FeedbackOf(all[..k]))
        invariant signaled == old(signaled) + BarriersOf(all[..k])
        invariant released == (BarriersOf(all[..k]) != [])
        decreases |frames|
      {
        TakeOneMore(all, k);
        DiscardsConcat(FeedbackOf(all[..k]), all[k].feedback);
        var any := DropOldest();
        released := released || any;
        k := k + 1;
      }
      assert k == Excess(|all|);
    }

    method Push(seqNo: nat, now: nat, shown: seq<Content>, taken: Taken) returns (released: bool)
      modifies this
      ensures var all := old(frames) + [Entering(seqNo, now, shown, taken)];
              var dropped := all[..Excess(|all|)];
              && frames == all[Excess(|all|)..]
              && answers == old(answers) + Discards(Select(taken.feedback, shown, false))
                  + Discards(FeedbackOf(dropped))
              && signaled == old(signaled) + BarriersOf(dropped)
              && released == (BarriersOf(dropped) != [])
    {
      var kept := Admit(taken.feedback, shown);
      frames := frames + [Frame(seqNo, now, shown, kept, taken.barriers, false)];
      released := Trim();
    }

    /** Answer the oldest frame's feedback by what was shown, and clear its barriers. */
    method AnswerOldest(shown: seq<Content>, timing: Timing) returns (released: bool)
      requires frames != []
      modifies this
      ensures frames == old(frames[1..])
      ensures answers == old(answers + Answers(frames[0].feedback, shown, timing))
      ensures signaled == old(signaled + frames[0].barriers)
      ensures released == (old(frames[0].barriers) != [])
    {
      var frame := frames[0];
      frames := frames[1..];
      var j := 0;
      while j < |frame.feedback|
        invariant 0 <= j <= |frame.feedback|
        invariant answers == old(answers) + Answers(frame.feedback, shown, timing)[..j]
        invariant frames == old(frames[1..]) && signaled == old(signaled)
      {
        var f := frame.feedback[j];
        answers := answers + [if f.content in shown then Answer.Presented(f.callback, timing)
                              else Discarded(f.callback)];
        j := j + 1;
      }
      released := frame.barriers != [];
      signaled := signaled + frame.barriers;
    }

    /** The content of the frame numbered s, as long as it is queued. */
    method FindShown(s: nat) returns (shown: seq<Content>)
      ensures shown == ShownBy(frames, s)
    {
      shown := [];
      var i := 0;
      while i < |frames|
        invariant 0 <= i <= |frames|
        invariant ShownBy(frames, s) == ShownBy(frames[i..], s)
      {
        if frames[i].seqNo == s {
          return frames[i].shown;
        }
        assert frames[i..][1..] == frames[i + 1..];
        i := i + 1;
      }
    }

    /** Take every frame up to s off the queue, answering its feedback. */
    method AnswerUpTo(s: nat, shown: seq<Content>, timing: Timing) returns (released: bool)
      modifies this
      ensures var gone := old(frames)[..Replaced(old(frames), s)];
              && frames == old(frames)[|gone|..]
              && answers == old(answers) + Answers(FeedbackOf(gone), shown, timing)
              && signaled == old(signaled) + BarriersOf(gone)
              && released == (BarriersOf(gone) != [])
    {
      ghost var all := frames;
      released := false;
      ghost var k := 0;
      GoneNone(all, shown, timing);
      hide Gone, Replaced;
      while frames != [] && frames[0].seqNo <= s
        invariant 0 <= k <= |all| && frames == all[k..] && k + Replaced(frames, s) == Replaced(all, s)
        invariant exists a, b :: Gone(all, k, shown, timing, a, b, released) && answers == old(answers) + a
                    && signaled == old(signaled) + b
        decreases |frames|
      {
        ghost var a, b :| Gone(all, k, shown, timing, a, b, released) && answers == old(answers) + a
                       && signaled == old(signaled) + b;
        ReplacedStep(frames, s);
        GoneMore(all, k, shown, timing, a, b, released);
        var any := AnswerOldest(shown, timing);
        released := released || any;
        k := k + 1;
        assert Gone(all, k, shown, timing, a + Answers(all[k - 1].feedback, shown, timing), b + all[k - 1].barriers,
                    released);
      }
      ReplacedStep(frames, s);
      GoneIs(all, k, shown, timing);
    }

    method Presented(report: Report) returns (released: bool)
      modifies this
      ensures var gone := old(frames)[..Replaced(old(frames), report.seqNo)];
              && frames == old(frames)[|gone|..]
              && answers == old(answers)
                  + Answers(FeedbackOf(gone), ShownBy(old(frames), report.seqNo), TimingOf(report))
              && signaled == old(signaled) + BarriersOf(gone)
              && released == (BarriersOf(gone) != [])
    {
      var shown := FindShown(report.seqNo);
      released := AnswerUpTo(report.seqNo, shown, TimingOf(report));
    }

    method ReleaseOlder(before: nat) returns (released: bool)
      modifies this`frames, this`signaled
      ensures frames == ReleasedOlder(old(frames), before)
      ensures signaled == old(signaled) + BarriersOlder(old(frames), before)
      ensures released == (BarriersOlder(old(frames), before) != [])
    {
      released := false;
      ghost var all := frames;
      var i := 0;
      while i < |frames|
        invariant 0 <= i <= |frames| == |all|
        invariant forall j :: 0 <= j < i ==> frames[j] == ReleasedOlder(all, before)[j]
        invariant forall j :: i <= j < |all| ==> frames[j] == all[j]
        invariant signaled == old(signaled) + BarriersOlder(all[..i], before)
        invariant released == (BarriersOlder(all[..i], before) != [])
      {
        OlderOneMore(all, i, before);
        if frames[i].submittedNs < before {
          released := released || frames[i].barriers != [];
          signaled := signaled + frames[i].barriers;
          frames := frames[i := frames[i].(barriers := [])];
        }
        i := i + 1;
      }
      assert all[..i] == all;
    }

    method FlushOlder(before: nat) returns (flushed: bool)
      modifies this
      ensures frames == FlushedOlder(old(frames), before)
      ensures answers == old(answers) && signaled == old(signaled)
      ensures flushed <==>
                exists i :: 0 <= i < |old(frames)| && old(frames)[i].submittedNs < before && !old(frames)[i].flushed
    {
      flushed := false;
      ghost var all := frames;
      var i := 0;
      while i < |frames|
        invariant 0 <= i <= |frames| == |all|
        invariant forall j :: 0 <= j < i ==> frames[j] == FlushedOlder(all, before)[j]
        invariant forall j :: i <= j < |all| ==> frames[j] == all[j]
        invariant answers == old(answers) && signaled == old(signaled)
        invariant flushed <==> exists j :: 0 <= j < i && all[j].submittedNs < before && !all[j].flushed
      {
        if frames[i].submittedNs < before && !frames[i].flushed {
          frames := frames[i := frames[i].(flushed := true)];
          flushed := true;
        }
        i := i + 1;
      }
    }

    method Clear() returns (released: bool)
      modifies this
      ensures frames == []
      ensures answers == old(answers) + Discards(FeedbackOf(old(frames)))
      ensures signaled == old(signaled) + BarriersOf(old(frames))
      ensures released == (BarriersOf(old(frames)) != [])
    {
      released := false;
      ghost var all := frames;
      ghost var k := 0;
      while frames != []
        invariant 0 <= k <= |all| && frames == all[k..]
        invariant answers == old(answers) + Discards(FeedbackOf(all[..k]))
        invariant signaled == old(signaled) + BarriersOf(all[..k])
        invariant released == (BarriersOf(all[..k]) != [])
        decreases |frames|
      {
        TakeOneMore(all, k);
        DiscardsConcat(FeedbackOf(all[..k]), all[k].feedback);
        var any := DropOldest();
        released := released || any;
        k := k + 1;
      }
      assert all[..k] == all;
    }
  }

  // ----- properties -----

  lemma {:induction false} OfConcat(a: seq<Frame>, b: seq<Frame>)
    ensures BarriersOf(a + b) == BarriersOf(a) + BarriersOf(b)
    ensures FeedbackOf(a + b) == FeedbackOf(a) + FeedbackOf(b)
  {
    if a == [] {
      assert a + b == b;
    } else {
      assert (a + b)[1..] == a[1..] + b;
      OfConcat(a[1..], b);
    }
  }

  lemma ReplacedStep(fs: seq<Frame>, s: nat)
    ensures Replaced(fs, s) == if fs != [] && fs[0].seqNo <= s then 1 + Replaced(fs[1..], s) else 0
  {
  }

  /** What answering the first k frames calls, and whether it clears a barrier. */
  ghost predicate Gone(all: seq<Frame>, k: nat, shown: seq<Content>, timing: Timing, answers: seq<Answer>,
                       barriers: seq<Barrier>, released: bool)
    requires k <= |all|
  {
    && answers == Answers(FeedbackOf(all[..k]), shown, timing) && barriers == BarriersOf(all[..k])
    && released == (barriers != [])
  }

  lemma GoneNone(all: seq<Frame>, shown: seq<Content>, timing: Timing)
    ensures Gone(all, 0, shown, timing, [], [], false)
  {
  }

  lemma GoneMore(all: seq<Frame>, k: nat, shown: seq<Content>, timing: Timing, answers: seq<Answer>,
                 barriers: seq<Barrier>, released: bool)
    requires k < |all| && Gone(all, k, shown, timing, answers, barriers, released)
    ensures Gone(all, k + 1, shown, timing, answers + Answers(all[k].feedback, shown, timing),
                 barriers + all[k].barriers, released || all[k].barriers != [])
  {
    hide FeedbackOf, BarriersOf, Answers;
    TakeOneMore(all, k);
    AnswersConcat(FeedbackOf(all[..k]), all[k].feedback, shown, timing);
  }

  lemma GoneIs(all: seq<Frame>, k: nat, shown: seq<Content>, timing: Timing)
    requires k <= |all|
    ensures forall answers, barriers, released :: Gone(all, k, shown, timing, answers, barriers, released) ==>
              && answers == Answers(FeedbackOf(all[..k]), shown, timing) && barriers == BarriersOf(all[..k])
              && released == (barriers != [])
  {
  }

  lemma TakeOneMore(all: seq<Frame>, k: nat)
    requires k < |all|
    ensures BarriersOf(all[..k + 1]) == BarriersOf(all[..k]) + all[k].barriers
    ensures FeedbackOf(all[..k + 1]) == FeedbackOf(all[..k]) + all[k].feedback
    ensures all[k..][1..] == all[k + 1..]
  {
    assert all[..k + 1] == all[..k] + [all[k]];
    OfConcat(all[..k], [all[k]]);
  }

  lemma {:induction false} OlderOneMore(all: seq<Frame>, k: nat, before: nat)
    requires k < |all|
    ensures BarriersOlder(all[..k + 1], before)
         == BarriersOlder(all[..k], before) + if all[k].submittedNs < before then all[k].barriers else []
  {
    if k > 0 {
      assert all[..k][1..] == all[1..][..k - 1] && all[..k + 1][1..] == all[1..][..k];
      OlderOneMore(all[1..], k - 1, before);
    }
  }

  lemma {:induction false} SelectOneMore(feedback: seq<Feedback>, k: nat, shown: seq<Content>)
    requires k < |feedback|
    ensures forall keep :: Select(feedback[..k + 1], shown, keep)
                        == Select(feedback[..k], shown, keep)
                            + if (feedback[k].content in shown) == keep then [feedback[k]] else []
  {
    if k > 0 {
      assert feedback[..k][1..] == feedback[1..][..k - 1] && feedback[..k + 1][1..] == feedback[1..][..k];
      SelectOneMore(feedback[1..], k - 1, shown);
    }
  }

  lemma DiscardsConcat(a: seq<Feedback>, b: seq<Feedback>)
    ensures Discards(a + b) == Discards(a) + Discards(b)
  {
  }

  lemma AnswersConcat(a: seq<Feedback>, b: seq<Feedback>, shown: seq<Content>, timing: Timing)
    ensures Answers(a + b, shown, timing) == Answers(a, shown, timing) + Answers(b, shown, timing)
  {
  }

  /** A queue as the server keeps it: strictly sorted, bounded, submitted in order, and each frame holding
      feedback only for content it shows. */
  ghost predicate QueueOk(fs: seq<Frame>) {
    && |fs| <= 16
    && Sorted(fs)
    && forall f :: f in fs ==> AsksForShown(f)
  }

  ghost predicate Sorted(fs: seq<Frame>) {
    forall i, j :: 0 <= i < j < |fs| ==> fs[i].seqNo < fs[j].seqNo && fs[i].submittedNs <= fs[j].submittedNs
  }

  ghost predicate AsksForShown(f: Frame) {
    forall k :: 0 <= k < |f.feedback| ==> f.Shows(f.feedback[k].content)
  }

  lemma {:induction false} SelectShown(feedback: seq<Feedback>, shown: seq<Content>)
    ensures forall k :: 0 <= k < |Select(feedback, shown, true)| ==> Select(feedback, shown, true)[k].content in shown
  {
    if feedback != [] { SelectShown(feedback[1..], shown); }
  }

  lemma PushKeepsQueue(fs: seq<Frame>, seqNo: nat, now: nat, shown: seq<Content>, taken: Taken)
    requires QueueOk(fs)
    requires fs != [] ==> fs[|fs| - 1].seqNo < seqNo && fs[|fs| - 1].submittedNs <= now
    ensures var all := fs + [Entering(seqNo, now, shown, taken)];
            var queue := all[Excess(|all|)..];
            && QueueOk(queue) && |queue| == (if |fs| < 16 then |fs| + 1 else 16)
            && queue[|queue| - 1] == all[|fs|]
            && forall i :: 0 <= i < |queue| - 1 ==> queue[i] == fs[i + |fs| + 1 - |queue|]
  {
    SelectShown(taken.feedback, shown);
    var all := fs + [Entering(seqNo, now, shown, taken)];
    assert AsksForShown(Entering(seqNo, now, shown, taken));
    assert Sorted(all);
  }

  /** In a sorted queue a report of s removes exactly the frames up to s. */
  lemma {:induction false} ReplacedIsPrefix(fs: seq<Frame>, s: nat)
    requires Sorted(fs)
    ensures forall i :: 0 <= i < |fs| ==> (i < Replaced(fs, s) <==> fs[i].seqNo <= s)
  {
    if fs != [] {
      ReplacedIsPrefix(fs[1..], s);
      assert forall i :: 1 <= i < |fs| ==> fs[i] == fs[1..][i - 1];
    }
  }

  lemma {:induction false} ShownByIsFrame(fs: seq<Frame>, s: nat, c: Content)
    requires Sorted(fs)
    ensures c in ShownBy(fs, s) <==> StillShown(fs, s, c)
  {
    if fs != [] && fs[0].seqNo != s {
      ShownByIsFrame(fs[1..], s, c);
      assert forall i :: 1 <= i < |fs| ==> fs[i] == fs[1..][i - 1];
    }
  }

  lemma {:induction false} FeedbackAt(fs: seq<Frame>, i: nat, j: nat, n: nat)
    requires i < n <= |fs| && j < |fs[i].feedback|
    ensures |FeedbackOf(fs[..i])| + j < |FeedbackOf(fs[..n])|
    ensures FeedbackOf(fs[..n])[|FeedbackOf(fs[..i])| + j] == fs[i].feedback[j]
  {
    if i + 1 < n {
      FeedbackAt(fs, i, j, n - 1);
      TakeOneMore(fs, n - 1);
    } else {
      TakeOneMore(fs, i);
    }
  }

  /** Frame s is still queued and shows the content. */
  ghost predicate StillShown(fs: seq<Frame>, s: nat, c: Content) {
    exists k :: 0 <= k < |fs| && fs[k].seqNo == s && fs[k].Shows(c)
  }

  /** The timing is the report's: its refresh unknown when it reports none, and of its flags the low four. */
  ghost predicate TimingFrom(t: Timing, r: Report) {
    && t.ustNs == r.ustNs && t.msc == r.msc
    && (exists others: nat :: r.flags == 16 * others + t.flags && t.flags < 16)
    && match t.refresh
       case None => r.refreshNs == 0
       case Some(n) => n == r.refreshNs > 0
  }

  lemma TimingIs(r: Report)
    ensures TimingFrom(TimingOf(r), r)
  {
    assert r.flags == 16 * (r.flags / 16) + r.flags % 16;
  }

  /** The truth of feedback: a report of s answers feedback j of frame i just when the frame is at most s, and
      the answer is that it was presented -- with the report's timing -- just when frame s is still queued and
      shows that content. Nothing else is answered. */
  lemma FeedbackTruth(fs: seq<Frame>, r: Report)
    requires Sorted(fs)
    ensures var gone := fs[..Replaced(fs, r.seqNo)];
            var answers := Answers(FeedbackOf(gone), ShownBy(fs, r.seqNo), TimingOf(r));
            && |answers| == |FeedbackOf(gone)| && TimingFrom(TimingOf(r), r)
            && (forall i :: 0 <= i < |fs| ==> (i < |gone| <==> fs[i].seqNo <= r.seqNo))
            && (forall i, j :: 0 <= i < |gone| && 0 <= j < |fs[i].feedback| ==>
                 AnsweredAt(answers, |FeedbackOf(fs[..i])| + j, TrueAnswer(fs, fs[i].feedback[j], r)))
  {
    hide Sorted, TimingFrom, TimingOf, Replaced, FeedbackOf, ShownBy, Answers, AnsweredAt, TrueAnswer;
    var n := Replaced(fs, r.seqNo);
    ReplacedIsPrefix(fs, r.seqNo);
    var answers := Answers(FeedbackOf(fs[..n]), ShownBy(fs, r.seqNo), TimingOf(r));
    EachAnswered(FeedbackOf(fs[..n]), ShownBy(fs, r.seqNo), TimingOf(r));
    TimingIs(r);
    forall i, j | 0 <= i < n && 0 <= j < |fs[i].feedback|
      ensures AnsweredAt(answers, |FeedbackOf(fs[..i])| + j, TrueAnswer(fs, fs[i].feedback[j], r))
    {
      AnsweredTruly(fs, i, j, n, r);
    }
  }

  lemma EachAnswered(feedback: seq<Feedback>, shown: seq<Content>, timing: Timing)
    ensures |Answers(feedback, shown, timing)| == |feedback|
  {
  }

  lemma AnsweredTruly(fs: seq<Frame>, i: nat, j: nat, n: nat, r: Report)
    requires Sorted(fs) && i < n <= |fs| && j < |fs[i].feedback|
    ensures AnsweredAt(Answers(FeedbackOf(fs[..n]), ShownBy(fs, r.seqNo), TimingOf(r)), |FeedbackOf(fs[..i])| + j,
                       TrueAnswer(fs, fs[i].feedback[j], r))
  {
    hide Sorted, FeedbackOf, ShownBy, TimingOf, StillShown;
    FeedbackAt(fs, i, j, n);
    ShownByIsFrame(fs, r.seqNo, fs[i].feedback[j].content);
    AnswerAt(FeedbackOf(fs[..n]), ShownBy(fs, r.seqNo), TimingOf(r), |FeedbackOf(fs[..i])| + j);
  }

  lemma AnswerAt(feedback: seq<Feedback>, shown: seq<Content>, timing: Timing, k: nat)
    requires k < |feedback|
    ensures AnsweredAt(Answers(feedback, shown, timing), k,
                       if feedback[k].content in shown then Presented(feedback[k].callback, timing)
                       else Discarded(feedback[k].callback))
  {
  }

  ghost predicate AnsweredAt(answers: seq<Answer>, at: nat, a: Answer) {
    at < |answers| && answers[at] == a
  }

  ghost function TrueAnswer(fs: seq<Frame>, f: Feedback, r: Report): Answer {
    if StillShown(fs, r.seqNo, f.content) then Presented(f.callback, TimingOf(r)) else Discarded(f.callback)
  }

  /** So the frame reported has all its own feedback presented. */
  lemma OwnFeedbackPresented(fs: seq<Frame>, i: nat, j: nat, r: Report)
    requires QueueOk(fs) && i < |fs| && j < |fs[i].feedback| && fs[i].seqNo == r.seqNo
    ensures var a := TrueAnswer(fs, fs[i].feedback[j], r);
            a.Presented? && a.callback == fs[i].feedback[j].callback && TimingFrom(a.timing, r)
  {
    hide TimingFrom, TimingOf;
    TimingIs(r);
    assert fs[i].Shows(fs[i].feedback[j].content) by { assert AsksForShown(fs[i]); }
  }

  /** The stale time is that of the oldest pending frame, and there is none just when nothing is pending. */
  lemma {:induction false} NextStaleIsOldest(fs: seq<Frame>, onScreen: bool)
    ensures NextStale(fs, onScreen).None? <==> forall i :: 0 <= i < |fs| ==> !fs[i].Pending(onScreen)
    ensures NextStale(fs, onScreen).Some? ==>
              exists i :: && 0 <= i < |fs| && fs[i].Pending(onScreen)
                          && NextStale(fs, onScreen).value == SatAdd(fs[i].submittedNs, 250_000_000)
                          && forall j :: 0 <= j < i ==> !fs[j].Pending(onScreen)
  {
    if fs != [] && !fs[0].Pending(onScreen) {
      NextStaleIsOldest(fs[1..], onScreen);
      var rest := fs[1..];
      assert forall i :: 1 <= i < |fs| ==> fs[i] == rest[i - 1];
      if NextStale(rest, onScreen).Some? {
        var i :| 0 <= i < |rest| && rest[i].Pending(onScreen)
              && NextStale(fs, onScreen).value == SatAdd(rest[i].submittedNs, STALE_NS)
              && forall j :: 0 <= j < i ==> !rest[j].Pending(onScreen);
        assert fs[i + 1] == rest[i];
      }
    }
  }
}
