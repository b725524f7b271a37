/** What becomes of one live send: exactly when its payload is acknowledged or queued. */
module Fate {
  import opened Common
  import opened Protocol
  import opened Latest

  /** Producer `p` holds the mutex for the send of `x` and has not finished with it. */
  predicate Sending(pc: Pc, x: Bytes) {
    (pc.SendLocked? || pc.LiveSending? || pc.LiveFailed?) && pc.payload == x
  }

  /** From `s`, where the send of `x` by `p` has just begun, `labels` run without finishing it. */
  ghost predicate Underway(cfg: Config, s: State, p: Proc, x: Bytes, labels: seq<Label>) {
    && s.pcs.At(p).SendLocked?
    && forall n :: 0 <= n <= |labels| ==>
         Run(cfg, s, labels[..n]).Some? && Sending(Run(cfg, s, labels[..n]).value.pcs.At(p), x)
  }

  /** The send ends with the last of `labels`, by a step of `p` or by a crash; other producers may
      have moved in between. */
  ghost predicate SendRun(cfg: Config, s: State, p: Proc, x: Bytes, labels: seq<Label>, s': State) {
    && labels != []
    && Underway(cfg, s, p, x, labels[..|labels| - 1])
    && Run(cfg, s, labels) == Some(s') && !Sending(s'.pcs.At(p), x)
  }

  predicate TokenRead(p: Proc, labels: seq<Label>) { Step(p, ReadToken(true)) in labels }

  predicate Accepts(p: Proc, l: Label) {
    l.Step? && l.proc == p && l.action.Attempt? && Acceptable(l.action.outcome)
  }

  predicate Acknowledged(p: Proc, labels: seq<Label>) {
    exists i :: 0 <= i < |labels| && Accepts(p, labels[i])
  }

  predicate RowInserted(p: Proc, labels: seq<Label>) { Step(p, Queue(Inserted)) in labels }

  /** Since `s`, a live payload of `p`'s kind with these bytes was acknowledged, or a row with this
      kind and these bytes was inserted. */
  ghost predicate HandedOn(s: State, s': State, p: Proc, x: Bytes) {
    || (exists i :: |s.acked| <= i < |s'.acked| && s'.acked[i] == Live(KindOf(p), x))
    || (exists i :: |s.enqueued| <= i < |s'.enqueued|
                    && s'.enqueued[i].kind == KindOf(p) && s'.enqueued[i].payload == x)
  }

  /** Since `s`, nothing of `p`'s kind was acknowledged live or inserted. */
  ghost predicate NothingOf(s: State, t: State, p: Proc) {
    && s.acked <= t.acked && s.enqueued <= t.enqueued
    && (forall i :: |s.acked| <= i < |t.acked| && t.acked[i].Live? ==> t.acked[i].kind != KindOf(p))
    && (forall i :: |s.enqueued| <= i < |t.enqueued| ==> t.enqueued[i].kind != KindOf(p))
  }

  /** A step that hands over nothing of `p`'s kind adds nothing of it to the logs. */
  lemma NothingAdded(cfg: Config, s: State, t: State, p: Proc, q: Proc, e: Effect)
    requires NothingOf(s, t, p) && (HandsOver(e).Some? ==> HandsOver(e).value.0 != KindOf(p))
    requires e.queue.InsertRow? ==> e.wire.NoTraffic?
    ensures NothingOf(s, Apply(cfg, t, q, e), p)
  {
    hide NextId, DeleteId;
    var t' := Apply(cfg, t, q, e);
    assert forall i :: 0 <= i < |t.acked| ==> t'.acked[i] == t.acked[i];
    assert forall i :: 0 <= i < |t.enqueued| ==> t'.enqueued[i] == t.enqueued[i];
  }

  lemma InsertsQuietly(cfg: Config, rows: seq<Row>, config: map<Key, string>, p: Proc, pc: Pc, a: Action)
    requires Act(cfg, rows, config, p, pc, a).Some?
    ensures var e := Act(cfg, rows, config, p, pc, a).value; e.queue.InsertRow? ==> e.wire.NoTraffic?
  {
  }

  /** What a step of `p` that does not finish the send can be. */
  lemma OwnStepUnderway(cfg: Config, rows: seq<Row>, config: map<Key, string>, p: Proc, pc: Pc, x: Bytes, a: Action)
    requires Sending(pc, x) && Act(cfg, rows, config, p, pc, a).Some?
    requires Sending(Act(cfg, rows, config, p, pc, a).value.pc, x)
    ensures var e := Act(cfg, rows, config, p, pc, a).value;
            && HandsOver(e).None? && !Accepts(p, Step(p, a)) && a != Queue(Inserted)
            && (e.pc.SendLocked? ==> pc.SendLocked? && a != ReadToken(true))
            && (pc.SendLocked? && !e.pc.SendLocked? ==> a == ReadToken(true))
  {
  }

  /** A step of another producer, or one of `p` that does not finish the send. */
  lemma StepUnderway(cfg: Config, s: State, t: State, p: Proc, x: Bytes, l: Label)
    requires NothingOf(s, t, p) && Sending(t.pcs.At(p), x)
    requires Next(cfg, t, l).Some? && Sending(Next(cfg, t, l).value.pcs.At(p), x)
    ensures var t' := Next(cfg, t, l).value;
            && NothingOf(s, t', p)
            && (t'.pcs.At(p).SendLocked? ==> t.pcs.At(p).SendLocked? && l != Step(p, ReadToken(true)))
            && (t.pcs.At(p).SendLocked? && !t'.pcs.At(p).SendLocked? ==> l == Step(p, ReadToken(true)))
            && !Accepts(p, l) && l != Step(p, Queue(Inserted))
  {
    if l.Step? {
      var q, e := l.proc, Enabled(cfg, t, l.proc, l.action).value;
      if q == p {
        OwnStepUnderway(cfg, t.rows, t.config, p, t.pcs.At(p), x, l.action);
      } else {
        OwnKindOwnKey(cfg, t.rows, t.config, q, t.pcs.At(q), l.action);
      }
      InsertsQuietly(cfg, t.rows, t.config, q, t.pcs.At(q), l.action);
      hide NothingOf, HandsOver, Act;
      NothingAdded(cfg, s, t, p, q, e);
    }
  }

  lemma OneMore(p: Proc, labels: seq<Label>, l: Label)
    ensures TokenRead(p, labels + [l]) <==> TokenRead(p, labels) || l == Step(p, ReadToken(true))
    ensures Acknowledged(p, labels + [l]) <==> Acknowledged(p, labels) || Accepts(p, l)
    ensures RowInserted(p, labels + [l]) <==> RowInserted(p, labels) || l == Step(p, Queue(Inserted))
  {
    var longer := labels + [l];
    assert longer[|labels|] == l && forall i :: 0 <= i < |labels| ==> longer[i] == labels[i];
  }

  lemma {:induction false} WhileUnderway(cfg: Config, s: State, p: Proc, x: Bytes, labels: seq<Label>)
    requires Underway(cfg, s, p, x, labels)
    ensures var t := Run(cfg, s, labels[..|labels|]).value;
            && NothingOf(s, t, p) && !Acknowledged(p, labels) && !RowInserted(p, labels)
            && (TokenRead(p, labels) <==> !t.pcs.At(p).SendLocked?)
    decreases |labels|
  {
    assert labels[..|labels|] == labels;
    if labels == [] {
      NoSteps(cfg, s);
    } else {
      var n := |labels| - 1;
      var front := labels[..n];
      assert forall m :: 0 <= m <= n ==> front[..m] == labels[..m];
      WhileUnderway(cfg, s, p, x, front);
      assert labels == front + [labels[n]] && front[..n] == front;
      OneMore(p, front, labels[n]);
      hide NothingOf, Next, TokenRead, Acknowledged, RowInserted, Accepts;
      StepUnderway(cfg, s, Run(cfg, s, front).value, p, x, labels[n]);
    }
  }

  /** What a step of `p` that finishes the send can be. */
  lemma OwnStepFinishes(cfg: Config, rows: seq<Row>, config: map<Key, string>, p: Proc, pc: Pc, x: Bytes, a: Action)
    requires Sending(pc, x) && Act(cfg, rows, config, p, pc, a).Some?
    requires !Sending(Act(cfg, rows, config, p, pc, a).value.pc, x)
    ensures var e := Act(cfg, rows, config, p, pc, a).value;
            && a != ReadToken(true) && (a == Queue(Inserted) ==> !Accepts(p, Step(p, a)))
            && e.pc == (if Accepts(p, Step(p, a)) || a == Queue(Inserted) then Persisting(x) else Idle)
            && (Accepts(p, Step(p, a)) ==> pc.LiveSending? && e.wire == Traffic(a.outcome, Live(KindOf(p), x)))
            && (a == Queue(Inserted) ==> pc.LiveFailed? && e.queue == InsertRow(KindOf(p), x))
            && (!Accepts(p, Step(p, a)) && a != Queue(Inserted) ==> HandsOver(e).None?)
  {
  }

  /** Nothing of `p`'s kind since `s` means that the payload was not handed on. */
  lemma NothingHandedOn(s: State, t: State, p: Proc, x: Bytes)
    requires NothingOf(s, t, p)
    ensures !HandedOn(s, t, p, x)
  {
  }

  /** The step that finishes the send decides its fate. */
  lemma LastStepDecides(cfg: Config, s: State, t: State, p: Proc, x: Bytes, l: Label)
    requires NothingOf(s, t, p) && Sending(t.pcs.At(p), x)
    requires Next(cfg, t, l).Some? && !Sending(Next(cfg, t, l).value.pcs.At(p), x)
    ensures var t' := Next(cfg, t, l).value;
            && (HandedOn(s, t', p, x) <==> Accepts(p, l) || l == Step(p, Queue(Inserted)))
            && t'.pcs.At(p) == (if HandedOn(s, t', p, x) then Persisting(x) else Idle)
            && (HandedOn(s, t', p, x) ==> !t.pcs.At(p).SendLocked?)
            && l != Step(p, ReadToken(true))
  {
    var t' := Next(cfg, t, l).value;
    if l.Crash? {
      NothingHandedOn(s, t', p, x);
    } else {
      assert l.proc == p;
      var e := Enabled(cfg, t, p, l.action).value;
      OwnStepFinishes(cfg, t.rows, t.config, p, t.pcs.At(p), x, l.action);
      InsertsQuietly(cfg, t.rows, t.config, p, t.pcs.At(p), l.action);
      hide Act, NextId, DeleteId;
      if Accepts(p, l) {
        assert t'.acked[|t.acked|] == Live(KindOf(p), x);
      } else if l.action == Queue(Inserted) {
        assert t'.enqueued[|t.enqueued|].payload == x;
      } else {
        NothingAdded(cfg, s, t, p, p, e);
        NothingHandedOn(s, t', p, x);
      }
    }
  }

  /** What is known before the label that finishes the send. */
  lemma LastStep(cfg: Config, s: State, p: Proc, x: Bytes, labels: seq<Label>, s': State) returns (t: State)
    requires SendRun(cfg, s, p, x, labels, s')
    ensures var front, last := labels[..|labels| - 1], labels[|labels| - 1];
            && NothingOf(s, t, p) && !Acknowledged(p, front) && !RowInserted(p, front)
            && (TokenRead(p, front) <==> !t.pcs.At(p).SendLocked?)
            && Sending(t.pcs.At(p), x) && !Sending(s'.pcs.At(p), x) && Next(cfg, t, last) == Some(s')
  {
    hide NothingOf, Next, Sending, TokenRead, Acknowledged, RowInserted;
    var n := |labels| - 1;
    WhileUnderway(cfg, s, p, x, labels[..n]);
    assert labels[..n][..n] == labels[..n];
    t := Run(cfg, s, labels[..n]).value;
  }

  /** A payload sent live is acknowledged or queued exactly when the token could be read and
      either an attempt was acknowledged or the row was inserted. Otherwise the send ends with the
      payload in neither place, and the producer goes back to idle. */
  lemma HandedOnIff(cfg: Config, s: State, p: Proc, x: Bytes, labels: seq<Label>, s': State)
    requires SendRun(cfg, s, p, x, labels, s')
    ensures HandedOn(s, s', p, x) <==>
            TokenRead(p, labels) && (Acknowledged(p, labels) || RowInserted(p, labels))
    ensures s'.pcs.At(p) == if HandedOn(s, s', p, x) then Persisting(x) else Idle
  {
    hide NothingOf, HandedOn, Next, Run, Underway, Sending, TokenRead, Acknowledged, RowInserted, Accepts;
    var n := |labels| - 1;
    var front, last := labels[..n], labels[n];
    var t := LastStep(cfg, s, p, x, labels, s');
    assert labels == front + [last];
    OneMore(p, front, last);
    LastStepDecides(cfg, s, t, p, x, last);
  }
}
