/** Runs of the protocol extended by one action of a producer, with the state it leads to
    written out. */
module Steps {
  import opened Common
  import opened Protocol

  lemma Locks(cfg: Config, start: State, run: seq<Label>, s: State, p: Proc)
    requires Run(cfg, start, run) == Some(s) && s.pcs.At(p).Idle? && cfg.engine(p) !in s.holders
    ensures Run(cfg, start, run + [Step(p, LockForFlush)]) ==
            Some(s.(holders := s.holders[cfg.engine(p) := p], pcs := s.pcs.With(p, FlushLocked)))
  {
    RunSnoc(cfg, start, run, Step(p, LockForFlush));
  }

  lemma ReadsPending(cfg: Config, start: State, run: seq<Label>, s: State, p: Proc, ok: bool)
    requires Run(cfg, start, run) == Some(s) && s.pcs.At(p).FlushLocked?
    ensures var window := s.rows[..Min(WINDOW, |s.rows|)];
            Run(cfg, start, run + [Step(p, ReadPending(ok))]) ==
            Some(if ok then s.(pcs := s.pcs.With(p, Flushing(Pass(window, 0, 0, |s.rows| <= WINDOW))))
                 else s.(holders := s.holders - {cfg.engine(p)}, pcs := s.pcs.With(p, Flushed(false))))
  {
    RunSnoc(cfg, start, run, Step(p, ReadPending(ok)));
  }

  lemma Skips(cfg: Config, start: State, run: seq<Label>, s: State, p: Proc, pass: Pass)
    requires Run(cfg, start, run) == Some(s) && s.pcs.At(p) == Flushing(pass)
    requires pass.index < |pass.items| && !AtRoutable(pass)
    ensures Run(cfg, start, run + [Step(p, SkipRow)]) ==
            Some(s.(pcs := s.pcs.With(p, Flushing(pass.(index := pass.index + 1)))))
  {
    hide Run;
    RunSnoc(cfg, start, run, Step(p, SkipRow));
    assert Enabled(cfg, s, p, SkipRow) == Some(Move(Flushing(pass.(index := pass.index + 1)), Hold));
  }

  lemma Finishes(cfg: Config, start: State, run: seq<Label>, s: State, p: Proc, pass: Pass)
    requires Run(cfg, start, run) == Some(s) && s.pcs.At(p) == Flushing(pass) && pass.index >= |pass.items|
    ensures Run(cfg, start, run + [Step(p, FinishFlush)]) ==
            Some(s.(holders := s.holders - {cfg.engine(p)}, pcs := s.pcs.With(p, Flushed(pass.covered))))
  {
    RunSnoc(cfg, start, run, Step(p, FinishFlush));
  }

  lemma ReadsTokenForRow(cfg: Config, start: State, run: seq<Label>, s: State, p: Proc, pass: Pass, ok: bool)
    requires Run(cfg, start, run) == Some(s) && s.pcs.At(p) == Flushing(pass) && AtRoutable(pass)
    ensures Run(cfg, start, run + [Step(p, ReadToken(ok))]) ==
            Some(if ok then s.(pcs := s.pcs.With(p, FlushSending(pass, 0)))
                 else s.(holders := s.holders - {cfg.engine(p)}, pcs := s.pcs.With(p, Flushed(false))))
  {
    RunSnoc(cfg, start, run, Step(p, ReadToken(ok)));
  }

  lemma Deletes(cfg: Config, start: State, run: seq<Label>, s: State, p: Proc, pass: Pass)
    requires Run(cfg, start, run) == Some(s) && s.pcs.At(p) == FlushDeleting(pass) && pass.index < |pass.items|
    ensures var left := DeleteId(s.rows, pass.items[pass.index].id);
            Run(cfg, start, run + [Step(p, Delete(true))]) ==
            Some(s.(rows := left, deleted := s.deleted + (|s.rows| - |left|),
                    pcs := s.pcs.With(p, Flushing(pass.(index := pass.index + 1, sent := pass.sent + 1)))))
  {
    hide Run, DeleteId, NextId;
    var next := Flushing(pass.(index := pass.index + 1, sent := pass.sent + 1));
    var e := Effect(next, Hold, DeleteRow(pass.items[pass.index].id), NoTraffic, LeaveConfig);
    assert Enabled(cfg, s, p, Delete(true)) == Some(e);
    RunSnoc(cfg, start, run, Step(p, Delete(true)));
  }

  lemma FailsToDelete(cfg: Config, start: State, run: seq<Label>, s: State, p: Proc, pass: Pass)
    requires Run(cfg, start, run) == Some(s) && s.pcs.At(p) == FlushDeleting(pass) && pass.index < |pass.items|
    ensures Run(cfg, start, run + [Step(p, Delete(false))]) ==
            Some(s.(holders := s.holders - {cfg.engine(p)}, pcs := s.pcs.With(p, Flushed(false))))
  {
    RunSnoc(cfg, start, run, Step(p, Delete(false)));
  }

  lemma Collects(cfg: Config, start: State, run: seq<Label>, s: State, p: Proc, payload: Bytes, readable: bool)
    requires Run(cfg, start, run) == Some(s) && s.pcs.At(p).Flushed? && cfg.genuine(p, payload)
    ensures Run(cfg, start, run + [Step(p, Collect(payload, readable))]) ==
            Some(s.(pcs := s.pcs.With(p, if Suppressed(cfg, s.config, p, payload, readable) then Idle
                                         else Ready(payload, s.pcs.At(p).drained))))
  {
    RunSnoc(cfg, start, run, Step(p, Collect(payload, readable)));
  }

  lemma Abandons(cfg: Config, start: State, run: seq<Label>, s: State, p: Proc)
    requires Run(cfg, start, run) == Some(s) && s.pcs.At(p).Flushed?
    ensures Run(cfg, start, run + [Step(p, Abandon)]) == Some(s.(pcs := s.pcs.With(p, Idle)))
  {
    RunSnoc(cfg, start, run, Step(p, Abandon));
  }

  lemma LocksForSend(cfg: Config, start: State, run: seq<Label>, s: State, p: Proc, payload: Bytes, drained: bool)
    requires Run(cfg, start, run) == Some(s) && s.pcs.At(p) == Ready(payload, drained)
    requires cfg.engine(p) !in s.holders
    ensures Run(cfg, start, run + [Step(p, LockForSend)]) ==
            Some(s.(holders := s.holders[cfg.engine(p) := p], pcs := s.pcs.With(p, SendLocked(payload, drained))))
  {
    RunSnoc(cfg, start, run, Step(p, LockForSend));
  }

  lemma ReadsTokenForPayload(cfg: Config, start: State, run: seq<Label>, s: State, p: Proc,
                             payload: Bytes, drained: bool, ok: bool)
    requires Run(cfg, start, run) == Some(s) && s.pcs.At(p) == SendLocked(payload, drained)
    ensures Run(cfg, start, run + [Step(p, ReadToken(ok))]) ==
            Some(if ok then s.(pcs := s.pcs.With(p, LiveSending(payload, drained, 0)))
                 else s.(holders := s.holders - {cfg.engine(p)}, pcs := s.pcs.With(p, Idle)))
  {
    RunSnoc(cfg, start, run, Step(p, ReadToken(ok)));
  }

  lemma Queues(cfg: Config, start: State, run: seq<Label>, s: State, p: Proc, payload: Bytes, insert: Insert)
    requires Run(cfg, start, run) == Some(s) && s.pcs.At(p) == LiveFailed(payload)
    ensures var row := Row(NextId(s.rows), KindOf(p), payload, |s.enqueued|);
            Run(cfg, start, run + [Step(p, Queue(insert))]) ==
            Some(if insert.Inserted?
                 then s.(rows := s.rows + [row], enqueued := s.enqueued + [row],
                         holders := s.holders - {cfg.engine(p)}, pcs := s.pcs.With(p, Persisting(payload)))
                 else s.(holders := s.holders - {cfg.engine(p)}, pcs := s.pcs.With(p, Idle)))
  {
    hide Run, NextId;
    RunSnoc(cfg, start, run, Step(p, Queue(insert)));
  }

  lemma Persists(cfg: Config, start: State, run: seq<Label>, s: State, p: Proc, payload: Bytes, ok: bool)
    requires Run(cfg, start, run) == Some(s) && s.pcs.At(p) == Persisting(payload)
    ensures Run(cfg, start, run + [Step(p, Persist(ok))]) ==
            Some(s.(pcs := s.pcs.With(p, Idle),
                    config := if ok && FingerprintKey(p).Some?
                              then s.config[FingerprintKey(p).value := cfg.fingerprint(payload)] else s.config))
  {
    RunSnoc(cfg, start, run, Step(p, Persist(ok)));
  }

  lemma PutsOther(cfg: Config, start: State, run: seq<Label>, s: State, p: Proc, key: Key, value: string)
    requires Run(cfg, start, run) == Some(s) && !IsFingerprintKey(key)
    ensures Run(cfg, start, run + [Step(p, PutOther(key, value))]) == Some(s.(config := s.config[key := value]))
  {
    RunSnoc(cfg, start, run, Step(p, PutOther(key, value)));
  }
}
