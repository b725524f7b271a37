/** The changes a producer reports over its whole life, and the stored timeline. */
module ChangeHistory {
  import opened Common
  import opened Hardware
  import opened Intelligence
  import opened Difference

  /** An entry of the stored timeline. */
  datatype Event = Event(time: string, fingerprint: string, changes: seq<Change>)

  const TIMELINE: nat := 50

  /** The last 50 entries. */
  function LastFifty(events: seq<Event>): (kept: seq<Event>)
    ensures |kept| == (if |events| < 50 then |events| else 50) && kept == events[|events| - |kept|..]
  {
    if |events| > TIMELINE then events[|events| - TIMELINE..] else events
  }

  /** Cutting to fifty after every entry keeps the last fifty of all entries. */
  lemma LastFiftyAppends(events: seq<Event>, e: Event)
    ensures LastFifty(LastFifty(events) + [e]) == LastFifty(events + [e])
  {
  }

  // ---------------------------------------------------------------- chains of differences

  /** A snapshot handed over (sent or queued), with the changes its payload lists; whether the stored
      snapshot could be read for it, and whether it was stored itself. */
  datatype Emission<S, C> = Emission(snapshot: S, changes: seq<C>, read: bool, stored: bool)

  /** The snapshot in the store: the last one whose Put succeeded. */
  function LastStored<S, C>(history: seq<Emission<S, C>>): Option<S> {
    if history == [] then None
    else
      var last := history[|history| - 1];
      if last.stored then Some(last.snapshot) else LastStored(history[..|history| - 1])
  }

  lemma LastStoredAppends<S, C>(history: seq<Emission<S, C>>, e: Emission<S, C>)
    ensures LastStored(history + [e]) == if e.stored then Some(e.snapshot) else LastStored(history)
  {
    assert (history + [e])[..|history|] == history;
  }

  /** What the next payload is compared with. */
  function Base<S, C>(history: seq<Emission<S, C>>, read: bool): Option<S> {
    if read then LastStored(history) else None
  }

  /** Each payload lists the difference from what was stored and could be read. */
  ghost predicate Linked<S, C>(diff: (Option<S>, S) -> seq<C>, history: seq<Emission<S, C>>) {
    forall i :: 0 <= i < |history| ==>
      history[i].changes == diff(Base(history[..i], history[i].read), history[i].snapshot)
  }

  lemma LinkedAppends<S, C>(diff: (Option<S>, S) -> seq<C>, history: seq<Emission<S, C>>, e: Emission<S, C>)
    requires Linked(diff, history) && e.changes == diff(Base(history, e.read), e.snapshot)
    ensures Linked(diff, history + [e])
  {
    hide LastStored;
    var longer := history + [e];
    forall i | 0 <= i < |longer|
      ensures longer[i].changes == diff(Base(longer[..i], longer[i].read), longer[i].snapshot)
    {
      assert longer[..i] == history[..i];
      assert history[..|history|] == history;
    }
  }

  /** Whatever tells two snapshots apart is marked in their difference, and `whole` in that from nothing. */
  ghost predicate Marks<S(!new), C, V>(diff: (Option<S>, S) -> seq<C>, content: S -> V, mark: C, whole: C) {
    && (forall a, b :: content(a) != content(b) ==> mark in diff(Some(a), b))
    && (forall b :: whole in diff(None, b))
  }

  /** Some payload after the i-th and up to the j-th lists `mark`, or `whole`. */
  ghost predicate ListedBetween<S, C>(history: seq<Emission<S, C>>, i: nat, j: nat, mark: C, whole: C)
    requires j < |history|
  {
    exists k :: i < k <= j && (mark in history[k].changes || whole in history[k].changes)
  }

  /** After a snapshot was stored, the store holds it or a later one. */
  lemma {:induction false} StoredSince<S, C>(history: seq<Emission<S, C>>, i: nat) returns (m: nat)
    requires i < |history| && history[i].stored
    ensures i <= m < |history| && history[m].stored && LastStored(history) == Some(history[m].snapshot)
  {
    var n := |history| - 1;
    m := n;
    if !history[n].stored { m := StoredSince(history[..n], i); }
  }

  lemma MarkedInLater<S(!new), C, V>(diff: (Option<S>, S) -> seq<C>, content: S -> V, mark: C, whole: C,
                                     history: seq<Emission<S, C>>, m: nat, j: nat)
    requires Linked(diff, history) && Marks(diff, content, mark, whole) && m < j < |history|
    requires LastStored(history[..j]) == Some(history[m].snapshot)
    ensures !history[j].read ==> whole in history[j].changes
    ensures history[j].read && content(history[m].snapshot) != content(history[j].snapshot) ==>
              mark in history[j].changes
  {
    hide LastStored;
  }

  lemma {:induction false} Telescopes<S(!new), C, V>(
    diff: (Option<S>, S) -> seq<C>, content: S -> V, mark: C, whole: C,
    history: seq<Emission<S, C>>, i: nat, j: nat)
    requires Linked(diff, history) && Marks(diff, content, mark, whole) && i < j < |history|
    requires history[i].stored && content(history[i].snapshot) != content(history[j].snapshot)
    ensures ListedBetween(history, i, j, mark, whole)
    decreases j
  {
    hide Marks, Linked, LastStored;
    var m := StoredSince(history[..j], i);
    assert history[..j][m] == history[m];
    MarkedInLater(diff, content, mark, whole, history, m, j);
    if history[j].read && content(history[m].snapshot) == content(history[j].snapshot) {
      Telescopes(diff, content, mark, whole, history, i, m);
    }
  }

  // ---------------------------------------------------------------- hardware snapshots

  type Handed = Emission<Snapshot, Change>

  ghost predicate Chained(history: seq<Handed>) { Linked(Diff, history) }

  /** What section `s` of a snapshot shows. */
  function Shown(s: Section): Snapshot -> Content
    requires !s.WholeHardware?
  {
    (h: Snapshot) => ContentOf(s, Normalized(h))
  }

  lemma DiffMarks(s: Section)
    requires !s.WholeHardware?
    ensures Marks(Diff, Shown(s), ChangeOf(s), ChangeOf(WholeHardware))
  {
    forall b ensures ChangeOf(WholeHardware) in Diff(None, b) {}
    hide Form, ContentOf, Diff;
    forall a, b | Shown(s)(a) != Shown(s)(b) ensures ChangeOf(s) in Diff(Some(a), b) {
      DiffListsIffDiffers(a, b, s);
    }
  }

  /** Section `s` differs between the i-th and the j-th snapshot handed over. */
  ghost predicate DiffersBetween(history: seq<Handed>, i: nat, j: nat, s: Section) {
    i < j < |history| && !s.WholeHardware? && Shown(s)(history[i].snapshot) != Shown(s)(history[j].snapshot)
  }

  /** Change history telescopes: once a snapshot is stored, a section that differs between it and a
      later one is listed by some payload after the first and up to the second, unless one of them
      reports the whole machine as new. Whatever runs were skipped or failed in between, and
      whatever could not be read or stored after the first. */
  lemma ChangesTelescope(history: seq<Handed>, i: nat, j: nat, s: Section)
    requires Chained(history) && DiffersBetween(history, i, j, s) && history[i].stored
    ensures ListedBetween(history, i, j, ChangeOf(s), ChangeOf(WholeHardware))
  {
    DiffMarks(s);
    Telescopes(Diff, Shown(s), ChangeOf(s), ChangeOf(WholeHardware), history, i, j);
  }

  /** A payload reports the whole machine as new exactly when no snapshot had been stored before it,
      or the stored one could not be read. */
  lemma InitialIff(history: seq<Handed>, j: nat)
    requires Chained(history) && j < |history|
    ensures Lists(history[j].changes, WholeHardware) <==> !history[j].read || LastStored(history[..j]).None?
  {
    var base := Base(history[..j], history[j].read);
    if base.Some? { DiffListsIffDiffers(base.value, history[j].snapshot, WholeHardware); }
  }

  /** A payload that lists no change carries a new disk section or serial number, or a snapshot with the
      normal form of the one stored. */
  lemma NoChangeListed(history: seq<Handed>, j: nat)
    requires Chained(history) && j < |history| && history[j].changes == []
    ensures history[j].read && LastStored(history[..j]).Some?
    ensures var a, b := LastStored(history[..j]).value, history[j].snapshot;
            Normalized(a) != Normalized(b) ==>
              Normalized(a).disk != Normalized(b).disk || a.serialNumber != b.serialNumber
  {
    var base := Base(history[..j], history[j].read);
    if base.Some? { EmptyDiffIffSameForm(base.value, history[j].snapshot); }
  }
}
