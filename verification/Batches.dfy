/** A recovery batch is one transaction in the store and a sequence of steps in a run. */
module Batches {
  import opened Basics
  import opened Transactions
  import opened Protocol
  import opened Invariants

  lemma {:induction false} RunAppend(w: World, events: seq<Event>, e: Event)
    requires Inv(w) && HonestRun(w, events) && Honest(Run(w, events), e)
    ensures HonestRun(w, events + [e]) && Run(w, events + [e]) == Apply(Run(w, events), e)
    decreases |events|
  {
    hide RowSound, Chains.Chained, Apply, Honest;
    if events == [] {
      assert events + [e] == [e] && [e][1..] == [];
      Step(w, e);
    } else {
      Step(w, events[0]);
      assert (events + [e])[1..] == events[1..] + [e];
      RunAppend(Apply(w, events[0]), events[1..], e);
    }
  }

  function Recoveries(ids: seq<(nat, int)>, clocks: seq<Instant>): seq<Event>
    requires |ids| == |clocks|
  {
    if ids == [] then []
    else Recoveries(ids[..|ids| - 1], clocks[..|ids| - 1]) + [DoRecover(ids[|ids| - 1].0, ids[|ids| - 1].1, clocks[|ids| - 1])]
  }

  /** A committed batch leaves exactly what recovering its rows one after the other leaves. */
  lemma {:induction false} BatchIsRun(w: World, ids: seq<(nat, int)>, clocks: seq<Instant>)
    requires Inv(w) && |ids| == |clocks| && RecoverAll(w.db, ids, clocks).Commit?
    ensures HonestRun(w, Recoveries(ids, clocks))
    ensures Run(w, Recoveries(ids, clocks)).db == RecoverAll(w.db, ids, clocks).db
    decreases |ids|
  {
    hide RowSound, Chains.Chained, RecoverOne;
    if ids != [] {
      var n := |ids| - 1;
      BatchIsRun(w, ids[..n], clocks[..n]);
      RunAppend(w, Recoveries(ids[..n], clocks[..n]), DoRecover(ids[n].0, ids[n].1, clocks[n]));
    }
  }
}
