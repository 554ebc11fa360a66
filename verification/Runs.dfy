/** Everything that holds in every reachable state. */
module Runs {
  import opened Schema
  import opened World
  import opened ObjectRuns
  import opened UploadRuns
  import opened AccountRuns

  ghost predicate Inv(w: World) {
    AlbumsInv(w) && ObjectsInv(w) && RowsInv(w.db, w.hist.reserved) && AccountsInv(w)
  }

  lemma InvIsAlbums(w: World)
    requires Inv(w)
    ensures AlbumsInv(w)
  {
  }

  ghost predicate Reachable(w: World) {
    exists es :: Run(START, es) && Exec(START, es) == w
  }

  lemma InvStep(w: World, e: Event)
    requires Inv(w) && Feasible(w, e)
    ensures Inv(Step(w, e))
  {
    hide AlbumsInv, ObjectsInv, RowsInv, AccountsInv, Step, Feasible;
    AlbumsStep(w, e);
    ObjectsStep(w, e);
    RowsStep(w, e);
    AccountsStep(w, e);
  }

  lemma {:induction false} InvHolds(w: World, es: seq<Event>)
    requires Inv(w) && Run(w, es)
    ensures Inv(Exec(w, es))
    decreases |es|
  {
    hide Inv, Step, Feasible;
    if es != [] {
      InvStep(w, es[0]);
      InvHolds(Step(w, es[0]), es[1..]);
    }
  }

  lemma StartInv()
    ensures Inv(START)
  {
    NothingStored();
  }

  lemma ReachableInv(w: World)
    requires Reachable(w)
    ensures Inv(w)
  {
    hide Inv;
    var es :| Run(START, es) && Exec(START, es) == w;
    StartInv();
    InvHolds(START, es);
  }

  lemma StillReachable(w: World, e: Event)
    requires Reachable(w) && Feasible(w, e)
    ensures Reachable(Step(w, e))
  {
    hide Step, Feasible, Run, Exec;
    var es :| Run(START, es) && Exec(START, es) == w;
    OneEvent(w, e);
    RunSplits(START, es, [e]);
  }
}
