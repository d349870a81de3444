/** The early-stopping counter of src/utils/Stopper.py. Losses are compared
    only, so they are `real`; `int(now_trials * 0.8)` on the non-negative
    counter is `(4 * now_trials) / 5`. */
module EarlyStopping {

  /** The two fields `can_stop` updates. */
  datatype Progress = Progress(nowTrials: int, bestLoss: real)

  /** The fields of a new Stopper. */
  const Initial: Progress := Progress(0, 1000000000.0)

  /** What one `can_stop(loss)` call answers and the fields it leaves. */
  function Next(trials: int, p: Progress, loss: real): (r: (bool, Progress))
    requires p.nowTrials >= 0
    ensures loss < p.bestLoss ==> !r.0 && r.1 == Progress((4 * p.nowTrials) / 5, loss)
    ensures loss >= p.bestLoss && p.nowTrials + 1 < trials ==> !r.0 && r.1 == Progress(p.nowTrials + 1, p.bestLoss)
    ensures r.0 <==> loss >= p.bestLoss && p.nowTrials + 1 >= trials
    ensures r.0 ==> r.1 == p
    ensures r.1.bestLoss <= p.bestLoss
    ensures 0 <= r.1.nowTrials
    ensures p.nowTrials <= trials - 1 ==> r.1.nowTrials <= trials - 1
  {
    if loss < p.bestLoss then (false, Progress((4 * p.nowTrials) / 5, loss))
    else if p.nowTrials + 1 < trials then (false, Progress(p.nowTrials + 1, p.bestLoss))
    else (true, p)
  }

  /** The answers of successive `can_stop` calls fed `losses` in order, and the final fields. */
  function Feed(trials: int, p: Progress, losses: seq<real>): (r: (seq<bool>, Progress))
    requires p.nowTrials >= 0
    ensures |r.0| == |losses|
    ensures r.1.bestLoss <= p.bestLoss
    ensures r.1.nowTrials >= 0
    decreases |losses|
  {
    if losses == [] then ([], p)
    else
      var (stop, p') := Next(trials, p, losses[0]);
      var (rest, last) := Feed(trials, p', losses[1..]);
      ([stop] + rest, last)
  }

  /** The counter bound holds before and after every call when trials >= 1. */
  lemma {:induction false} FeedKeepsBound(trials: int, p: Progress, losses: seq<real>)
    requires trials >= 1 && 0 <= p.nowTrials <= trials - 1
    ensures 0 <= Feed(trials, p, losses).1.nowTrials <= trials - 1
    decreases |losses|
  {
    if losses != [] {
      var p' := Next(trials, p, losses[0]).1;
      FeedKeepsBound(trials, p', losses[1..]);
    }
  }

  /** The best loss never increases over any run of calls, and it is never
      above any loss seen. */
  lemma {:induction false} BestLossIsMinimum(trials: int, p: Progress, losses: seq<real>)
    requires p.nowTrials >= 0
    ensures forall i | 0 <= i < |losses| :: Feed(trials, p, losses).1.bestLoss <= losses[i]
    decreases |losses|
  {
    if losses != [] {
      var p' := Next(trials, p, losses[0]).1;
      BestLossIsMinimum(trials, p', losses[1..]);
      forall i | 0 <= i < |losses|
        ensures Feed(trials, p, losses).1.bestLoss <= losses[i]
      {
        if i > 0 {
          assert losses[i] == losses[1..][i - 1];
        }
      }
    }
  }

  /** A run of losses none of which beats the best loss: the counter climbs
      by one per call and the first call it cannot climb answers True. */
  lemma {:induction false} NonImprovingRunStops(trials: int, p: Progress, losses: seq<real>)
    requires p.nowTrials >= 0
    requires |losses| >= 1 && |losses| >= trials - p.nowTrials
    requires forall i | 0 <= i < |losses| :: losses[i] >= p.bestLoss
    ensures Feed(trials, p, losses).0[|losses| - 1]
    decreases |losses|
  {
    var (stop, p') := Next(trials, p, losses[0]);
    if |losses| > 1 {
      assert p'.bestLoss == p.bestLoss;
      forall i | 0 <= i < |losses| - 1 ensures losses[1..][i] >= p'.bestLoss {
        assert losses[1..][i] == losses[i + 1];
      }
      NonImprovingRunStops(trials, p', losses[1..]);
    }
  }

  /** From any reachable state, `trials` consecutive non-improving losses (at
      least one) end with `can_stop` answering True. */
  lemma StopsAfterTrialsNonImproving(trials: int, p: Progress, losses: seq<real>)
    requires 0 <= p.nowTrials
    requires |losses| == if trials >= 1 then trials else 1
    requires forall i | 0 <= i < |losses| :: losses[i] >= p.bestLoss
    ensures Feed(trials, p, losses).0[|losses| - 1]
  {
    NonImprovingRunStops(trials, p, losses);
  }

  /** The stopper object: `trials` is fixed, `can_stop` updates the other two fields. */
  class Stopper {
    const trials: int
    var nowTrials: int
    var bestLoss: real

    ghost predicate Valid()
      reads this
    {
      nowTrials >= 0
    }

    constructor (trials: int)
      ensures Valid() && this.trials == trials
      ensures Progress(nowTrials, bestLoss) == Initial
    {
      this.trials := trials;
      nowTrials := 0;
      bestLoss := 1000000000.0;
    }

    /** `can_stop(current_loss)`. */
    method CanStop(currentLoss: real) returns (stop: bool)
      requires Valid()
      modifies this
      ensures Valid()
      ensures (stop, Progress(nowTrials, bestLoss)) == Next(trials, old(Progress(nowTrials, bestLoss)), currentLoss)
    {
      if currentLoss < bestLoss {
        bestLoss := currentLoss;
        nowTrials := (4 * nowTrials) / 5;
        return false;
      } else if nowTrials + 1 < trials {
        nowTrials := nowTrials + 1;
        return false;
      } else {
        return true;
      }
    }
  }
}
