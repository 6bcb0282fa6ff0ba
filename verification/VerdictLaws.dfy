/** What the verdict says exactly, on every event list. */
module VerdictLaws {
  import opened MarketTypes
  import opened Differential
  import opened ReplaySpec

  // ----- taint -----

  /** The k-th recorded order compares like this. */
  ghost predicate DiffIs(t: Tally, k: nat, v: Verdict) {
    k < |t.aggressors| && DiffOf(t, t.aggressors[k]) == v
  }

  /** An earlier-judged order on the same ticker, with a smaller sequence number, had a fill against an unknown maker. */
  ghost predicate UnknownMakerBefore(t: Tally, n: nat, ticker: string, seqNo: nat) {
    exists j :: 0 <= j < n && DiffIs(t, j, Unverified)
      && ticker != "" && TickerOf(t, t.aggressors[j]) == ticker && SeqOf(t, t.aggressors[j]) < seqNo
  }

  /** Some loss earlier on this ticker may explain a divergence at `seqNo`: an unknown outcome or an unknown maker. */
  ghost predicate Suspect(t: Tally, n: nat, ticker: string, seqNo: nat) {
    TaintedAt(t.firstUnverifiable, ticker, seqNo) || UnknownMakerBefore(t, n, ticker, seqNo)
  }

  lemma MarkTaintFacts(first: map<string, nat>, mark: string, at: nat, ticker: string, seqNo: nat)
    ensures TaintedAt(MarkTaint(first, mark, at), ticker, seqNo)
      <==> TaintedAt(first, ticker, seqNo) || (ticker == mark && mark != "" && at < seqNo)
  {
  }

  /** Without global taint the running taint map says exactly which orders are suspect. */
  lemma {:induction false} TaintIsSuspicion(t: Tally, n: nat, ticker: string, seqNo: nat)
    requires n <= |t.aggressors| && !GlobalTaint(t)
    ensures TaintedAt(Judge(t, n).first, ticker, seqNo) <==> Suspect(t, n, ticker, seqNo)
  {
    hide Diff, GlobalTaint;
    if 0 < n {
      TaintIsSuspicion(t, n - 1, ticker, seqNo);
      var agg := t.aggressors[n - 1];
      TaintIsSuspicion(t, n - 1, TickerOf(t, agg), SeqOf(t, agg));
      MarkTaintFacts(Judge(t, n - 1).first, TickerOf(t, agg), SeqOf(t, agg), ticker, seqNo);
      assert UnknownMakerBefore(t, n, ticker, seqNo) <==> (
          || UnknownMakerBefore(t, n - 1, ticker, seqNo)
          || (DiffIs(t, n - 1, Unverified) && ticker != "" && TickerOf(t, agg) == ticker && SeqOf(t, agg) < seqNo));
    }
  }

  // ----- the running totals -----

  /** Order `k` diverges although nothing could excuse it. */
  ghost predicate CleanDivergence(t: Tally, k: nat) {
    && DiffIs(t, k, Incorrect) && !GlobalTaint(t)
    && !Suspect(t, k, TickerOf(t, t.aggressors[k]), SeqOf(t, t.aggressors[k]))
  }

  lemma {:induction false} JudgedSoFar(t: Tally, n: nat)
    requires n <= |t.aggressors|
    ensures var j := Judge(t, n);
      && (j.hard <==> exists k :: 0 <= k < n && CleanDivergence(t, k))
      && (0 < j.unverifiable <==> exists k :: 0 <= k < n && DiffIs(t, k, Unverified))
      && (0 < j.mismatches || j.hard <==> exists k :: 0 <= k < n && DiffIs(t, k, Incorrect))
  {
    hide Diff, GlobalTaint, TaintedAt, Suspect;
    if 0 < n {
      JudgedSoFar(t, n - 1);
      var agg := t.aggressors[n - 1];
      if !GlobalTaint(t) {
        TaintIsSuspicion(t, n - 1, TickerOf(t, agg), SeqOf(t, agg));
      }
      assert DiffIs(t, n - 1, DiffOf(t, agg));
      var before := Judge(t, n - 1);
      assert CleanDivergence(t, n - 1) <==>
        DiffOf(t, agg) == Incorrect && !GlobalTaint(t) && !TaintedAt(before.first, TickerOf(t, agg), SeqOf(t, agg));
      assert Judge(t, n).hard <==> before.hard || CleanDivergence(t, n - 1);
    }
  }

  // ----- the verdict -----

  /** Incorrect means exactly: some order diverged and nothing recorded before it could excuse the divergence. */
  lemma IncorrectIff(t: Tally)
    ensures VerdictOf(t) == Incorrect <==> exists k :: 0 <= k < |t.aggressors| && CleanDivergence(t, k)
  {
    hide Judge, CleanDivergence;
    JudgedSoFar(t, |t.aggressors|);
  }

  /** Correct means exactly: every order agreed, no fill is orphaned, and under 5% of the attempts are unverifiable. */
  lemma CorrectIff(t: Tally)
    requires t.unknown <= t.attempts
    ensures VerdictOf(t) == Correct <==>
      && (forall k :: 0 <= k < |t.aggressors| ==> DiffIs(t, k, Correct))
      && Orphans(t) == {}
      && ((t.attempts == 0 && Gap(t) == 0) || 20 * (t.unknown + Gap(t)) < t.attempts)
  {
    hide Judge, CleanDivergence, Gap, Diff;
    JudgedSoFar(t, |t.aggressors|);
    forall k | 0 <= k < |t.aggressors|
      ensures DiffIs(t, k, Correct) <==> !DiffIs(t, k, Incorrect) && !DiffIs(t, k, Unverified)
    {
    }
    var j := Judge(t, |t.aggressors|);
    assert (forall k :: 0 <= k < |t.aggressors| ==> DiffIs(t, k, Correct)) <==> j.mismatches == 0 && j.unverifiable == 0 && !j.hard;
    assert Orphans(t) == {} <==> |Orphans(t)| == 0;
  }
}
