/** What a sequence of delivery reports does to the hybrid manager: the mode it leaves, and whether it opens a line. */
module Reports {
  import opened Collections
  import opened Protocol
  import opened HybridLine

  /** What the last report on a managed key said. */
  function LastWord(rs: seq<Report>): Option<bool> {
    if rs == [] then None
    else if Managed(rs[|rs| - 1].key) then Some(rs[|rs| - 1].delivered)
    else LastWord(rs[..|rs| - 1])
  }

  /** Some report on a managed key tells of a failure. */
  predicate HasFailure(rs: seq<Report>) {
    exists i :: 0 <= i < |rs| && Managed(rs[i].key) && !rs[i].delivered
  }

  lemma HasFailureStep(rs: seq<Report>)
    requires rs != []
    ensures var last := rs[|rs| - 1];
            HasFailure(rs) <==> HasFailure(rs[..|rs| - 1]) || (Managed(last.key) && !last.delivered)
  {
    var front := rs[..|rs| - 1];
    if HasFailure(rs) {
      var i :| 0 <= i < |rs| && Managed(rs[i].key) && !rs[i].delivered;
      assert i < |front| ==> front[i] == rs[i];
    }
    if HasFailure(front) {
      var i :| 0 <= i < |front| && Managed(front[i].key) && !front[i].delivered;
      assert rs[i] == front[i];
    }
  }

  lemma {:induction false} LastWordTells(rs: seq<Report>)
    ensures LastWord(rs) == None ==> !HasFailure(rs)
    ensures LastWord(rs) == Some(false) ==> HasFailure(rs)
  {
    if rs != [] {
      LastWordTells(rs[..|rs| - 1]);
      HasFailureStep(rs);
    }
  }

  lemma {:induction false} BothWindows(first: seq<Report>, next: seq<Report>)
    ensures LastWord(first + next) == if LastWord(next) == None then LastWord(first) else LastWord(next)
    ensures HasFailure(first + next) <==> HasFailure(first) || HasFailure(next)
  {
    if next == [] {
      assert first + next == first;
    } else {
      var rs := first + next;
      assert rs[..|rs| - 1] == first + next[..|next| - 1];
      BothWindows(first, next[..|next| - 1]);
      HasFailureStep(rs);
      HasFailureStep(next);
    }
  }

  /** The mode the last report on a managed key asks for, if it reaches the manager. */
  function ModeAfter(s: Sys, rs: seq<Report>): Mode {
    match LastWord(rs)
    case None => s.mode
    case Some(delivered) => if !s.Enabled() then s.mode else if delivered then DeltaStateMode else CompleteStateMode
  }

  /** The mode after a sequence of reports is set by the last one that reached the manager. */
  lemma {:induction false} ModeFollowsLastWord(s: Sys, rs: seq<Report>)
    ensures Deliver(s, rs).mode == ModeAfter(s, rs)
  {
    if rs != [] {
      ModeFollowsLastWord(s, rs[..|rs| - 1]);
      DeliverEffect(s, rs[..|rs| - 1]);
    }
  }

  lemma {:induction false} NothingHeard(s: Sys, rs: seq<Report>)
    requires LastWord(rs) == None
    ensures Deliver(s, rs) == s
  {
    if rs != [] {
      NothingHeard(s, rs[..|rs| - 1]);
    }
  }

  /** Reports on delta messages never reach the manager, since their keys carry the ID: a failed delta delivery does not
      bring complete mode back. */
  lemma {:induction false} DeltaReportsGoNowhere(s: Sys, rs: seq<Report>)
    requires forall i :: 0 <= i < |rs| ==> rs[i].key.Numbered?
    ensures s.MessageFor(DeltaKind).key.Numbered? && Deliver(s, rs) == s
  {
    if rs != [] {
      DeltaReportsGoNowhere(s, rs[..|rs| - 1]);
    }
  }

  /** No attempt was made on the line yet, and nothing is pending. */
  predicate Unattempted(s: Sys) {
    s.attempts == [] && s.sentDeltaCount == 0 && s.delta.transportationId == 0 && s.delta.pending == []
  }

  /** Reports alone change the mode only, or leave a fresh line without attempts. */
  ghost predicate AfterReports(s: Sys, t: Sys) {
    && SameSending(s, t) && t.line >= s.line
    && (t.line == s.line ==> t == s.(mode := t.mode))
    && (t.line > s.line ==> FreshLine(t) && Unattempted(t))
  }

  lemma {:induction false} ReportsEffect(s: Sys, rs: seq<Report>)
    ensures AfterReports(s, Deliver(s, rs))
  {
    if rs != [] {
      ReportsEffect(s, rs[..|rs| - 1]);
    }
  }

  /** Delta mode after some reports is that of a new line exactly when the last word was a success and complete mode was
      active at some point before it. */
  lemma {:induction false} WhenReportsOpen(s: Sys, rs: seq<Report>)
    requires s.Enabled() && Deliver(s, rs).mode == DeltaStateMode
    ensures Deliver(s, rs).line > s.line <==>
              LastWord(rs) == Some(true) && (s.mode == CompleteStateMode || HasFailure(rs))
  {
    if rs != [] {
      var front := rs[..|rs| - 1];
      var f := Deliver(s, front);
      ReportsEffect(s, front);
      ModeFollowsLastWord(s, front);
      LastWordTells(front);
      HasFailureStep(rs);
      if f.mode == DeltaStateMode {
        WhenReportsOpen(s, front);
      }
    }
  }

  /** In delta mode only a failure is heard. */
  lemma {:induction false} OnlyFailuresMatter(s: Sys, rs: seq<Report>)
    requires s.mode == DeltaStateMode && !HasFailure(rs)
    ensures Deliver(s, rs) == s
  {
    if rs != [] {
      HasFailureStep(rs);
      OnlyFailuresMatter(s, rs[..|rs| - 1]);
    }
  }
}
