// Files are taken in the order of their names, whoever wrote them: while a file waits in the writing
// directory, no later one is moved out of it or read.

module QueueByName {
  import opened QueueTypes
  import opened QueueFiles
  import opened QueueInvariant
  import opened QueueHistory

  /** File n was neither moved for reading nor picked, and nothing of it was handed over. */
  ghost predicate Waits(s: State, n: Name) {
    && n in s.files && s.files[n].dir != Reading && s.files[n].tracker.None? && s.files[n].seen == 0
    && s.reader != Renaming(n) && !Holds(s.reader, n)
  }

  /** What left the writing directory was moved or unlinked, and does not come back. */
  lemma GoneForGood(s: State, st: Step, m: Name)
    requires Enabled(s, st) && m in s.files && InDir(Do(s, st), m, Writing)
    requires st.Create? ==> s.writers[st.w].last.value !in s.files
    ensures InDir(s, m, Writing)
  {
  }

  lemma StillWaits(s: State, st: Step, m: Name, n: Name)
    requires ReaderOk(s) && Enabled(s, st) && m < n && InDir(s, m, Writing) && Waits(s, n)
    requires st.Create? ==> s.writers[st.w].last.value !in s.files
    ensures Waits(Do(s, st), n)
  {
  }

  lemma {:induction false} WaitsOver(s: State, steps: seq<Step>, m: Name, n: Name)
    requires Inv(s) && HistoryOk(s) && Valid(s, steps) && m < n && m in s.files && Waits(s, n)
    requires InDir(Run(s, steps), m, Writing)
    ensures InDir(s, m, Writing) && Waits(Run(s, steps), n)
    ensures Inv(Run(s, steps)) && HistoryOk(Run(s, steps))
    decreases |steps|
  {
    if steps != [] {
      var st := steps[0];
      if st.Create? {
        CreateIsFresh(s, st.w);
      }
      InvStep(s, st);
      HistoryStep(s, st);
      FilesStay(s, st, m);
      if InDir(s, m, Writing) {
        StillWaits(s, st, m, n);
        WaitsOver(Do(s, st), steps[1..], m, n);
      } else {
        NeverBack(Do(s, st), steps[1..], m);
        GoneForGood(s, st, m);
      }
    }
  }

  lemma FilesStay(s: State, st: Step, m: Name)
    requires Enabled(s, st) && m in s.files
    ensures m in Do(s, st).files
  {
  }

  lemma {:induction false} NeverBack(s: State, steps: seq<Step>, m: Name)
    requires Inv(s) && Valid(s, steps) && m in s.files && InDir(Run(s, steps), m, Writing)
    ensures InDir(s, m, Writing)
    decreases |steps|
  {
    if steps != [] {
      var st := steps[0];
      if st.Create? {
        CreateIsFresh(s, st.w);
      }
      InvStep(s, st);
      FilesStay(s, st, m);
      NeverBack(Do(s, st), steps[1..], m);
      GoneForGood(s, st, m);
    }
  }

  /**
   * Of two files in the writing directory, the reader takes the one whose name comes first, whatever their
   * writers: from any reached state in which it has not picked the later one, over every continuation at whose end
   * the earlier one is still there, the later one is not moved to the reading directory, and none of its lines is
   * handed over.
   */
  lemma EarlierFirst(ids: set<WriterId>, before: seq<Step>, more: seq<Step>, m: Name, n: Name)
    requires Valid(Init(ids), before) && Valid(Run(Init(ids), before), more) && m < n
    requires var s := Run(Init(ids), before);
             InDir(s, m, Writing) && InDir(s, n, Writing) && s.reader != Renaming(n)
    requires InDir(Run(Run(Init(ids), before), more), m, Writing)
    ensures var s' := Run(Run(Init(ids), before), more);
            && n in s'.files && s'.files[n].dir != Reading
            && forall l | l in s'.files[n].lines :: l !in s'.handed
  {
    var s := Run(Init(ids), before);
    InvInit(ids);
    InvRun(Init(ids), before);
    HistoryRun(Init(ids), before);
    assert FileOk(s, n);
    WaitsOver(s, more, m, n);
    assert CountersOk(Run(s, more), n);
  }
}
