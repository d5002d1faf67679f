/** Progress that has been saved is not lost again. */
module ProtocolSaves {
  import opened Protocol
  import opened ProtocolSafety
  import opened ProtocolThief

  /** What is in the control file is done, and so is what a save under way has copied, which is no less. */
  ghost predicate SavedIsDone(c: Config, s: State)
    requires Shape(c, s)
  {
    && (forall i :: 0 <= i < |s.saved| ==> s.saved[i] <= s.pieces[i].done)
    && forall i :: 0 <= i < |s.snap| ==> s.saved[i] <= s.snap[i] <= s.pieces[i].done
  }

  ghost predicate SavedGrows(s: State, t: State) {
    |t.saved| == |s.saved| && forall i :: 0 <= i < |s.saved| ==> s.saved[i] <= t.saved[i]
  }

  lemma ActKeepsSaved(c: Config, s: State, w: nat, m: Move)
    requires Moves(c, s, w, m) && SavedIsDone(c, s)
    ensures var t := Apply(c, s, Act(w, m)); Shape(c, t) && SavedIsDone(c, t) && t.saved == s.saved
  {
    ApplyShape(c, s, Act(w, m));
    DoneGrows(c, s, w, m);
  }

  lemma SnapKeepsSaved(c: Config, s: State, st: Step)
    requires Steps(c, s, st) && SavedIsDone(c, s) && (st.SnapPiece? || st.SnapCommit? || st.SnapDrop?)
    ensures var t := Apply(c, s, st); Shape(c, t) && SavedIsDone(c, t) && SavedGrows(s, t)
  {
    SnapShape(c, s, st);
  }

  lemma ResumeKeepsSaved(c: Config, s: State)
    requires ConfigOk(c) && Shape(c, s)
    ensures var t := Apply(c, s, Restart(true)); Shape(c, t) && SavedIsDone(c, t) && t.saved == s.saved
  {
    RestartShape(c, s, true);
  }

  lemma StepKeepsSaved(c: Config, s: State, st: Step)
    requires Steps(c, s, st) && SavedIsDone(c, s) && st != Restart(false)
    ensures var t := Apply(c, s, st); Shape(c, t) && SavedIsDone(c, t) && SavedGrows(s, t)
  {
    match st
    case Act(w, m) => ActKeepsSaved(c, s, w, m);
    case Restart(resume) => ResumeKeepsSaved(c, s);
    case _ => SnapKeepsSaved(c, s, st);
  }

  /** Every restart of the run resumes. */
  predicate AlwaysResumes(steps: seq<Step>) {
    forall i :: 0 <= i < |steps| ==> steps[i] != Restart(false)
  }

  lemma {:induction false} RunKeepsSaved(c: Config, s: State, steps: seq<Step>, t: State)
    requires ConfigOk(c) && Run(c, s, steps, t) && SavedIsDone(c, s) && AlwaysResumes(steps)
    ensures Shape(c, t) && SavedIsDone(c, t) && SavedGrows(s, t)
    decreases |steps|
  {
    if steps != [] {
      StepKeepsSaved(c, s, steps[0]);
      RunKeepsSaved(c, Apply(c, s, steps[0]), steps[1..], t);
    }
  }

  /** What the control file holds at some point of a run is there, and done, at every later point, whatever crashes, failed
      saves and resumes come in between. */
  lemma SavedIsNeverLost(c: Config, s0: State, before: seq<Step>, s: State, after: seq<Step>, t: State)
    requires ConfigOk(c) && Init(c, s0) && Run(c, s0, before, s) && Run(c, s, after, t)
    requires AlwaysResumes(before) && AlwaysResumes(after)
    ensures Shape(c, s) && Shape(c, t)
    ensures forall i :: 0 <= i < |c.layout| ==> s.saved[i] <= t.saved[i] <= t.pieces[i].done
  {
    InitShape(c, s0);
    RunKeepsSaved(c, s0, before, s);
    RunKeepsSaved(c, s, after, t);
  }
}
