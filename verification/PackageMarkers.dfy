/** Package deployment in the Agent's control cycle: marker files that survive restarts and one
    process-local variable that does not. Any operation may fail and the process may stop between any
    two of them (internal/agent/agent.go). */
module PackageMarkers {

  /** last-, failed- and reported-package-deployment; the empty string is an absent file. */
  datatype Markers = Markers(installed: string, failed: string, reported: string)

  datatype Verdict = APPLIED | FAILED

  /** What the Agent does that others can see; a result counts as sent even when its reply is lost. */
  datatype Act = Install(id: string) | Send(id: string, verdict: Verdict)

  /** Where the control cycle is; `id` is the deployment it works on. */
  datatype Pc =
    | Idle
    | Installing(id: string)     // about to apply the packages
    | InstallDone(id: string)    // applied, installed marker not yet written
    | Restarting(id: string)     // installed marker written, Agent itself was updated
    | RestartFailed(id: string)  // restart could not be started
    | Confirm(id: string)        // installed and matching: about to report APPLIED
    | Confirmed(id: string)
    | FailSend(id: string)       // install failed or versions differ: about to report FAILED
    | FailMark(id: string)
    | FailDetail(id: string)
    | FailReport(id: string)
    | ReportOld(id: string)      // failed marker found: about to report it again
    | SentOld(id: string)

  /** `asked` lists the deployments the Manager ever asked for, the current one last. */
  datatype State = State(m: Markers, restartRequested: string, pc: Pc, acts: seq<Act>, asked: seq<string>)

  function Current(s: State): string
    requires s.asked != []
  {
    s.asked[|s.asked| - 1]
  }

  // ---------------------------------------------------------------- steps

  /** The Manager asks for a deployment it never asked for before. */
  ghost predicate Assign(s: State, s': State, id: string) {
    id != "" && id !in s.asked && s' == s.(asked := s.asked + [id])
  }

  /** The branch a control cycle takes, from the markers, the restart request and the inventory. */
  function Branch(m: Markers, restartRequested: string, id: string, matches: bool): Pc {
    if m.failed == id then (if m.reported != id then ReportOld(id) else Idle)
    else if m.installed == id then
      if m.reported != id && restartRequested != id && matches then Confirm(id)
      else if m.reported != id && restartRequested == "" then FailSend(id)
      else Idle
    else Installing(id)
  }

  ghost predicate Begin(s: State, s': State, matches: bool) {
    s.pc.Idle? && s.asked != [] && s' == s.(pc := Branch(s.m, s.restartRequested, Current(s), matches))
  }

  ghost predicate DoInstall(s: State, s': State) {
    && s.pc.Installing?
    && (s'.pc == InstallDone(s.pc.id) || s'.pc == FailSend(s.pc.id))
    && s' == s.(acts := s.acts + [Install(s.pc.id)], pc := s'.pc)
  }

  ghost predicate MarkInstalled(s: State, s': State) {
    && s.pc.InstallDone?
    && (s'.pc == Restarting(s.pc.id) || s'.pc == Idle)
    && s' == s.(m := s.m.(installed := s.pc.id), pc := s'.pc)
  }

  ghost predicate Restart(s: State, s': State) {
    && s.pc.Restarting?
    && (s'.pc == RestartFailed(s.pc.id) || s'.pc == Idle)
    && s' == s.(restartRequested := s.pc.id, pc := s'.pc)
  }

  ghost predicate SendResult(s: State, s': State) {
    match s.pc
    case Confirm(id) => s' == s.(acts := s.acts + [Send(id, APPLIED)], pc := Confirmed(id))
    case FailSend(id) => s' == s.(acts := s.acts + [Send(id, FAILED)], pc := FailMark(id))
    case ReportOld(id) => s' == s.(acts := s.acts + [Send(id, FAILED)], pc := SentOld(id))
    case RestartFailed(id) => s' == s.(acts := s.acts + [Send(id, FAILED)], pc := Idle)
    case _ => false
  }

  ghost predicate MarkFailed(s: State, s': State) {
    s.pc.FailMark? && s' == s.(m := s.m.(failed := s.pc.id), pc := FailDetail(s.pc.id))
  }

  ghost predicate WriteDetail(s: State, s': State) {
    s.pc.FailDetail? && s' == s.(pc := FailReport(s.pc.id))
  }

  ghost predicate MarkReported(s: State, s': State) {
    && (s.pc.Confirmed? || s.pc.SentOld? || s.pc.FailReport?)
    && s' == s.(m := s.m.(reported := s.pc.id), pc := Idle)
  }

  /** An error return, or the end of a cycle. */
  ghost predicate Return(s: State, s': State) { s' == s.(pc := Idle) }

  /** A crash or a restart of the process. */
  ghost predicate Crash(s: State, s': State) { s' == s.(pc := Idle, restartRequested := "") }

  ghost predicate Next(s: State, s': State) {
    || (exists id :: Assign(s, s', id)) || (exists b :: Begin(s, s', b))
    || DoInstall(s, s') || MarkInstalled(s, s') || Restart(s, s') || SendResult(s, s')
    || MarkFailed(s, s') || WriteDetail(s, s') || MarkReported(s, s') || Return(s, s') || Crash(s, s')
  }

  ghost predicate Init(s: State) {
    s.m == Markers("", "", "") && s.restartRequested == "" && s.pc == Idle && s.acts == [] && s.asked == []
  }

  ghost predicate Steps(trace: seq<State>) {
    |trace| > 0 && forall i :: 0 <= i < |trace| - 1 ==> Next(trace[i], trace[i + 1])
  }

  // ---------------------------------------------------------------- invariant

  /** `id` was asked for no later than the deployment the cycle works on. */
  ghost predicate Precedes(s: State, id: string) {
    s.pc.Idle? || exists a, b :: 0 <= a <= b < |s.asked| && s.asked[a] == id && s.asked[b] == s.pc.id
  }

  ghost predicate IsCurrent(s: State, id: string) { s.asked != [] && Current(s) == id }

  ghost predicate Distinct(s: State) {
    && (forall i, j :: 0 <= i < j < |s.asked| ==> s.asked[i] != s.asked[j])
    && "" !in s.asked
  }

  /** Stages of a cycle that found or wrote the failed marker of its own deployment. */
  predicate AfterFailure(pc: Pc) { pc.FailDetail? || pc.FailReport? || pc.ReportOld? || pc.SentOld? }

  /** What the cycle relies on at each stage. */
  ghost predicate StageInv(s: State) {
    !s.pc.Idle? ==>
      && s.pc.id in s.asked
      && s.m.reported != s.pc.id
      && (AfterFailure(s.pc) ==> s.m.failed == s.pc.id)
      && (!AfterFailure(s.pc) ==> s.m.failed != s.pc.id)
      && (s.pc.Confirm? || s.pc.Confirmed? || s.pc.Restarting? || s.pc.RestartFailed? ==> s.m.installed == s.pc.id)
  }

  ghost predicate Inv(s: State) {
    && Distinct(s) && StageInv(s)
    && (s.m.failed != "" ==> s.m.failed in s.asked && Precedes(s, s.m.failed))
    && (s.m.reported != "" ==> s.m.reported in s.asked && Precedes(s, s.m.reported))
    && (s.m.reported != "" && IsCurrent(s, s.m.reported) ==> s.m.failed == s.m.reported || s.m.installed == s.m.reported)
  }

  lemma InitInv(s: State)
    requires Init(s)
    ensures Inv(s)
  {
  }

  lemma PrecedesCurrent(s: State, s': State, id: string)
    requires s.asked == s'.asked && id in s.asked && (s'.pc.Idle? || s'.pc.id == Current(s))
    ensures Precedes(s', id)
  {
    var a :| 0 <= a < |s.asked| && s.asked[a] == id;
    assert s'.pc.Idle? || s'.asked[|s.asked| - 1] == s'.pc.id;
  }

  lemma PrecedesKept(s: State, s': State, id: string)
    requires Precedes(s, id) && s.asked <= s'.asked && (s'.pc.Idle? || (!s.pc.Idle? && s'.pc.id == s.pc.id))
    ensures Precedes(s', id)
  {
    if !s'.pc.Idle? {
      var a, b :| 0 <= a <= b < |s.asked| && s.asked[a] == id && s.asked[b] == s.pc.id;
      assert s'.asked[a] == id && s'.asked[b] == s'.pc.id;
    }
  }

  lemma PrecedesSelf(s: State)
    requires s.pc.Idle? || s.pc.id in s.asked
    ensures s.pc.Idle? || Precedes(s, s.pc.id)
  {
    if !s.pc.Idle? {
      var a :| 0 <= a < |s.asked| && s.asked[a] == s.pc.id;
    }
  }

  lemma AssignInv(s: State, s': State, id: string)
    requires Inv(s) && Assign(s, s', id)
    ensures Inv(s')
  {
    if s.m.failed != "" { PrecedesKept(s, s', s.m.failed); }
    if s.m.reported != "" { PrecedesKept(s, s', s.m.reported); }
  }

  lemma BeginInv(s: State, s': State, matches: bool)
    requires Inv(s) && Begin(s, s', matches)
    ensures Inv(s')
  {
    if s.m.failed != "" { PrecedesCurrent(s, s', s.m.failed); }
    if s.m.reported != "" { PrecedesCurrent(s, s', s.m.reported); }
    assert Current(s) != "" && Current(s) in s.asked;
  }

  /** Steps inside a cycle that write no marker. */
  lemma QuietInv(s: State, s': State)
    requires Inv(s) && s'.m == s.m && s'.asked == s.asked
    requires s'.pc.Idle? || (!s.pc.Idle? && s'.pc.id == s.pc.id && AfterFailure(s'.pc) == AfterFailure(s.pc))
    requires s'.pc.Confirm? || s'.pc.Confirmed? || s'.pc.Restarting? || s'.pc.RestartFailed? ==> s.m.installed == s'.pc.id
    ensures Inv(s')
  {
    if s.m.failed != "" { PrecedesKept(s, s', s.m.failed); }
    if s.m.reported != "" { PrecedesKept(s, s', s.m.reported); }
  }

  lemma MarkInv(s: State, s': State)
    requires Inv(s)
    requires MarkInstalled(s, s') || MarkFailed(s, s') || MarkReported(s, s')
    ensures Inv(s')
  {
    if s.m.failed != "" { PrecedesKept(s, s', s.m.failed); }
    if s.m.reported != "" { PrecedesKept(s, s', s.m.reported); }
    PrecedesSelf(s');
  }

  lemma NextInv(s: State, s': State)
    requires Inv(s) && Next(s, s')
    ensures Inv(s')
  {
    if id :| Assign(s, s', id) { AssignInv(s, s', id); }
    else if b :| Begin(s, s', b) { BeginInv(s, s', b); }
    else if MarkInstalled(s, s') || MarkFailed(s, s') || MarkReported(s, s') { MarkInv(s, s'); }
    else { QuietInv(s, s'); }
  }

  lemma {:induction false} RunInv(trace: seq<State>, i: nat)
    requires Steps(trace) && Init(trace[0]) && i < |trace|
    ensures Inv(trace[i])
  {
    if i > 0 {
      RunInv(trace, i - 1);
      NextInv(trace[i - 1], trace[i]);
    }
  }

  // ---------------------------------------------------------------- theorems over whole runs

  /** From the moment the failed marker names `id`. */
  ghost predicate MarkedFailed(s: State, id: string) {
    && Inv(s) && id in s.asked && Precedes(s, id)
    && (!s.pc.Idle? && s.pc.id == id ==> AfterFailure(s.pc))
    && (s.m.failed == id || !IsCurrent(s, id))
  }

  lemma NotCurrentIfPassed(s: State, id: string)
    requires Distinct(s) && Precedes(s, id) && !s.pc.Idle? && s.pc.id != id
    ensures !IsCurrent(s, id)
  {
    var a, b :| 0 <= a <= b < |s.asked| && s.asked[a] == id && s.asked[b] == s.pc.id;
  }

  lemma PrecedesNext(s: State, s': State, id: string)
    requires Inv(s) && Next(s, s') && id in s.asked && Precedes(s, id)
    ensures Precedes(s', id) && id in s'.asked
  {
    if b :| Begin(s, s', b) { PrecedesCurrent(s, s', id); } else { PrecedesKept(s, s', id); }
  }

  lemma CurrentNext(s: State, s': State, id: string)
    requires Inv(s) && Next(s, s') && id in s.asked && !IsCurrent(s, id)
    ensures !IsCurrent(s', id)
  {
  }

  lemma {:induction false} MarkedFailedActs(s: State, s': State, id: string)
    requires MarkedFailed(s, id) && Next(s, s')
    ensures s'.acts == s.acts || exists a :: s'.acts == s.acts + [a] && a != Install(id) && a != Send(id, APPLIED)
  {
  }

  lemma {:induction false} MarkedFailedNext(s: State, s': State, id: string)
    requires MarkedFailed(s, id) && Next(s, s')
    ensures MarkedFailed(s', id)
    ensures s'.acts == s.acts || exists a :: s'.acts == s.acts + [a] && a != Install(id) && a != Send(id, APPLIED)
  {
    NextInv(s, s');
    MarkedFailedActs(s, s', id);
    PrecedesNext(s, s', id);
    if !IsCurrent(s, id) { CurrentNext(s, s', id); }
    if !s.pc.Idle? && s.pc.id != id { NotCurrentIfPassed(s, id); CurrentNext(s, s', id); }
  }

  /** A deployment whose failed marker was ever written is never installed again and never reported
      APPLIED, across restarts and crashes between any two operations. */
  lemma {:induction false} FailedStaysFailed(trace: seq<State>, i: nat, j: nat, id: string)
    requires Steps(trace) && Init(trace[0]) && i <= j < |trace| && id != "" && trace[i].m.failed == id
    ensures MarkedFailed(trace[j], id) && trace[i].acts <= trace[j].acts
    ensures forall k :: |trace[i].acts| <= k < |trace[j].acts| ==>
              trace[j].acts[k] != Install(id) && trace[j].acts[k] != Send(id, APPLIED)
    decreases j - i
  {
    RunInv(trace, i);
    if i < j {
      FailedStaysFailed(trace, i, j - 1, id);
      MarkedFailedNext(trace[j - 1], trace[j], id);
    }
  }

  /** From the moment the reported marker names `id`. */
  ghost predicate MarkedReported(s: State, id: string) {
    && Inv(s) && id in s.asked && Precedes(s, id)
    && (s.pc.Idle? || s.pc.id != id)
    && (s.m.reported == id || !IsCurrent(s, id))
  }

  lemma MarkedReportedNext(s: State, s': State, id: string)
    requires MarkedReported(s, id) && Next(s, s')
    ensures MarkedReported(s', id)
    ensures s'.acts == s.acts || exists a :: s'.acts == s.acts + [a] && a.id != id
  {
    NextInv(s, s');
    PrecedesNext(s, s', id);
    if !IsCurrent(s, id) { CurrentNext(s, s', id); }
    if !s.pc.Idle? { NotCurrentIfPassed(s, id); CurrentNext(s, s', id); }
  }

  /** Once the reported marker names a deployment, nothing more is sent or installed for it. */
  lemma {:induction false} ReportedStaysSilent(trace: seq<State>, i: nat, j: nat, id: string)
    requires Steps(trace) && Init(trace[0]) && i <= j < |trace| && id != "" && trace[i].m.reported == id
    ensures MarkedReported(trace[j], id) && trace[i].acts <= trace[j].acts
    ensures forall k :: |trace[i].acts| <= k < |trace[j].acts| ==> trace[j].acts[k].id != id
    decreases j - i
  {
    RunInv(trace, i);
    if i < j {
      ReportedStaysSilent(trace, i, j - 1, id);
      MarkedReportedNext(trace[j - 1], trace[j], id);
    }
  }

  // ---------------------------------------------------------------- when a FAILED report is final

  /** A deployment can still be reported APPLIED: it is the current one and neither the failed nor the reported
      marker names it, or a cycle that found it installed is about to report. */
  ghost predicate Open(s: State, id: string) {
    (IsCurrent(s, id) && s.m.failed != id && s.m.reported != id) || s.pc == Confirm(id)
  }

  ghost predicate Closed(s: State, id: string) { Inv(s) && id in s.asked && !Open(s, id) }

  lemma ClosedSends(s: State, s': State, id: string)
    requires Closed(s, id) && Next(s, s')
    ensures s'.acts == s.acts || exists a :: s'.acts == s.acts + [a] && a != Send(id, APPLIED)
  {
  }

  lemma NotConfirming(s: State, s': State, id: string)
    requires Closed(s, id) && Next(s, s')
    ensures s'.pc != Confirm(id)
  {
  }

  lemma MarkersKept(s: State, s': State, id: string)
    requires Inv(s) && Next(s, s') && IsCurrent(s, id) && (s.pc.Idle? || s.pc.id == id)
    ensures (s.m.failed == id ==> s'.m.failed == id) && (s.m.reported == id ==> s'.m.reported == id)
  {
  }

  lemma ClosedNext(s: State, s': State, id: string)
    requires Closed(s, id) && id != "" && Next(s, s')
    ensures Closed(s', id)
    ensures s'.acts == s.acts || exists a :: s'.acts == s.acts + [a] && a != Send(id, APPLIED)
  {
    NextInv(s, s');
    ClosedSends(s, s', id);
    NotConfirming(s, s', id);
    AskedStays(s, s', id);
    if !IsCurrent(s, id) {
      CurrentNext(s, s', id);
    } else if !s.pc.Idle? && s.pc.id != id {
      NotCurrentIfPassed(s, id);
    } else {
      MarkersKept(s, s', id);
    }
  }

  lemma AskedStays(s: State, s': State, id: string)
    requires Next(s, s') && id in s.asked
    ensures id in s'.asked
  {
  }

  lemma {:induction false} ClosedRun(ext: seq<State>, id: string)
    requires Steps(ext) && id != "" && Closed(ext[0], id)
    ensures var last := ext[|ext| - 1];
            && Closed(last, id) && ext[0].acts <= last.acts
            && forall k :: |ext[0].acts| <= k < |last.acts| ==> last.acts[k] != Send(id, APPLIED)
  {
    if |ext| > 1 {
      var front := ext[..|ext| - 1];
      ClosedRun(front, id);
      ClosedNext(front[|front| - 1], ext[|ext| - 1], id);
    }
  }

  /** Some continuation of a run reports the deployment APPLIED. */
  ghost predicate MayApply(s: State, id: string) { exists ext :: Applies(s, ext, id) }

  ghost predicate Applies(s: State, ext: seq<State>, id: string) {
    Steps(ext) && ext[0] == s && NewlyApplied(s, ext[|ext| - 1], id)
  }

  ghost predicate NewlyApplied(s: State, s': State, id: string) {
    s.acts <= s'.acts && exists k :: |s.acts| <= k < |s'.acts| && s'.acts[k] == Send(id, APPLIED)
  }

  lemma StepsSnoc(trace: seq<State>, s: State)
    requires Steps(trace) && Next(trace[|trace| - 1], s)
    ensures Steps(trace + [s])
  {
  }

  /** From a cycle that found the deployment installed. */
  lemma ConfirmApplies(trace: seq<State>, id: string) returns (ext: seq<State>)
    requires Steps(trace) && trace[|trace| - 1].pc == Confirm(id)
    ensures Steps(ext) && ext[0] == trace[0] && ext[|ext| - 1].acts == trace[|trace| - 1].acts + [Send(id, APPLIED)]
  {
    var s := trace[|trace| - 1];
    var s' := s.(acts := s.acts + [Send(id, APPLIED)], pc := Confirmed(id));
    assert Next(s, s') by { assert SendResult(s, s'); }
    StepsSnoc(trace, s');
    ext := trace + [s'];
  }

  /** From an idle process without a restart request, when the packages are installed. */
  lemma InstalledApplies(trace: seq<State>, id: string) returns (ext: seq<State>)
    requires Steps(trace)
    requires var s := trace[|trace| - 1];
      s.pc.Idle? && IsCurrent(s, id) && s.m.failed != id && s.m.reported != id && s.m.installed == id && s.restartRequested != id
    ensures Steps(ext) && ext[0] == trace[0] && ext[|ext| - 1].acts == trace[|trace| - 1].acts + [Send(id, APPLIED)]
  {
    var s := trace[|trace| - 1];
    var s' := s.(pc := Confirm(id));
    assert Next(s, s') by { assert Begin(s, s', true); }
    StepsSnoc(trace, s');
    ext := ConfirmApplies(trace + [s'], id);
  }

  /** After an installation that works. */
  lemma InstallApplies(trace: seq<State>, id: string) returns (ext: seq<State>)
    requires Steps(trace) && id != ""
    requires var s := trace[|trace| - 1];
      s.pc.Idle? && IsCurrent(s, id) && s.m.failed != id && s.m.reported != id && s.m.installed != id && s.restartRequested == ""
    ensures Steps(ext) && ext[0] == trace[0]
    ensures ext[|ext| - 1].acts == trace[|trace| - 1].acts + [Install(id), Send(id, APPLIED)]
  {
    var s := trace[|trace| - 1];
    var s1 := s.(pc := Installing(id));
    var s2 := s1.(acts := s.acts + [Install(id)], pc := InstallDone(id));
    var s3 := s2.(m := s.m.(installed := id), pc := Idle);
    assert Next(s, s1) by { assert Begin(s, s1, true); }
    assert Next(s1, s2) by { assert DoInstall(s1, s2); }
    assert Next(s2, s3) by { assert MarkInstalled(s2, s3); }
    StepsSnoc(trace, s1);
    StepsSnoc(trace + [s1], s2);
    StepsSnoc(trace + [s1] + [s2], s3);
    ext := InstalledApplies(trace + [s1] + [s2] + [s3], id);
  }

  lemma OpenApplies(s: State, id: string) returns (ext: seq<State>)
    requires Open(s, id) && id != ""
    ensures Steps(ext) && ext[0] == s && NewlyApplied(s, ext[|ext| - 1], id)
  {
    if s.pc == Confirm(id) {
      ext := ConfirmApplies([s], id);
      assert ext[|ext| - 1].acts[|s.acts|] == Send(id, APPLIED);
    } else {
      var s1 := s.(pc := Idle, restartRequested := "");
      assert Next(s, s1) by { assert Crash(s, s1); }
      StepsSnoc([s], s1);
      if s.m.installed == id {
        ext := InstalledApplies([s] + [s1], id);
        assert ext[|ext| - 1].acts[|s.acts|] == Send(id, APPLIED);
      } else {
        ext := InstallApplies([s] + [s1], id);
        assert ext[|ext| - 1].acts[|s.acts| + 1] == Send(id, APPLIED);
      }
    }
  }

  /** Reports are sent only for deployments that were asked for. */
  lemma {:induction false} ActsAsked(trace: seq<State>, i: nat)
    requires Steps(trace) && Init(trace[0]) && i < |trace|
    ensures forall k :: 0 <= k < |trace[i].acts| ==> trace[i].acts[k].id in trace[i].asked
  {
    if i > 0 {
      ActsAsked(trace, i - 1);
      RunInv(trace, i - 1);
      assert Next(trace[i - 1], trace[i - 1 + 1]);
    }
  }

  /** After a FAILED report, whatever stage the process is in, the same deployment can still come to be reported
      APPLIED if and only if it is the current one and neither the failed nor the reported marker names it, or a
      cycle that found it installed is about to report. */
  lemma FailedIsFinal(trace: seq<State>, i: nat, id: string)
    requires Steps(trace) && Init(trace[0]) && i < |trace| && id != "" && Send(id, FAILED) in trace[i].acts
    ensures MayApply(trace[i], id) <==> Open(trace[i], id)
  {
    var s := trace[i];
    RunInv(trace, i);
    ActsAsked(trace, i);
    if Open(s, id) {
      var ext := OpenApplies(s, id);
      assert Applies(s, ext, id);
    }
    if MayApply(s, id) {
      var ext :| Applies(s, ext, id);
      if !Open(s, id) { ClosedRun(ext, id); }
    }
  }

  /** Installed, not restarted, reported FAILED. */
  lemma RestartFails(id: string, failed: State) returns (trace: seq<State>)
    requires id != "" && failed == State(Markers(id, "", ""), id, Idle, [Install(id), Send(id, FAILED)], [id])
    ensures Steps(trace) && Init(trace[0]) && trace[|trace| - 1] == failed
  {
    var s0 := State(Markers("", "", ""), "", Idle, [], []);
    var s1 := s0.(asked := [id]);
    var s2 := s1.(pc := Installing(id));
    var s3 := s2.(pc := InstallDone(id), acts := [Install(id)]);
    var s4 := s3.(pc := Restarting(id), m := Markers(id, "", ""));
    var s5 := s4.(pc := RestartFailed(id), restartRequested := id);
    assert Next(s0, s1) by { assert Assign(s0, s1, id); }
    assert Next(s1, s2) by { assert Begin(s1, s2, false); }
    assert Next(s2, s3) by { assert DoInstall(s2, s3); }
    assert Next(s3, s4) by { assert MarkInstalled(s3, s4); }
    assert Next(s4, s5) by { assert Restart(s4, s5); }
    assert Next(s5, failed) by { assert SendResult(s5, failed); }
    trace := [s0, s1, s2, s3, s4, s5, failed];
  }

  /** First route: only the restart failed, so no failed marker is written, and after a restart with matching
      versions the same deployment is reported APPLIED. */
  lemma FailedThenApplied(id: string) returns (trace: seq<State>)
    requires id != ""
    ensures Steps(trace) && Init(trace[0])
    ensures trace[|trace| - 1].acts == [Install(id), Send(id, FAILED), Send(id, APPLIED)]
  {
    var s6 := State(Markers(id, "", ""), id, Idle, [Install(id), Send(id, FAILED)], [id]);
    var s7 := s6.(restartRequested := "");
    trace := RestartFails(id, s6);
    assert Next(s6, s7) by { assert Crash(s6, s7); }
    StepsSnoc(trace, s7);
    trace := InstalledApplies(trace + [s7], id);
    assert s7.acts + [Send(id, APPLIED)] == [Install(id), Send(id, FAILED), Send(id, APPLIED)];
  }

  /** Second route: the installation failed and was reported, but the process stopped before it wrote the failed
      marker; the next cycle installs again and the deployment is reported APPLIED. */
  lemma FailedThenInstalledAgain(id: string) returns (trace: seq<State>)
    requires id != ""
    ensures Steps(trace) && Init(trace[0])
    ensures trace[|trace| - 1].acts == [Install(id), Send(id, FAILED), Install(id), Send(id, APPLIED)]
  {
    var s0 := State(Markers("", "", ""), "", Idle, [], []);
    var s1 := s0.(asked := [id]);
    var s2 := s1.(pc := Installing(id));
    var s3 := s2.(pc := FailSend(id), acts := [Install(id)]);
    var s4 := s3.(pc := FailMark(id), acts := [Install(id), Send(id, FAILED)]);
    var s5 := s4.(pc := Idle);
    assert Next(s0, s1) by { assert Assign(s0, s1, id); }
    assert Next(s1, s2) by { assert Begin(s1, s2, false); }
    assert Next(s2, s3) by { assert DoInstall(s2, s3); }
    assert Next(s3, s4) by { assert SendResult(s3, s4); }
    assert Next(s4, s5) by { assert Crash(s4, s5); }
    trace := InstallApplies([s0, s1, s2, s3, s4, s5], id);
    assert s5.acts + [Install(id), Send(id, APPLIED)] == [Install(id), Send(id, FAILED), Install(id), Send(id, APPLIED)];
  }
}
