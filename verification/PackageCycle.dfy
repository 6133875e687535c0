/** The package part of `runControlCycle` as code; each call is a run of the machine in module
    PackageMarkers (internal/agent/agent.go). */
module PackageCycle {
  import opened PackageMarkers

  /** How applying the packages ended, and, when the Agent itself was updated, whether its restart was started. */
  datatype Installation = NotApplied | Applied | AgentUpdated(restarted: bool)

  /** What others see of one cycle in which no file operation and no request fails. */
  function Shown(m: Markers, restartRequested: string, id: string, matches: bool, install: Installation): seq<Act> {
    if m.failed == id then (if m.reported == id then [] else [Send(id, FAILED)])
    else if m.installed != id then
      [Install(id)] + (if install == NotApplied || install == AgentUpdated(false) then [Send(id, FAILED)] else [])
    else if m.reported == id then []
    else if matches && restartRequested != id then [Send(id, APPLIED)]
    else if restartRequested == "" then [Send(id, FAILED)]
    else []
  }

  /** The markers it leaves: an installation that succeeds is marked, a failed deployment that was not marked is,
      and whatever is sent for a deployment is marked as reported, but for a restart that did not start. */
  function Left(m: Markers, restartRequested: string, id: string, matches: bool, install: Installation): Markers {
    var shown := Shown(m, restartRequested, id, matches, install);
    if m.failed != id && m.installed != id && install != NotApplied then m.(installed := id)
    else Markers(m.installed, if Send(id, FAILED) in shown then id else m.failed, if shown != [] then id else m.reported)
  }

  /** With failures a cycle does a first part of that: acts come before markers, the failed marker before the reported one. */
  ghost predicate Partly(acts: seq<Act>, shown: seq<Act>, was: Markers, now: Markers, left: Markers) {
    && acts <= shown
    && (now.installed == was.installed || now.installed == left.installed)
    && (now.failed == was.failed || (now.failed == left.failed && acts == shown))
    && (now.reported == was.reported || (now.reported == left.reported && now.failed == left.failed && acts == shown))
  }

  class Cycle {
    var markers: Markers            // state directory
    var restartRequested: string    // packageRestartRequested, lost on restart
    ghost var acts: seq<Act>
    ghost var asked: seq<string>
    ghost var faults: nat           // file operations and requests that failed

    ghost function Snapshot(pc: Pc): State
      reads this
    {
      State(markers, restartRequested, pc, acts, asked)
    }

    ghost predicate Ran(trace: seq<State>, pc: Pc)
      reads this
    {
      Steps(trace) && trace[|trace| - 1] == Snapshot(pc)
    }

    method Attempt() returns (ok: bool)
      modifies this`faults
      ensures faults == if ok then old(faults) else old(faults) + 1
    {
      ok := *;
      if !ok { faults := faults + 1; }
    }

    /** `SendPackageResult`: the result may arrive even when the call fails. */
    method SendIt(id: string, verdict: Verdict, ghost at: Pc, ghost then': Pc, ghost trace: seq<State>)
      returns (ok: bool, ghost trace': seq<State>)
      requires Ran(trace, at) && SendResult(Snapshot(at), Snapshot(at).(acts := acts + [Send(id, verdict)], pc := then'))
      modifies this`acts, this`faults
      ensures trace <= trace' && Ran(trace', if ok then then' else Idle)
      ensures acts == old(acts) + [Send(id, verdict)] && faults == if ok then old(faults) else old(faults) + 1
    {
      ghost var before := Snapshot(at);
      acts := acts + [Send(id, verdict)];
      assert SendResult(before, Snapshot(then'));
      trace' := Extend(trace, Snapshot(then'));
      ok := Attempt();
      if !ok { trace' := Returned(trace'); }
    }

    /** The failed and reported markers were written for `id`, the first ones of them when something failed. */
    ghost predicate FailureMarked(was: Markers, id: string, before: nat)
      reads this
    {
      && before <= faults
      && (markers == was.(failed := id, reported := id)
          || (before < faults && (markers == was || markers == was.(failed := id))))
    }

    /** Report FAILED, then write the failed, detail and reported markers, in this order. */
    method ReportFailure(id: string, ghost trace: seq<State>) returns (ghost trace': seq<State>)
      requires Ran(trace, FailSend(id))
      modifies this`markers, this`acts, this`faults
      ensures trace <= trace' && Ran(trace', Idle)
      ensures acts == old(acts) + [Send(id, FAILED)] && FailureMarked(old(markers), id, old(faults))
    {
      var ok: bool;
      ok, trace' := SendIt(id, FAILED, FailSend(id), FailMark(id), trace);
      if !ok { return; }
      ok := Attempt();
      if !ok { trace' := Returned(trace'); return; }
      markers := markers.(failed := id);
      assert MarkFailed(trace'[|trace'| - 1], Snapshot(FailDetail(id)));
      trace' := Extend(trace', Snapshot(FailDetail(id)));
      ok := Attempt();
      if !ok { trace' := Returned(trace'); return; }
      assert WriteDetail(trace'[|trace'| - 1], Snapshot(FailReport(id)));
      trace' := Extend(trace', Snapshot(FailReport(id)));
      trace' := WriteReported(id, FailReport(id), trace');
    }

    method WriteReported(id: string, ghost at: Pc, ghost trace: seq<State>) returns (ghost trace': seq<State>)
      requires Ran(trace, at) && at in {Confirmed(id), SentOld(id), FailReport(id)}
      modifies this`markers, this`faults
      ensures trace <= trace' && Ran(trace', Idle)
      ensures faults >= old(faults)
      ensures markers == old(markers).(reported := id) || (faults > old(faults) && markers == old(markers))
    {
      var ok := Attempt();
      if !ok { trace' := Returned(trace); return; }
      markers := markers.(reported := id);
      assert MarkReported(trace[|trace| - 1], Snapshot(Idle));
      trace' := Extend(trace, Snapshot(Idle));
    }

    /** The failed marker names the deployment: report that unless it was reported. */
    method ReportAgain(id: string, ghost trace: seq<State>) returns (ghost trace': seq<State>, ghost added: seq<Act>)
      requires markers.failed == id && Ran(trace, if markers.reported != id then ReportOld(id) else Idle)
      modifies this`markers, this`acts, this`faults
      ensures trace <= trace' && Ran(trace', Idle) && acts == old(acts) + added && faults >= old(faults)
      ensures if old(markers).reported == id then added == [] && markers == old(markers)
              else
                || (added == [Send(id, FAILED)] && markers == old(markers).(reported := id))
                || (faults > old(faults) && added <= [Send(id, FAILED)] && markers == old(markers))
    {
      trace', added := trace, [];
      if markers.reported != id {
        var ok := Attempt();
        if !ok { trace' := Returned(trace'); return; }
        added := [Send(id, FAILED)];
        ok, trace' := SendIt(id, FAILED, ReportOld(id), SentOld(id), trace');
        if ok { trace' := WriteReported(id, SentOld(id), trace'); }
      }
    }

    /** The installed marker names it: report what the inventory shows, once the Agent has restarted. */
    method ReportInstalled(id: string, matches: bool, ghost trace: seq<State>) returns (ghost trace': seq<State>, ghost added: seq<Act>)
      requires markers.failed != id && markers.installed == id && Ran(trace, Branch(markers, restartRequested, id, matches))
      modifies this`markers, this`acts, this`faults
      ensures trace <= trace' && Ran(trace', Idle) && acts == old(acts) + added && faults >= old(faults)
      ensures old(markers).reported == id ==> added == [] && markers == old(markers)
      ensures old(markers).reported != id && matches && restartRequested != id ==>
                && added == [Send(id, APPLIED)]
                && (markers == old(markers).(reported := id) || (faults > old(faults) && markers == old(markers)))
      ensures old(markers).reported != id && !(matches && restartRequested != id) && restartRequested == "" ==>
                added == [Send(id, FAILED)] && FailureMarked(old(markers), id, old(faults))
      ensures old(markers).reported != id && !(matches && restartRequested != id) && restartRequested != "" ==>
                added == [] && markers == old(markers)
    {
      trace', added := trace, [];
      if markers.reported != id && restartRequested != id && matches {
        added := [Send(id, APPLIED)];
        var ok: bool;
        ok, trace' := SendIt(id, APPLIED, Confirm(id), Confirmed(id), trace');
        if ok { trace' := WriteReported(id, Confirmed(id), trace'); }
      } else if markers.reported != id && restartRequested == "" {
        added := [Send(id, FAILED)];
        trace' := ReportFailure(id, trace');
      }
    }

    /** Apply the packages and restart the Agent when it was among them. */
    method InstallPackages(id: string, install: Installation, ghost trace: seq<State>)
      returns (ghost trace': seq<State>, ghost added: seq<Act>)
      requires Ran(trace, Installing(id))
      modifies this
      ensures trace <= trace' && Ran(trace', Idle) && asked == old(asked) && faults >= old(faults)
      ensures acts == old(acts) + added
      ensures install == NotApplied ==>
                && added == [Install(id), Send(id, FAILED)] && FailureMarked(old(markers), id, old(faults))
                && restartRequested == old(restartRequested)
      ensures install != NotApplied ==>
                || (markers == old(markers).(installed := id)
                    && added == [Install(id)] + (if install == AgentUpdated(false) then [Send(id, FAILED)] else [])
                    && restartRequested == if install == Applied then old(restartRequested) else id)
                || (faults > old(faults) && markers == old(markers) && added == [Install(id)] && restartRequested == old(restartRequested))
    {
      acts := acts + [Install(id)];
      added := [Install(id)] + if install == NotApplied || install == AgentUpdated(false) then [Send(id, FAILED)] else [];
      if install == NotApplied {
        assert DoInstall(trace[|trace| - 1], Snapshot(FailSend(id)));
        trace' := Extend(trace, Snapshot(FailSend(id)));
        trace' := ReportFailure(id, trace');
        return;
      }
      assert DoInstall(trace[|trace| - 1], Snapshot(InstallDone(id)));
      trace' := Extend(trace, Snapshot(InstallDone(id)));
      var ok := Attempt();
      if !ok {
        trace', added := Returned(trace'), [Install(id)];
        return;
      }
      markers := markers.(installed := id);
      if install == Applied {
        assert MarkInstalled(trace'[|trace'| - 1], Snapshot(Idle));
        trace' := Extend(trace', Snapshot(Idle));
        return;
      }
      assert MarkInstalled(trace'[|trace'| - 1], Snapshot(Restarting(id)));
      trace' := Extend(trace', Snapshot(Restarting(id)));
      trace' := RestartAgent(id, install.restarted, trace');
    }

    /** The result of a restart that does not start is sent without looking at the reply. */
    method RestartAgent(id: string, restarted: bool, ghost trace: seq<State>) returns (ghost trace': seq<State>)
      requires Ran(trace, Restarting(id))
      modifies this`restartRequested, this`acts, this`faults
      ensures trace <= trace' && Ran(trace', Idle) && faults >= old(faults)
      ensures restartRequested == id && acts == old(acts) + if restarted then [] else [Send(id, FAILED)]
    {
      restartRequested := id;
      if restarted {
        assert Restart(trace[|trace| - 1], Snapshot(Idle));
        trace' := Extend(trace, Snapshot(Idle));
        return;
      }
      assert Restart(trace[|trace| - 1], Snapshot(RestartFailed(id)));
      trace' := Extend(trace, Snapshot(RestartFailed(id)));
      var ok: bool;
      ok, trace' := SendIt(id, FAILED, RestartFailed(id), Idle, trace');
    }

    /** One cycle for the current deployment; `matches` says whether the inventory shows its versions. Without failures
        it does all that the markers call for, and with failures a first part of it. */
    method PackageDeployment(id: string, matches: bool, install: Installation) returns (ghost trace: seq<State>, ghost added: seq<Act>)
      requires asked != [] && asked[|asked| - 1] == id
      modifies this
      ensures Ran(trace, Idle) && trace[0] == old(Snapshot(Idle)) && asked == old(asked) && faults >= old(faults)
      ensures acts == old(acts) + added
      ensures Partly(added, Shown(old(markers), old(restartRequested), id, matches, install),
                     old(markers), markers, Left(old(markers), old(restartRequested), id, matches, install))
      ensures faults == old(faults) ==>
                && added == Shown(old(markers), old(restartRequested), id, matches, install)
                && markers == Left(old(markers), old(restartRequested), id, matches, install)
      ensures restartRequested == old(restartRequested)
              || (restartRequested == id && install.AgentUpdated? && markers.installed == id && old(markers).installed != id)
      ensures Send(id, APPLIED) in added ==>
                matches && old(markers).installed == id && old(markers).reported != id && old(restartRequested) != id
    {
      trace, added := [Snapshot(Idle)], [];
      var ok := Attempt();
      if !ok { return; }
      ghost var pc := Branch(markers, restartRequested, id, matches);
      assert Begin(trace[0], Snapshot(pc), matches);
      trace := Extend(trace, Snapshot(pc));
      if markers.failed == id {
        trace, added := ReportAgain(id, trace);
      } else if markers.installed == id {
        trace, added := ReportInstalled(id, matches, trace);
      } else {
        trace, added := InstallPackages(id, install, trace);
      }
    }
  }

  ghost function Extend(trace: seq<State>, s: State): (r: seq<State>)
    requires Steps(trace) && Next(trace[|trace| - 1], s)
    ensures trace <= r && Steps(r) && r[|r| - 1] == s
  {
    trace + [s]
  }

  ghost function Returned(trace: seq<State>): (r: seq<State>)
    requires Steps(trace)
    ensures trace <= r && Steps(r) && r[|r| - 1] == trace[|trace| - 1].(pc := Idle)
  {
    assert Return(trace[|trace| - 1], trace[|trace| - 1].(pc := Idle));
    Extend(trace, trace[|trace| - 1].(pc := Idle))
  }
}
