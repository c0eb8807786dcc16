/** The reconcile of a pairing request, statement by statement, with the world moving in between. */
module PairingReconciler {
  import opened Basics
  import opened Pairing

  predicate ByOthers(a: Action) {
    a.EditSpec? || a.EditMetadata? || a.Delete? || a.SetPods?
  }

  predicate Calm(acts: seq<Action>) {
    forall i | 0 <= i < |acts| :: ByOthers(acts[i])
  }

  /** What one reconcile meets: what the two reads return, how the exec ends, and what others do between the steps. */
  datatype Circumstances = Circumstances(read: nat, reread: nat, outcome: Outcome, gaps: seq<seq<Action>>)

  predicate Possible(c: Circumstances) {
    |c.gaps| == 5 && forall i | 0 <= i < 5 :: Calm(c.gaps[i])
  }

  /** The steps of a reconcile, in order. */
  function Script(c: Circumstances): seq<Action>
    requires Possible(c)
  {
    [Get(c.read)] + (c.gaps[0] + Selecting(c))
  }

  function Selecting(c: Circumstances): seq<Action>
    requires Possible(c)
  {
    [List] + (c.gaps[1] + Marking(c))
  }

  function Marking(c: Circumstances): seq<Action>
    requires Possible(c)
  {
    [Mark] + (c.gaps[2] + Approving(c))
  }

  function Approving(c: Circumstances): seq<Action>
    requires Possible(c)
  {
    [RunExec(c.outcome)] + (c.gaps[3] + Finishing(c))
  }

  function Finishing(c: Circumstances): seq<Action>
    requires Possible(c)
  {
    [Refetch(c.reread)] + (c.gaps[4] + [Store])
  }

  /** Follows a script until the reconcile returns. */
  function Episode(lab: Labels, s: State, script: seq<Action>): State
    decreases |script|
  {
    if script == [] then s
    else
      var t := Do(lab, s, script[0]);
      if t.pc.Idle? then t else Episode(lab, t, script[1..])
  }

  lemma {:induction false} RunFromFirst(lab: Labels, s: State, a: Action, acts: seq<Action>)
    ensures Run(lab, s, [a] + acts) == Run(lab, Do(lab, s, a), acts)
    decreases |acts|
  {
    if acts == [] {
      assert [a] + acts == [a];
      assert Run(lab, s, [a][..0]) == s;
    } else {
      var init, last := acts[..|acts| - 1], acts[|acts| - 1];
      RunFromFirst(lab, s, a, init);
      assert ([a] + acts)[..|acts|] == [a] + init && ([a] + acts)[|acts|] == last;
      assert Run(lab, s, [a] + acts) == Do(lab, Run(lab, s, [a] + init), last);
    }
  }

  /** Every reconcile is a run of the pairing machine, so everything proved of runs holds of it. */
  lemma {:induction false} EpisodeIsRun(lab: Labels, s: State, script: seq<Action>) returns (acts: seq<Action>)
    ensures acts <= script && Episode(lab, s, script) == Run(lab, s, acts)
    decreases |script|
  {
    if script == [] {
      return [];
    }
    var t := Do(lab, s, script[0]);
    var rest := [];
    if !t.pc.Idle? {
      rest := EpisodeIsRun(lab, t, script[1..]);
    }
    acts := [script[0]] + rest;
    RunFromFirst(lab, s, script[0], rest);
    assert script == [script[0]] + script[1..];
  }

  lemma {:induction false} EpisodeGap(lab: Labels, s: State, gap: seq<Action>, rest: seq<Action>)
    requires Calm(gap) && !s.pc.Idle?
    ensures Episode(lab, s, gap + rest) == Episode(lab, Run(lab, s, gap), rest)
    decreases |gap|
  {
    if gap == [] {
      assert gap + rest == rest;
    } else {
      assert ByOthers(gap[0]);
      assert gap + rest == [gap[0]] + (gap[1..] + rest);
      EpisodeGap(lab, Do(lab, s, gap[0]), gap[1..], rest);
      RunFromFirst(lab, s, gap[0], gap[1..]);
      assert gap == [gap[0]] + gap[1..];
    }
  }

  lemma {:induction false} RunIsLater(lab: Labels, s: State, acts: seq<Action>)
    ensures Later(s, Run(lab, s, acts))
    decreases |acts|
  {
    if acts != [] {
      RunIsLater(lab, s, acts[..|acts| - 1]);
      StepIsLater(lab, Run(lab, s, acts[..|acts| - 1]), acts[|acts| - 1]);
    }
  }

  class Server {
    var versions: seq<Version>
    var pods: seq<set<string>>
    var execs: seq<Exec>

    ghost function View(pc: Pc): State
      reads this
    {
      State(versions, pods, execs, pc)
    }

    /** One action of others. */
    method Act(lab: Labels, a: Action, ghost pc: Pc)
      requires ByOthers(a)
      modifies this
      ensures View(pc) == Do(lab, old(View(pc)), a)
    {
      match a {
        case SetPods(p) => pods := pods + [p];
        case EditSpec(spec) =>
          if versions != [] && !versions[|versions| - 1].deleted {
            var v := versions[|versions| - 1];
            versions := versions + [v.(generation := v.generation + 1, spec := spec)];
          }
        case EditMetadata =>
          if versions != [] && !versions[|versions| - 1].deleted {
            versions := versions + [versions[|versions| - 1]];
          }
        case Delete =>
          if versions != [] && !versions[|versions| - 1].deleted {
            versions := versions + [versions[|versions| - 1].(deleted := true)];
          }
        case _ =>
      }
    }

    /** What users, the API server and the kubelet do meanwhile. */
    method Disturb(lab: Labels, acts: seq<Action>, ghost pc: Pc)
      requires Calm(acts)
      modifies this
      ensures View(pc) == Run(lab, old(View(pc)), acts)
      ensures |old(versions)| <= |versions| && |old(pods)| <= |pods|
      ensures forall i | 0 <= i < |old(versions)| :: versions[i] == old(versions)[i]
    {
      RunIsLater(lab, View(pc), acts);
      for i := 0 to |acts|
        invariant View(pc) == Run(lab, old(View(pc)), acts[..i])
      {
        assert acts[..i + 1][..i] == acts[..i];
        assert ByOthers(acts[i]);
        Act(lab, acts[i], pc);
      }
      assert acts[..|acts|] == acts;
    }

    /** `Status().Update` after `setDevicePairingCondition`; false on a conflict. */
    method UpdateCondition(held: nat, reason: Reason) returns (ok: bool)
      modifies this
      ensures ok == Writes(old(View(Idle)), held)
      ensures View(Idle) == UpdateStatus(old(View(Idle)), held, reason)
    {
      ok := held < |versions| && held == |versions| - 1 && !versions[held].deleted;
      if ok {
        versions := versions + [versions[held].(ready := Some(Condition(reason, versions[held].generation)))];
      }
    }

    /** `Reconcile`: exactly the scripted steps, up to where it returns. */
    method Reconcile(lab: Labels, c: Circumstances)
      requires Possible(c) && pods != []
      modifies this
      ensures View(Idle) == Episode(lab, old(View(Idle)), Script(c))
    {
      if c.read >= |versions| || versions[c.read].deleted {
        return;
      }
      var instance := versions[c.read];
      if instance.ready == Some(Condition(DevicePaired, instance.generation)) {
        return;
      }
      EpisodeGap(lab, View(Fetched(c.read)), c.gaps[0], Selecting(c));
      Disturb(lab, c.gaps[0], Fetched(c.read));
      SelectPod(lab, c);
    }

    /** The selector and the pod list. */
    method SelectPod(lab: Labels, c: Circumstances)
      requires Possible(c) && pods != [] && c.read < |versions|
      modifies this
      ensures View(Idle) == Episode(lab, old(View(Fetched(c.read))), Selecting(c))
    {
      if !lab.parses(versions[c.read].spec.selector) {
        var _ := UpdateCondition(c.read, InvalidSelector);
        return;
      }
      var listed := |pods| - 1;
      EpisodeGap(lab, View(Listed(c.read, listed)), c.gaps[1], Marking(c));
      Disturb(lab, c.gaps[1], Listed(c.read, listed));
      MarkProcessing(lab, c, listed);
    }

    /** The three cases of the pod count. */
    method MarkProcessing(lab: Labels, c: Circumstances, listed: nat)
      requires Possible(c) && c.read < |versions| && listed < |pods|
      modifies this
      ensures View(Idle) == Episode(lab, old(View(Listed(c.read, listed))), Marking(c))
    {
      var found := Matching(lab, pods[listed], versions[c.read].spec.selector);
      if |found| == 0 {
        var _ := UpdateCondition(c.read, NoMatchingPod);
        return;
      }
      if |found| > 1 {
        var _ := UpdateCondition(c.read, MultipleMatchingPods);
        return;
      }
      var at := |versions|;
      var marked := UpdateCondition(c.read, Processing);
      if !marked {
        return;
      }
      var pod := Only(found);
      EpisodeGap(lab, View(Executing(at, listed, pod)), c.gaps[2], Approving(c));
      Disturb(lab, c.gaps[2], Executing(at, listed, pod));
      Approve(lab, c, at, listed, pod);
    }

    /** The exec. */
    method Approve(lab: Labels, c: Circumstances, at: nat, listed: nat, pod: string)
      requires Possible(c) && at < |versions|
      modifies this
      ensures View(Idle) == Episode(lab, old(View(Executing(at, listed, pod))), Approving(c))
    {
      execs := execs + [Exec(at, listed, pod, versions[at].spec.requestID, c.outcome)];
      if c.outcome == Interrupted {
        return;
      }
      EpisodeGap(lab, View(Refetching(at, c.outcome)), c.gaps[3], Finishing(c));
      Disturb(lab, c.gaps[3], Refetching(at, c.outcome));
      StoreResult(lab, c, at);
    }

    /** The re-fetch and the final status write. */
    method StoreResult(lab: Labels, c: Circumstances, at: nat)
      requires Possible(c)
      modifies this
      ensures View(Idle) == Episode(lab, old(View(Refetching(at, c.outcome))), Finishing(c))
    {
      if c.reread >= |versions| || versions[c.reread].deleted {
        return;
      }
      EpisodeGap(lab, View(Storing(c.reread, at, c.outcome)), c.gaps[4], [Store]);
      Disturb(lab, c.gaps[4], Storing(c.reread, at, c.outcome));
      assert [Store] + [] == [Store];
      var _ := UpdateCondition(c.reread, if c.outcome == Approved then DevicePaired else PairingFailed);
    }
  }
}
