/** What one reconcile of a pairing request achieves when nobody interferes, and what it stores otherwise. */
module PairingProgress {
  import opened Basics
  import opened Pairing
  import opened PairingReconciler

  /** Both reads return the latest version and nobody else acts between the steps. */
  function Alone(s: State, outcome: Outcome): (c: Circumstances)
    requires s.versions != []
    ensures Possible(c) && c.read == |s.versions| - 1 && c.outcome == outcome
  {
    Circumstances(|s.versions| - 1, |s.versions|, outcome, [[], [], [], [], []])
  }

  /** A reconcile by itself, from start to return. */
  function Reconciled(lab: Labels, s: State, outcome: Outcome): State
    requires s.versions != []
  {
    Episode(lab, s, Script(Alone(s, outcome)))
  }

  /** No reconcile is in flight and the request is neither deleted nor paired in its present form. */
  predicate Waiting(s: State) {
    && s.pc.Idle? && s.versions != [] && s.pods != []
    && var v := s.versions[|s.versions| - 1];
       !v.deleted && (v.ready == None || v.ready.value.reason != DevicePaired || v.ready.value.observed != v.generation)
  }

  predicate Matches(lab: Labels, s: State, pod: string)
    requires s.versions != [] && s.pods != []
  {
    pod in s.pods[|s.pods| - 1] && lab.matches(s.versions[|s.versions| - 1].spec.selector, pod)
  }

  predicate Parses(lab: Labels, s: State)
    requires s.versions != []
  {
    lab.parses(s.versions[|s.versions| - 1].spec.selector)
  }

  /** This pod, and no other of these, carries the labels. */
  ghost predicate OnlyMatch(lab: Labels, pods: set<string>, selector: string, pod: string) {
    pod in pods && lab.matches(selector, pod) && forall q :: q in pods && lab.matches(selector, q) ==> q == pod
  }

  ghost predicate OnlyPod(lab: Labels, s: State, pod: string)
    requires s.versions != [] && s.pods != []
  {
    OnlyMatch(lab, s.pods[|s.pods| - 1], s.versions[|s.versions| - 1].spec.selector, pod)
  }

  /** The latest version with another Ready condition, observed at its own generation. */
  function Stamped(s: State, reason: Reason): Version
    requires s.versions != []
  {
    var v := s.versions[|s.versions| - 1];
    Version(v.generation, v.spec, Some(Condition(reason, v.generation)), v.deleted)
  }

  /** The exec on that pod, marked by the version stored next. */
  function ExecOn(s: State, pod: string, outcome: Outcome): Exec
    requires s.versions != [] && s.pods != []
  {
    Exec(|s.versions|, |s.pods| - 1, pod, s.versions[|s.versions| - 1].spec.requestID, outcome)
  }

  /******* Steps *******/

  lemma EpisodeStep(lab: Labels, s: State, a: Action, rest: seq<Action>)
    ensures var t := Do(lab, s, a);
            Episode(lab, s, [a] + ([] + rest)) == if t.pc.Idle? then t else Episode(lab, t, rest)
  {
    assert ([a] + ([] + rest))[1..] == rest;
  }

  lemma LastStep(lab: Labels, s: State, a: Action)
    ensures var t := Do(lab, s, a); t.pc.Idle? ==> Episode(lab, s, [] + [a]) == t
  {
    assert [] + [a] == [a];
  }

  lemma ReadsLatest(lab: Labels, s: State, outcome: Outcome)
    requires Waiting(s)
    ensures Reconciled(lab, s, outcome) == Episode(lab, s.(pc := Fetched(|s.versions| - 1)), Selecting(Alone(s, outcome)))
  {
    var c := Alone(s, outcome);
    EpisodeStep(lab, s, Get(c.read), Selecting(c));
  }

  lemma Lists(lab: Labels, s: State, outcome: Outcome)
    requires Waiting(s) && Parses(lab, s)
    ensures Reconciled(lab, s, outcome)
         == Episode(lab, s.(pc := Listed(|s.versions| - 1, |s.pods| - 1)), Marking(Alone(s, outcome)))
  {
    var c := Alone(s, outcome);
    ReadsLatest(lab, s, outcome);
    EpisodeStep(lab, s.(pc := Fetched(c.read)), List, Marking(c));
  }

  lemma FoundOne(lab: Labels, pods: set<string>, selector: string, pod: string)
    requires OnlyMatch(lab, pods, selector, pod)
    ensures Matching(lab, pods, selector) == {pod}
  {
  }

  function Marked(s: State, pod: string): State
    requires s.versions != [] && s.pods != []
  {
    State(s.versions + [Stamped(s, Processing)], s.pods, s.execs, Executing(|s.versions|, |s.pods| - 1, pod))
  }

  lemma Marks(lab: Labels, s: State, pod: string, outcome: Outcome)
    requires Waiting(s) && Parses(lab, s) && OnlyPod(lab, s, pod)
    ensures Reconciled(lab, s, outcome) == Episode(lab, Marked(s, pod), Approving(Alone(s, outcome)))
  {
    var c := Alone(s, outcome);
    var listed := s.(pc := Listed(c.read, |s.pods| - 1));
    Lists(lab, s, outcome);
    FoundOne(lab, s.pods[|s.pods| - 1], Latest(s).spec.selector, pod);
    assert Do(lab, listed, Mark) == Marked(s, pod);
    EpisodeStep(lab, listed, Mark, Approving(c));
  }

  function Executed(s: State, pod: string, outcome: Outcome): State
    requires s.versions != [] && s.pods != []
  {
    State(s.versions + [Stamped(s, Processing)], s.pods, s.execs + [ExecOn(s, pod, outcome)],
          if outcome == Interrupted then Idle else Refetching(|s.versions|, outcome))
  }

  lemma Executes(lab: Labels, s: State, pod: string, outcome: Outcome)
    requires Waiting(s) && Parses(lab, s) && OnlyPod(lab, s, pod)
    ensures var t := Executed(s, pod, outcome);
            Reconciled(lab, s, outcome) == if outcome == Interrupted then t else Episode(lab, t, Finishing(Alone(s, outcome)))
  {
    var c := Alone(s, outcome);
    Marks(lab, s, pod, outcome);
    assert Do(lab, Marked(s, pod), RunExec(outcome)) == Executed(s, pod, outcome);
    EpisodeStep(lab, Marked(s, pod), RunExec(outcome), Finishing(c));
  }

  /******* How a reconcile ends *******/

  /**
   With one matching pod the request's own ID is executed on that pod, once, and the version
   the reconcile worked on is stored as paired, failed, or still processing where the exec was
   cut off.
   */
  lemma OnePodIsExecuted(lab: Labels, s: State, pod: string, outcome: Outcome)
    requires Waiting(s) && Parses(lab, s) && OnlyPod(lab, s, pod)
    ensures var t := Reconciled(lab, s, outcome);
            && t.pc.Idle? && t.pods == s.pods && t.execs == s.execs + [ExecOn(s, pod, outcome)]
            && (outcome == Approved ==> t.versions == s.versions + [Stamped(s, Processing), Stamped(s, DevicePaired)])
            && (outcome == CommandFailed ==> t.versions == s.versions + [Stamped(s, Processing), Stamped(s, PairingFailed)])
            && (outcome == Interrupted ==> t.versions == s.versions + [Stamped(s, Processing)])
  {
    Executes(lab, s, pod, outcome);
    if outcome != Interrupted {
      var c, t := Alone(s, outcome), Executed(s, pod, outcome);
      var stored := t.(pc := Storing(|s.versions|, |s.versions|, outcome));
      EpisodeStep(lab, t, Refetch(c.reread), [Store]);
      assert Finishing(c) == [Refetch(c.reread)] + ([] + [Store]);
      assert Do(lab, t, Refetch(c.reread)) == stored;
      assert [] + [Store] == [Store];
      LastStep(lab, stored, Store);
    }
  }

  lemma BadSelectorIsStored(lab: Labels, s: State, outcome: Outcome)
    requires Waiting(s) && !Parses(lab, s)
    ensures Reconciled(lab, s, outcome) == s.(versions := s.versions + [Stamped(s, InvalidSelector)])
  {
    var c := Alone(s, outcome);
    ReadsLatest(lab, s, outcome);
    EpisodeStep(lab, s.(pc := Fetched(c.read)), List, Marking(c));
  }

  lemma NoPodIsStored(lab: Labels, s: State, outcome: Outcome)
    requires Waiting(s) && Parses(lab, s) && forall q :: !Matches(lab, s, q)
    ensures Reconciled(lab, s, outcome) == s.(versions := s.versions + [Stamped(s, NoMatchingPod)])
  {
    var c := Alone(s, outcome);
    Lists(lab, s, outcome);
    var found := Matching(lab, s.pods[|s.pods| - 1], Latest(s).spec.selector);
    assert forall q :: q in found ==> Matches(lab, s, q);
    assert found == {};
    EpisodeStep(lab, s.(pc := Listed(c.read, |s.pods| - 1)), Mark, Approving(c));
  }

  lemma SeveralPodsAreStored(lab: Labels, s: State, p: string, q: string, outcome: Outcome)
    requires Waiting(s) && Parses(lab, s) && p != q && Matches(lab, s, p) && Matches(lab, s, q)
    ensures Reconciled(lab, s, outcome) == s.(versions := s.versions + [Stamped(s, MultipleMatchingPods)])
  {
    var c := Alone(s, outcome);
    Lists(lab, s, outcome);
    var found := Matching(lab, s.pods[|s.pods| - 1], Latest(s).spec.selector);
    assert {p, q} <= found;
    assert |{p, q}| == 2 <= |found| by { SubsetIsSmaller({p, q}, found); }
    EpisodeStep(lab, s.(pc := Listed(c.read, |s.pods| - 1)), Mark, Approving(c));
  }

  lemma SubsetIsSmaller(a: set<string>, b: set<string>)
    requires a <= b
    ensures |a| <= |b|
  {
    assert |b| == |a| + |b - a| by { assert a + (b - a) == b; }
  }

  /** A reconcile by itself does nothing exactly if the request is deleted or paired in its present form. */
  lemma ReconcileActsIff(lab: Labels, s: State, outcome: Outcome)
    requires s.pc.Idle? && s.versions != [] && s.pods != []
    ensures Reconciled(lab, s, outcome) != s <==> Waiting(s)
  {
    var t := Reconciled(lab, s, outcome);
    if !Waiting(s) {
      EpisodeStep(lab, s, Get(|s.versions| - 1), Selecting(Alone(s, outcome)));
    } else if !Parses(lab, s) {
      BadSelectorIsStored(lab, s, outcome);
    } else if p :| Matches(lab, s, p) {
      if q :| q != p && Matches(lab, s, q) {
        SeveralPodsAreStored(lab, s, p, q, outcome);
      } else {
        assert forall q :: q in s.pods[|s.pods| - 1] && lab.matches(Latest(s).spec.selector, q) ==> Matches(lab, s, q);
        OnePodIsExecuted(lab, s, p, outcome);
      }
    } else {
      NoPodIsStored(lab, s, outcome);
    }
  }

  /******* An edited request is worked on again *******/

  /** A condition never runs ahead of the generation it is stored with. */
  ghost predicate ObservedSoFar(s: State) {
    forall i | 0 <= i < |s.versions| ::
      s.versions[i].ready.Some? ==> s.versions[i].ready.value.observed <= s.versions[i].generation
  }

  lemma StepKeepsObserved(lab: Labels, s: State, a: Action)
    requires ObservedSoFar(s)
    ensures ObservedSoFar(Do(lab, s, a))
  {
    var t := Do(lab, s, a);
    StepIsLater(lab, s, a);
    assert forall i | 0 <= i < |s.versions| :: t.versions[i] == s.versions[i];
  }

  lemma {:induction false} RunKeepsObserved(lab: Labels, s: State, acts: seq<Action>)
    requires ObservedSoFar(s)
    ensures ObservedSoFar(Run(lab, s, acts))
    decreases |acts|
  {
    if acts != [] {
      var init := acts[..|acts| - 1];
      RunKeepsObserved(lab, s, init);
      StepKeepsObserved(lab, Run(lab, s, init), acts[|acts| - 1]);
    }
  }

  /** Where an edit leads: a request that is not deleted, and whatever condition is stored for it. */
  lemma EditThenReconcile(lab: Labels, s: State, edited: Spec, pod: string)
    requires s.pc.Idle? && s.versions != [] && s.pods != [] && !Latest(s).deleted && ObservedSoFar(s)
    requires lab.parses(edited.selector) && OnlyMatch(lab, s.pods[|s.pods| - 1], edited.selector, pod)
    ensures var t := Do(lab, s, EditSpec(edited));
            && t.versions != []
            && var u := Reconciled(lab, t, Approved);
               && u.execs == s.execs + [Exec(|s.versions| + 1, |s.pods| - 1, pod, edited.requestID, Approved)]
               && u.versions != []
               && Latest(u) == Version(Latest(s).generation + 1, edited, Some(Condition(DevicePaired, Latest(s).generation + 1)), false)
  {
    var t := Do(lab, s, EditSpec(edited));
    assert t.versions == s.versions + [Version(Latest(s).generation + 1, edited, Latest(s).ready, false)];
    OnePodIsExecuted(lab, t, pod, Approved);
  }

  /**
   At every point of every run: whatever is stored for the request, paired or refused, a user
   who then edits a request that is not deleted gets the new request ID executed on the only
   pod of the new selector, and the new generation stored as paired.
   */
  lemma EditIsPaired(lab: Labels, spec: Spec, pods: set<string>, acts: seq<Action>, edited: Spec, pod: string)
    requires var s := Run(lab, Init(spec, pods), acts);
             && s.pc.Idle? && s.versions != [] && s.pods != [] && !Latest(s).deleted
             && lab.parses(edited.selector) && OnlyMatch(lab, s.pods[|s.pods| - 1], edited.selector, pod)
    ensures var s := Run(lab, Init(spec, pods), acts);
            var t := Do(lab, s, EditSpec(edited));
            && t.versions != []
            && var u := Reconciled(lab, t, Approved);
               && u.execs == s.execs + [Exec(|s.versions| + 1, |s.pods| - 1, pod, edited.requestID, Approved)]
               && u.versions != []
               && Latest(u) == Version(Latest(s).generation + 1, edited, Some(Condition(DevicePaired, Latest(s).generation + 1)), false)
  {
    RunKeepsObserved(lab, Init(spec, pods), acts);
    EditThenReconcile(lab, Run(lab, Init(spec, pods), acts), edited, pod);
  }

  /******* Deletion *******/

  /** The request is deleted, and the reconcile in flight has not come to its exec. */
  predicate Gone(s: State) {
    s.versions != [] && s.versions[|s.versions| - 1].deleted && (s.pc.Idle? || s.pc.Fetched? || s.pc.Listed?)
  }

  lemma StepKeepsGone(lab: Labels, s: State, a: Action)
    requires Gone(s)
    ensures var t := Do(lab, s, a); Gone(t) && t.versions == s.versions && t.execs == s.execs
  {
  }

  lemma {:induction false} GoneStaysGone(lab: Labels, s: State, acts: seq<Action>)
    requires Gone(s)
    ensures var t := Run(lab, s, acts); Gone(t) && t.versions == s.versions && t.execs == s.execs
    decreases |acts|
  {
    if acts != [] {
      GoneStaysGone(lab, s, acts[..|acts| - 1]);
      StepKeepsGone(lab, Run(lab, s, acts[..|acts| - 1]), acts[|acts| - 1]);
    }
  }

  /** Deleted before its exec, a request is left alone in every run: nothing is executed and nothing stored, stale reads or not. */
  lemma DeletedIsLeftAlone(lab: Labels, s: State, acts: seq<Action>)
    requires s.versions != [] && (s.pc.Idle? || s.pc.Fetched? || s.pc.Listed?)
    ensures var d, t := Do(lab, s, Delete), Run(lab, Do(lab, s, Delete), acts);
            d.versions != [] && d.versions[|d.versions| - 1].deleted && t.versions == d.versions && t.execs == s.execs
  {
    GoneStaysGone(lab, Do(lab, s, Delete), acts);
  }

  /******* Stale reads *******/

  /** Read out of date, the request is only looked at: no condition is stored and nothing is executed. */
  lemma StaleReadIsHarmless(lab: Labels, s: State, c: Circumstances)
    requires s.pc.Idle? && s.pods != [] && c.gaps == [[], [], [], [], []] && c.read + 1 < |s.versions|
    ensures Episode(lab, s, Script(c)) == s
  {
    EpisodeStep(lab, s, Get(c.read), Selecting(c));
    var fetched := s.(pc := Fetched(c.read));
    EpisodeStep(lab, fetched, List, Marking(c));
    EpisodeStep(lab, s.(pc := Listed(c.read, |s.pods| - 1)), Mark, Approving(c));
  }
}
