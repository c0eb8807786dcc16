/**
 The device-pairing reconciler against the API server, the pods and a user who edits the
 request.  The API server keeps every version of the object; a read may return any version
 so far (caches lag), and a status write succeeds only on the latest version (resourceVersion
 conflict).  One reconcile runs at a time and only the operator writes the status.
 */
module Pairing {
  import opened Basics

  datatype Spec = Spec(requestID: string, selector: string)
  datatype Reason = InvalidSelector | NoMatchingPod | MultipleMatchingPods | Processing | PairingFailed | DevicePaired
  /** The Ready condition; its status is True exactly for DevicePaired. */
  datatype Condition = Condition(reason: Reason, observed: nat)
  datatype Version = Version(generation: nat, spec: Spec, ready: Option<Condition>, deleted: bool)

  datatype Outcome = Approved | CommandFailed | Interrupted
  /** An exec: the version marked Processing, when pods were listed, the pod, the request and how it ended. */
  datatype Exec = Exec(at: nat, listed: nat, pod: string, requestID: string, outcome: Outcome)

  /** Where the reconcile stands; the first field is the version it holds. */
  datatype Pc =
    | Idle
    | Fetched(held: nat)
    | Listed(held: nat, listed: nat)
    | Executing(at: nat, listed: nat, pod: string)
    | Refetching(at: nat, outcome: Outcome)
    | Storing(held: nat, at: nat, outcome: Outcome)

  datatype State = State(versions: seq<Version>, pods: seq<set<string>>, execs: seq<Exec>, pc: Pc)

  datatype Action =
    | Get(read: nat)
    | List
    | Mark
    | RunExec(outcome: Outcome)
    | Refetch(read: nat)
    | Store
    | Abort
    | EditSpec(spec: Spec)
    | EditMetadata
    | Delete
    | SetPods(pods: set<string>)

  /** Label selectors: which parse, and which pods they match. */
  datatype Labels = Labels(parses: string -> bool, matches: (string, string) -> bool)

  function Matching(lab: Labels, pods: set<string>, selector: string): set<string> {
    set p | p in pods && lab.matches(selector, p)
  }

  function Latest(s: State): (v: Version)
    requires s.versions != []
  {
    s.versions[|s.versions| - 1]
  }

  predicate AlreadyPaired(v: Version) {
    v.ready == Some(Condition(DevicePaired, v.generation))
  }

  function Set(v: Version, reason: Reason): Version {
    v.(ready := Some(Condition(reason, v.generation)))
  }

  /** A status update of the held version: a conflict unless it is the latest. */
  predicate Writes(s: State, held: nat) {
    held < |s.versions| && held == |s.versions| - 1 && !s.versions[held].deleted
  }

  function UpdateStatus(s: State, held: nat, reason: Reason): State {
    if Writes(s, held) then s.(versions := s.versions + [Set(s.versions[held], reason)], pc := Idle)
    else s.(pc := Idle)
  }

  function DoList(lab: Labels, s: State): State
    requires s.pc.Fetched? && s.pc.held < |s.versions| && s.pods != []
  {
    if !lab.parses(s.versions[s.pc.held].spec.selector) then UpdateStatus(s, s.pc.held, InvalidSelector)
    else s.(pc := Listed(s.pc.held, |s.pods| - 1))
  }

  function DoMark(lab: Labels, s: State): State
    requires s.pc.Listed? && s.pc.held < |s.versions| && s.pc.listed < |s.pods|
  {
    var found := Matching(lab, s.pods[s.pc.listed], s.versions[s.pc.held].spec.selector);
    if |found| == 0 then UpdateStatus(s, s.pc.held, NoMatchingPod)
    else if |found| > 1 then UpdateStatus(s, s.pc.held, MultipleMatchingPods)
    else if Writes(s, s.pc.held) then
      UpdateStatus(s, s.pc.held, Processing).(pc := Executing(|s.versions|, s.pc.listed, Only(found)))
    else s.(pc := Idle)
  }

  function Only(found: set<string>): (p: string)
    requires |found| == 1
    ensures found == {p}
  {
    OnlyExists(found);
    var p :| p in found && found == {p};
    p
  }

  lemma OnlyExists(found: set<string>)
    requires |found| == 1
    ensures exists p :: p in found && found == {p}
    ensures forall p, q :: p in found && found == {p} && q in found && found == {q} ==> p == q
  {
    var p :| p in found;
    assert |found - {p}| == 0;
    assert found == {p};
  }

  function DoExec(s: State, outcome: Outcome): State
    requires s.pc.Executing? && s.pc.at < |s.versions|
  {
    var e := Exec(s.pc.at, s.pc.listed, s.pc.pod, s.versions[s.pc.at].spec.requestID, outcome);
    s.(execs := s.execs + [e], pc := if outcome == Interrupted then Idle else Refetching(s.pc.at, outcome))
  }

  /** One step; an action that is not possible now changes nothing. */
  function Do(lab: Labels, s: State, a: Action): State {
    match a
    case Get(read) =>
      if !s.pc.Idle? || read >= |s.versions| || s.versions[read].deleted || AlreadyPaired(s.versions[read]) then s
      else s.(pc := Fetched(read))
    case List => if s.pc.Fetched? && s.pc.held < |s.versions| && s.pods != [] then DoList(lab, s) else s
    case Mark => if s.pc.Listed? && s.pc.held < |s.versions| && s.pc.listed < |s.pods| then DoMark(lab, s) else s
    case RunExec(outcome) => if s.pc.Executing? && s.pc.at < |s.versions| then DoExec(s, outcome) else s
    case Refetch(read) =>
      if !s.pc.Refetching? then s
      else if read >= |s.versions| || s.versions[read].deleted then s.(pc := Idle)
      else s.(pc := Storing(read, s.pc.at, s.pc.outcome))
    case Store =>
      if s.pc.Storing? then UpdateStatus(s, s.pc.held, if s.pc.outcome == Approved then DevicePaired else PairingFailed) else s
    case Abort => s.(pc := Idle)
    case EditSpec(spec) =>
      if s.versions == [] || Latest(s).deleted then s
      else s.(versions := s.versions + [Latest(s).(generation := Latest(s).generation + 1, spec := spec)])
    case EditMetadata =>
      if s.versions == [] || Latest(s).deleted then s else s.(versions := s.versions + [Latest(s)])
    case Delete =>
      if s.versions == [] || Latest(s).deleted then s else s.(versions := s.versions + [Latest(s).(deleted := true)])
    case SetPods(pods) => s.(pods := s.pods + [pods])
  }

  function Run(lab: Labels, s: State, acts: seq<Action>): State {
    if acts == [] then s else Do(lab, Run(lab, s, acts[..|acts| - 1]), acts[|acts| - 1])
  }

  function Init(spec: Spec, pods: set<string>): State {
    State([Version(1, spec, None, false)], [pods], [], Idle)
  }

  /** The spec changes between the Processing write and the re-fetch. */
  predicate EditInWindow(s: State, a: Action) {
    a.EditSpec? && (s.pc.Executing? || s.pc.Refetching?)
  }

  predicate QuietRun(lab: Labels, s: State, acts: seq<Action>) {
    acts == [] || (QuietRun(lab, s, acts[..|acts| - 1]) && !EditInWindow(Run(lab, s, acts[..|acts| - 1]), acts[|acts| - 1]))
  }

  /******* Invariants *******/

  ghost predicate Ascending(vs: seq<Version>) {
    forall i, j | 0 <= i <= j < |vs| :: vs[i].generation <= vs[j].generation
  }

  /** The exec was approved, for the request of the version it was marked on, on its only matching pod. */
  ghost predicate Genuine(lab: Labels, s: State, e: Exec) {
    && e.at < |s.versions| && e.listed < |s.pods|
    && e.requestID == s.versions[e.at].spec.requestID
    && Matching(lab, s.pods[e.listed], s.versions[e.at].spec.selector) == {e.pod}
  }

  ghost predicate PcHolds(lab: Labels, s: State) {
    match s.pc
    case Idle => true
    case Fetched(held) => held < |s.versions| && !AlreadyPaired(s.versions[held])
    case Listed(held, listed) => held < |s.versions| && listed < |s.pods| && !AlreadyPaired(s.versions[held])
    case Executing(at, listed, pod) =>
      && at < |s.versions| && listed < |s.pods|
      && Matching(lab, s.pods[listed], s.versions[at].spec.selector) == {pod}
    case Refetching(at, outcome) => at < |s.versions| && (outcome == Approved ==> ApprovedAt(s, at))
    case Storing(held, at, outcome) => held < |s.versions| && at < |s.versions| && (outcome == Approved ==> ApprovedAt(s, at))
  }

  ghost predicate ApprovedAt(s: State, at: nat) {
    exists k :: 0 <= k < |s.execs| && s.execs[k].at == at && s.execs[k].outcome == Approved
  }

  /** Some approved exec belongs to a generation up to g. */
  ghost predicate ApprovedUpTo(s: State, g: nat) {
    exists k :: 0 <= k < |s.execs| && s.execs[k].outcome == Approved
             && s.execs[k].at < |s.versions| && s.versions[s.execs[k].at].generation <= g
  }

  ghost predicate ApprovedFor(s: State, g: nat) {
    exists k :: 0 <= k < |s.execs| && s.execs[k].outcome == Approved
             && s.execs[k].at < |s.versions| && s.versions[s.execs[k].at].generation == g
  }

  predicate PairedAs(v: Version, g: nat) {
    v.ready == Some(Condition(DevicePaired, g))
  }

  ghost predicate Valid(lab: Labels, s: State) {
    && s.versions != [] && s.pods != [] && Ascending(s.versions) && PcHolds(lab, s)
    && (forall k | 0 <= k < |s.execs| :: Genuine(lab, s, s.execs[k]))
  }

  /** Histories only grow. */
  ghost predicate Later(s: State, t: State) {
    s.versions <= t.versions && s.pods <= t.pods && s.execs <= t.execs
  }

  lemma StepIsLater(lab: Labels, s: State, a: Action)
    ensures Later(s, Do(lab, s, a))
  {
  }

  lemma StepKeepsAscending(lab: Labels, s: State, a: Action)
    requires s.versions != [] && Ascending(s.versions)
    ensures Ascending(Do(lab, s, a).versions)
  {
    var t := Do(lab, s, a);
    assert forall i | 0 <= i < |s.versions| :: t.versions[i] == s.versions[i] && s.versions[i].generation <= Latest(s).generation;
  }

  lemma ApprovedLater(s: State, t: State, at: nat)
    requires Later(s, t) && ApprovedAt(s, at)
    ensures ApprovedAt(t, at)
  {
    var k :| 0 <= k < |s.execs| && s.execs[k].at == at && s.execs[k].outcome == Approved;
    assert t.execs[k] == s.execs[k];
  }

  lemma GenuineLater(lab: Labels, s: State, t: State, e: Exec)
    requires Later(s, t) && Genuine(lab, s, e)
    ensures Genuine(lab, t, e)
  {
  }

  lemma StepKeepsPc(lab: Labels, s: State, a: Action)
    requires Valid(lab, s)
    ensures PcHolds(lab, Do(lab, s, a))
  {
    var t := Do(lab, s, a);
    StepIsLater(lab, s, a);
    if s.pc.Refetching? && s.pc.outcome == Approved {
      ApprovedLater(s, t, s.pc.at);
    } else if s.pc.Storing? && s.pc.outcome == Approved {
      ApprovedLater(s, t, s.pc.at);
    } else if t.pc.Refetching? && t.pc.outcome == Approved {
      assert t.execs[|s.execs|].at == t.pc.at;
    }
  }

  lemma StepKeepsValid(lab: Labels, s: State, a: Action)
    requires Valid(lab, s)
    ensures Valid(lab, Do(lab, s, a))
  {
    var t := Do(lab, s, a);
    StepIsLater(lab, s, a);
    StepKeepsAscending(lab, s, a);
    StepKeepsPc(lab, s, a);
    forall k | 0 <= k < |t.execs| ensures Genuine(lab, t, t.execs[k]) {
      if k < |s.execs| {
        assert t.execs[k] == s.execs[k];
        GenuineLater(lab, s, t, s.execs[k]);
      }
    }
  }

  lemma {:induction false} RunKeepsValid(lab: Labels, s: State, acts: seq<Action>)
    requires Valid(lab, s)
    ensures Valid(lab, Run(lab, s, acts)) && Later(s, Run(lab, s, acts))
    decreases |acts|
  {
    if acts != [] {
      var init := acts[..|acts| - 1];
      RunKeepsValid(lab, s, init);
      StepKeepsValid(lab, Run(lab, s, init), acts[|acts| - 1]);
      StepIsLater(lab, Run(lab, s, init), acts[|acts| - 1]);
    }
  }

  /******* Paired means executed *******/

  /** Every stored DevicePaired names a generation at which, or before which, an exec was approved. */
  ghost predicate PairedAfterExec(s: State) {
    forall j, g | 0 <= j < |s.versions| && PairedAs(s.versions[j], g) :: ApprovedUpTo(s, g)
  }

  lemma UpToLater(s: State, t: State, g: nat)
    requires Later(s, t) && ApprovedUpTo(s, g)
    ensures ApprovedUpTo(t, g)
  {
    var k :| 0 <= k < |s.execs| && s.execs[k].outcome == Approved
             && s.execs[k].at < |s.versions| && s.versions[s.execs[k].at].generation <= g;
    assert t.execs[k] == s.execs[k] && t.versions[s.execs[k].at] == s.versions[s.execs[k].at];
  }

  /** A new version either carries an older Ready condition or is the one just stored. */
  lemma NewlyPaired(lab: Labels, s: State, a: Action, j: nat, g: nat)
    requires Valid(lab, s) && j < |Do(lab, s, a).versions| && PairedAs(Do(lab, s, a).versions[j], g)
    ensures (j < |s.versions| && PairedAs(s.versions[j], g))
         || (j == |s.versions| && PairedAs(Latest(s), g))
         || (j == |s.versions| && a.Store? && s.pc.Storing? && s.pc.outcome == Approved
             && s.pc.held == |s.versions| - 1 && g == Latest(s).generation)
  {
    assert j < |s.versions| ==> Do(lab, s, a).versions[j] == s.versions[j];
  }

  lemma StepKeepsPaired(lab: Labels, s: State, a: Action)
    requires Valid(lab, s) && PairedAfterExec(s)
    ensures PairedAfterExec(Do(lab, s, a))
  {
    var t := Do(lab, s, a);
    StepIsLater(lab, s, a);
    forall j, g | 0 <= j < |t.versions| && PairedAs(t.versions[j], g) ensures ApprovedUpTo(t, g) {
      NewlyPaired(lab, s, a, j, g);
      if a.Store? && s.pc.Storing? && s.pc.outcome == Approved && j == |s.versions| && g == Latest(s).generation {
        var k :| 0 <= k < |s.execs| && s.execs[k].at == s.pc.at && s.execs[k].outcome == Approved;
        assert s.versions[s.pc.at].generation <= Latest(s).generation;
        assert ApprovedUpTo(s, g);
      }
      UpToLater(s, t, g);
    }
  }

  lemma {:induction false} RunKeepsPaired(lab: Labels, s: State, acts: seq<Action>)
    requires Valid(lab, s) && PairedAfterExec(s)
    ensures PairedAfterExec(Run(lab, s, acts))
    decreases |acts|
  {
    if acts != [] {
      var init := acts[..|acts| - 1];
      RunKeepsPaired(lab, s, init);
      RunKeepsValid(lab, s, init);
      StepKeepsPaired(lab, Run(lab, s, init), acts[|acts| - 1]);
    }
  }

  /**
   In every run, DevicePaired observed at generation g means that an exec was approved, on
   the only pod then matching the selector and for the request ID of its own generation,
   and that this generation is at most g.
   */
  lemma PairedMeansExecuted(lab: Labels, spec: Spec, pods: set<string>, acts: seq<Action>, j: nat, g: nat) returns (k: nat)
    requires var s := Run(lab, Init(spec, pods), acts); j < |s.versions| && PairedAs(s.versions[j], g)
    ensures var s := Run(lab, Init(spec, pods), acts);
            && k < |s.execs| && s.execs[k].outcome == Approved && Genuine(lab, s, s.execs[k])
            && s.versions[s.execs[k].at].generation <= g
  {
    var s := Run(lab, Init(spec, pods), acts);
    RunKeepsValid(lab, Init(spec, pods), acts);
    RunKeepsPaired(lab, Init(spec, pods), acts);
    assert ApprovedUpTo(s, g);
    k :| 0 <= k < |s.execs| && s.execs[k].outcome == Approved
         && s.execs[k].at < |s.versions| && s.versions[s.execs[k].at].generation <= g;
  }

  /******* ... for the same generation, if the spec is not edited in the window *******/

  ghost predicate Exact(s: State) {
    && s.versions != []
    && (forall j, g | 0 <= j < |s.versions| && PairedAs(s.versions[j], g) :: ApprovedFor(s, g))
    && match s.pc
       case Executing(at, _, _) => at < |s.versions| && s.versions[at].generation == Latest(s).generation
       case Refetching(at, _) => at < |s.versions| && s.versions[at].generation == Latest(s).generation
       case Storing(held, at, _) =>
         at < |s.versions| && (held == |s.versions| - 1 ==> s.versions[at].generation == Latest(s).generation)
       case _ => true
  }

  lemma ForLater(s: State, t: State, g: nat)
    requires Later(s, t) && ApprovedFor(s, g)
    ensures ApprovedFor(t, g)
  {
    var k :| 0 <= k < |s.execs| && s.execs[k].outcome == Approved
             && s.execs[k].at < |s.versions| && s.versions[s.execs[k].at].generation == g;
    assert t.execs[k] == s.execs[k] && t.versions[s.execs[k].at] == s.versions[s.execs[k].at];
  }

  lemma StepKeepsExact(lab: Labels, s: State, a: Action)
    requires Valid(lab, s) && Exact(s) && !EditInWindow(s, a)
    ensures Exact(Do(lab, s, a))
  {
    var t := Do(lab, s, a);
    StepIsLater(lab, s, a);
    forall j, g | 0 <= j < |t.versions| && PairedAs(t.versions[j], g) ensures ApprovedFor(t, g) {
      NewlyPaired(lab, s, a, j, g);
      if a.Store? && s.pc.Storing? && s.pc.outcome == Approved && j == |s.versions| && g == Latest(s).generation && s.pc.held == |s.versions| - 1 {
        var k :| 0 <= k < |s.execs| && s.execs[k].at == s.pc.at && s.execs[k].outcome == Approved;
        assert ApprovedFor(s, g);
      }
      ForLater(s, t, g);
    }
  }

  lemma {:induction false} RunKeepsExact(lab: Labels, s: State, acts: seq<Action>)
    requires Valid(lab, s) && Exact(s) && QuietRun(lab, s, acts)
    ensures Exact(Run(lab, s, acts))
    decreases |acts|
  {
    if acts != [] {
      var init := acts[..|acts| - 1];
      RunKeepsExact(lab, s, init);
      RunKeepsValid(lab, s, init);
      StepKeepsExact(lab, Run(lab, s, init), acts[|acts| - 1]);
    }
  }

  /**
   If no spec edit falls between a Processing write and the following re-fetch, DevicePaired
   at generation g means an exec was approved for generation g itself.
   */
  lemma QuietPairingIsExact(lab: Labels, spec: Spec, pods: set<string>, acts: seq<Action>, j: nat, g: nat) returns (k: nat)
    requires QuietRun(lab, Init(spec, pods), acts)
    requires var s := Run(lab, Init(spec, pods), acts); j < |s.versions| && PairedAs(s.versions[j], g)
    ensures var s := Run(lab, Init(spec, pods), acts);
            && k < |s.execs| && s.execs[k].outcome == Approved && Genuine(lab, s, s.execs[k])
            && s.versions[s.execs[k].at].generation == g
  {
    var s := Run(lab, Init(spec, pods), acts);
    RunKeepsValid(lab, Init(spec, pods), acts);
    RunKeepsExact(lab, Init(spec, pods), acts);
    assert ApprovedFor(s, g);
    k :| 0 <= k < |s.execs| && s.execs[k].outcome == Approved
         && s.execs[k].at < |s.versions| && s.versions[s.execs[k].at].generation == g;
  }

  function Edits(acts: seq<Action>): nat {
    if acts == [] then 0 else Edits(acts[..|acts| - 1]) + if acts[|acts| - 1].EditSpec? then 1 else 0
  }

  lemma StepCountsEdit(lab: Labels, s: State, a: Action)
    requires s.versions != []
    ensures var t := Do(lab, s, a);
            && t.versions != [] && |t.versions| >= |s.versions|
            && (Latest(s).deleted ==> Latest(t) == Latest(s))
            && (!Latest(s).deleted ==> Latest(t).generation == Latest(s).generation + if a.EditSpec? then 1 else 0)
  {
  }

  lemma {:induction false} GenerationCountsEdits(lab: Labels, s: State, acts: seq<Action>)
    requires s.versions != []
    ensures var t := Run(lab, s, acts);
            && |t.versions| >= |s.versions|
            && (Latest(s).deleted ==> Latest(t).deleted)
            && (!Latest(t).deleted ==> Latest(t).generation == Latest(s).generation + Edits(acts))
    decreases |acts|
  {
    if acts != [] {
      GenerationCountsEdits(lab, s, acts[..|acts| - 1]);
      StepCountsEdit(lab, Run(lab, s, acts[..|acts| - 1]), acts[|acts| - 1]);
    }
  }

  lemma StoreApproved(lab: Labels, s: State)
    requires s.pc.Storing? && s.pc.outcome == Approved && Writes(s, s.pc.held)
    ensures var t := Do(lab, s, Store); t.pc.Idle? && t.versions == s.versions + [Set(Latest(s), DevicePaired)]
  {
  }

  /**
   The exact condition: an approved exec is recorded under its own generation if and only
   if the spec was not edited since the Processing write it started from.
   */
  lemma StampMatchesIffUnedited(lab: Labels, s: State, acts: seq<Action>)
    requires Valid(lab, s) && s.pc.Executing? && s.pc.at == |s.versions| - 1
    requires var t := Run(lab, s, acts);
             t.pc.Storing? && t.pc.at == s.pc.at && t.pc.outcome == Approved && Writes(t, t.pc.held)
    ensures var t := Do(lab, Run(lab, s, acts), Store);
            && t.pc.Idle? && AlreadyPaired(Latest(t))
            && (PairedAs(Latest(t), s.versions[s.pc.at].generation) <==> Edits(acts) == 0)
  {
    GenerationCountsEdits(lab, s, acts);
    var t := Run(lab, s, acts);
    StoreApproved(lab, t);
    assert Latest(s) == s.versions[s.pc.at] && !Latest(t).deleted;
    assert Latest(Do(lab, t, Store)) == Set(Latest(t), DevicePaired);
  }

  /******* Once paired, never again *******/

  /** From version j on, generation g is done: nothing the reconcile holds can lead to an exec for it. */
  ghost predicate Done(s: State, j: nat, g: nat) {
    && DoneSince(s.versions, j, g)
    && match s.pc
       case Idle => true
       case Fetched(held) => held >= j ==> held < |s.versions| && s.versions[held].generation > g
       case Listed(held, _) => held >= j ==> held < |s.versions| && s.versions[held].generation > g
       case Executing(at, _, _) => at < |s.versions| && s.versions[at].generation > g
       case Refetching(at, _) => at < |s.versions| && s.versions[at].generation > g
       case Storing(_, at, _) => at < |s.versions| && s.versions[at].generation > g
  }

  /** Generation g stays done as versions are added that have it done or are later. */
  ghost predicate DoneSince(vs: seq<Version>, j: nat, g: nat) {
    && j < |vs| && vs[j].generation == g
    && forall i | j <= i < |vs| :: vs[i].generation == g ==> PairedAs(vs[i], g)
  }

  lemma LastIsDone(lab: Labels, s: State, j: nat, g: nat)
    requires Valid(lab, s) && DoneSince(s.versions, j, g)
    ensures Latest(s).generation >= g && (Latest(s).generation == g ==> PairedAs(Latest(s), g))
  {
  }

  lemma DoneNext(vs: seq<Version>, v: Version, j: nat, g: nat)
    requires DoneSince(vs, j, g) && (v.generation == g ==> PairedAs(v, g))
    ensures DoneSince(vs + [v], j, g)
  {
    assert forall i | 0 <= i < |vs| :: (vs + [v])[i] == vs[i];
  }

  lemma StepKeepsVersionsDone(lab: Labels, s: State, a: Action, j: nat, g: nat)
    requires Valid(lab, s) && Done(s, j, g)
    ensures DoneSince(Do(lab, s, a).versions, j, g)
  {
    var t := Do(lab, s, a);
    LastIsDone(lab, s, j, g);
    if t.versions != s.versions {
      var v := t.versions[|s.versions|];
      assert t.versions == s.versions + [v];
      assert v.generation == g ==> PairedAs(v, g);
      DoneNext(s.versions, v, j, g);
    }
  }

  lemma StepKeepsDone(lab: Labels, s: State, a: Action, j: nat, g: nat)
    requires Valid(lab, s) && Done(s, j, g)
    ensures Done(Do(lab, s, a), j, g)
    ensures var t := Do(lab, s, a);
            && |t.execs| <= |s.execs| + 1
            && (|t.execs| > |s.execs| ==> t.execs[|s.execs|].at < |t.versions| && t.versions[t.execs[|s.execs|].at].generation > g)
  {
    StepKeepsVersionsDone(lab, s, a, j, g);
    StepIsLater(lab, s, a);
    LastIsDone(lab, s, j, g);
    NotDoneMeansLater(lab, s, j, g);
  }

  lemma NotDoneMeansLater(lab: Labels, s: State, j: nat, g: nat)
    requires Valid(lab, s) && DoneSince(s.versions, j, g)
    ensures forall i | j <= i < |s.versions| && !AlreadyPaired(s.versions[i]) :: s.versions[i].generation > g
  {
    assert forall i | j <= i < |s.versions| :: s.versions[i].generation >= s.versions[j].generation;
  }

  /** After DevicePaired is stored for generation g, no run executes anything for g again. */
  lemma {:induction false} PairedOnce(lab: Labels, s: State, acts: seq<Action>, j: nat, g: nat)
    requires Valid(lab, s) && Done(s, j, g)
    ensures Done(Run(lab, s, acts), j, g) && ExecsAfter(Run(lab, s, acts), |s.execs|, g)
    decreases |acts|
  {
    if acts != [] {
      var init, a := acts[..|acts| - 1], acts[|acts| - 1];
      var m := Run(lab, s, init);
      PairedOnce(lab, s, init, j, g);
      RunKeepsValid(lab, s, init);
      StepKeepsDone(lab, m, a, j, g);
      StepIsLater(lab, m, a);
      LaterExecsStay(m, Do(lab, m, a), |s.execs|, g);
    }
  }

  /** Every exec from the n-th on is for a later generation. */
  ghost predicate ExecsAfter(s: State, n: nat, g: nat) {
    n <= |s.execs| && forall k | n <= k < |s.execs| :: s.execs[k].at < |s.versions| && s.versions[s.execs[k].at].generation > g
  }

  lemma LaterExecsStay(m: State, t: State, n: nat, g: nat)
    requires Later(m, t) && ExecsAfter(m, n, g) && |t.execs| <= |m.execs| + 1
    requires |t.execs| > |m.execs| ==> t.execs[|m.execs|].at < |t.versions| && t.versions[t.execs[|m.execs|].at].generation > g
    ensures ExecsAfter(t, n, g)
  {
    forall k | n <= k < |t.execs| ensures t.execs[k].at < |t.versions| && t.versions[t.execs[k].at].generation > g {
      if k < |m.execs| {
        assert t.execs[k] == m.execs[k];
        assert t.versions[t.execs[k].at] == m.versions[m.execs[k].at];
      }
    }
  }

  /** Storing DevicePaired reaches such a state. */
  lemma StoredIsDone(lab: Labels, s: State)
    requires Valid(lab, s) && s.pc.Storing? && s.pc.outcome == Approved && Writes(s, s.pc.held)
    ensures Done(Do(lab, s, Store), |s.versions|, Latest(s).generation)
  {
  }

  /******* An edit in the window loses the request *******/

  const ANY := Labels((_: string) => true, (_: string, _: string) => true)
  const LOST := [Get(0), List, Mark, EditSpec(Spec("second", "app=claw")), RunExec(Approved), Refetch(2), Store]

  lemma Unroll(lab: Labels, s: State, acts: seq<Action>, i: nat)
    requires i < |acts|
    ensures Run(lab, s, acts[..i + 1]) == Do(lab, Run(lab, s, acts[..i]), acts[i])
  {
    assert acts[..i + 1][..i] == acts[..i];
  }

  /**
   Generation 2 is reported as paired although only the request of generation 1 was ever
   approved; by `PairedOnce` the second request is never approved.
   */
  lemma EditInWindowLosesRequest()
    ensures var s := Run(ANY, Init(Spec("first", "app=claw"), {"pod"}), LOST);
            && s.versions != [] && AlreadyPaired(Latest(s)) && Latest(s).generation == 2 && Latest(s).spec.requestID == "second"
            && s.execs == [Exec(1, 0, "pod", "first", Approved)]
            && Done(s, |s.versions| - 1, 2)
  {
    var s0 := Init(Spec("first", "app=claw"), {"pod"});
    var v0 := s0.versions[0];
    var v1 := Set(v0, Processing);
    var v2 := v1.(generation := 2, spec := Spec("second", "app=claw"));
    var found := Matching(ANY, {"pod"}, "app=claw");
    assert found == {"pod"};
    var s2 := s0.(pc := Listed(0, 0));
    assert Do(ANY, Do(ANY, s0, LOST[0]), LOST[1]) == s2;
    var s3 := State([v0, v1], [{"pod"}], [], Executing(1, 0, "pod"));
    assert Do(ANY, s2, LOST[2]) == s3 by {
      assert Only(found) == "pod";
      assert [v0] + [v1] == [v0, v1];
    }
    var s4 := s3.(versions := [v0, v1, v2]);
    assert Do(ANY, s3, LOST[3]) == s4;
    var s5 := s4.(execs := [Exec(1, 0, "pod", "first", Approved)], pc := Refetching(1, Approved));
    assert Do(ANY, s4, LOST[4]) == s5;
    var s6 := s5.(pc := Storing(2, 1, Approved));
    assert Do(ANY, s5, LOST[5]) == s6;
    var s7 := s6.(versions := [v0, v1, v2, Set(v2, DevicePaired)], pc := Idle);
    assert Do(ANY, s6, LOST[6]) == s7;
    assert Run(ANY, s0, LOST[..0]) == s0;
    Unroll(ANY, s0, LOST, 0);
    Unroll(ANY, s0, LOST, 1);
    Unroll(ANY, s0, LOST, 2);
    Unroll(ANY, s0, LOST, 3);
    Unroll(ANY, s0, LOST, 4);
    Unroll(ANY, s0, LOST, 5);
    Unroll(ANY, s0, LOST, 6);
    assert LOST[..7] == LOST;
  }
}
