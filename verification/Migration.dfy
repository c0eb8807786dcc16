/**
 The doctor-migration protocol as a state machine.

 One `Action` is one atomic event: the reconciler's next API call, an API error that ends
 the reconcile in flight, a user edit of the Claw, or an event of the Deployment or Job
 controller.  A run is any sequence of actions, so every interleaving is covered.

 Environment assumptions, each visible in `Do`:
   - one reconcile at a time per Claw, and every read returns the stored object;
   - only the reconciler writes the gateway's `spec.replicas` and creates doctor Jobs;
   - a gateway pod starts only while the Deployment asks for replicas;
   - the Deployment's `status.replicas` is never below the number of running pods;
   - Jobs are not deleted, terminal Job conditions are not withdrawn and success counts
     do not decrease.
 */
module Migration {
  import opened Basics

  const IMAGE_BASE := "ghcr.io/openclaw/openclaw"
  const DEFAULT_VERSION := "2026.6.10"
  const DEFAULT_IMAGE := IMAGE_BASE + ":" + DEFAULT_VERSION

  /******* Objects *******/

  datatype Spec = Spec(image: string, version: string, doctorFix: bool, idle: bool)

  /** The MigrationComplete condition. */
  datatype Outcome = Unset | Pending | Complete | Failed

  datatype Status = Status(fixedImage: Option<string>, fixedJob: string, outcome: Outcome)

  datatype Claw = Claw(spec: Spec, status: Status)

  datatype Deployment = Deployment(image: string, replicas: nat)

  /** The counters a Deployment publishes in its status. */
  datatype Reported = Reported(replicas: nat, ready: nat)

  datatype Job = Job(image: string, succeeded: nat, failed: nat, completeCond: bool, failedCond: bool)

  /** How far the reconcile in flight has come, with the copy of the Claw it works on. */
  datatype Pc =
    | Rest
    | Fetched(snap: Claw)
    | Listed(snap: Claw, active: bool)
    | Applied(snap: Claw)
    | Announced(snap: Claw)
    | Drained(snap: Claw)
    | Quiet(snap: Claw)
    | Looked(snap: Claw, found: Option<Job>)
    | Created(snap: Claw)

  datatype State = State(
    claw: Claw,
    gateway: Option<Deployment>,
    pods: nat,
    reported: Reported,
    jobs: map<string, Job>,
    pc: Pc)

  datatype Action =
    | Reconcile
    | ApiError
    | Edit(spec: Spec)
    | PodStarts(reported: Reported)
    | PodStops(reported: Reported)
    | Report(reported: Reported)
    | JobProgress(name: string, job: Job)

  /******* Decisions *******/

  function EffectiveImage(spec: Spec): string {
    if spec.image != "" then spec.image
    else if spec.version != "" then IMAGE_BASE + ":" + spec.version
    else DEFAULT_IMAGE
  }

  /** The version default Reconcile fills in before it looks at anything else. */
  function Defaulted(spec: Spec): Spec {
    if spec.version == "" then spec.(version := DEFAULT_VERSION) else spec
  }

  predicate FixRecorded(claw: Claw) {
    claw.spec.doctorFix && claw.status.fixedImage == Some(EffectiveImage(claw.spec))
  }

  predicate FixPending(claw: Claw) {
    claw.spec.doctorFix && !FixRecorded(claw)
  }

  predicate JobActive(job: Job) {
    !job.completeCond && !job.failedCond
  }

  predicate IsActiveFix(job: Job) {
    job.image != "" && JobActive(job)
  }

  predicate HasActiveFix(jobs: map<string, Job>) {
    exists n :: n in jobs && IsActiveFix(jobs[n])
  }

  /******* Steps of the reconciler *******/

  function FetchClaw(s: State): State {
    s.(pc := Fetched(s.claw.(spec := Defaulted(s.claw.spec))))
  }

  /** Idle instances scale to zero and stop; all others list the doctor Jobs. */
  function AfterFetch(s: State, snap: Claw): State {
    if snap.spec.idle then
      s.(gateway := if s.gateway.Some? then Some(s.gateway.value.(replicas := 0)) else None, pc := Rest)
    else
      s.(pc := Listed(snap, HasActiveFix(s.jobs)))
  }

  function ApplyResources(s: State, snap: Claw, active: bool): State {
    var paused := FixPending(snap) || active;
    s.(gateway := Some(Deployment(EffectiveImage(snap.spec), if paused then 0 else 1)),
       pc := if paused then Applied(snap) else Rest)
  }

  function ReadDeployment(s: State, snap: Claw): State {
    s.(pc := if s.gateway.None? || s.reported.replicas != 0 || s.reported.ready != 0 then Rest else Drained(snap))
  }

  function LookUpJob(nm: string -> string, s: State, snap: Claw): State {
    var name := nm(EffectiveImage(snap.spec));
    s.(pc := Looked(snap, if name in s.jobs then Some(s.jobs[name]) else None))
  }

  function CreateJob(nm: string -> string, s: State, snap: Claw): State {
    var name := nm(EffectiveImage(snap.spec));
    if name in s.jobs then
      s.(pc := Rest)
    else
      s.(jobs := s.jobs[name := Job(EffectiveImage(snap.spec), 0, 0, false, false)], pc := Created(snap))
  }

  function SettleJob(nm: string -> string, s: State, snap: Claw, job: Job): State {
    if job.succeeded > 0 then
      var image := EffectiveImage(snap.spec);
      s.(claw := s.claw.(status := Status(Some(image), nm(image), Complete)), pc := Rest)
    else if !JobActive(job) && job.failed > 0 then
      s.(claw := s.claw.(status := snap.status.(outcome := Failed)), pc := Rest)
    else
      s.(pc := Rest)
  }

  /** The reconciler's next API call. */
  function ReconcileStep(nm: string -> string, s: State): State {
    match s.pc
    case Rest => FetchClaw(s)
    case Fetched(snap) => AfterFetch(s, snap)
    case Listed(snap, active) => ApplyResources(s, snap, active)
    case Applied(snap) => s.(claw := s.claw.(status := snap.status), pc := Announced(snap))
    case Announced(snap) => ReadDeployment(s, snap)
    case Drained(snap) => s.(pc := if HasActiveFix(s.jobs) then Rest else Quiet(snap))
    case Quiet(snap) => LookUpJob(nm, s, snap)
    case Looked(snap, None) => CreateJob(nm, s, snap)
    case Looked(snap, Some(job)) => SettleJob(nm, s, snap, job)
    case Created(snap) => s.(claw := s.claw.(status := snap.status.(outcome := Pending)), pc := Rest)
  }

  /******* Runs *******/

  /** What a Job controller may do to a Job. */
  predicate Progresses(before: Job, after: Job) {
    && after.image == before.image
    && after.succeeded >= before.succeeded
    && (before.completeCond ==> after.completeCond)
    && (before.failedCond ==> after.failedCond)
  }

  /** Effect of one action; an action whose guard fails changes nothing. */
  function Do(nm: string -> string, s: State, a: Action): State {
    match a
    case Reconcile => ReconcileStep(nm, s)
    case ApiError => s.(pc := Rest)
    case Edit(spec) => s.(claw := s.claw.(spec := spec))
    case PodStarts(r) =>
      if s.gateway.Some? && s.gateway.value.replicas > 0 && r.replicas >= s.pods + 1
      then s.(pods := s.pods + 1, reported := r) else s
    case PodStops(r) =>
      if s.pods > 0 && r.replicas >= s.pods - 1 then s.(pods := s.pods - 1, reported := r) else s
    case Report(r) =>
      if r.replicas >= s.pods then s.(reported := r) else s
    case JobProgress(n, job) =>
      if n in s.jobs && Progresses(s.jobs[n], job) then s.(jobs := s.jobs[n := job]) else s
  }

  function Run(nm: string -> string, s: State, acts: seq<Action>): State
    decreases |acts|
  {
    if acts == [] then s else Run(nm, Do(nm, s, acts[0]), acts[1..])
  }

  /** A Claw that was just created: no Deployment, no pod, no Job. */
  function Init(spec: Spec): State {
    State(Claw(spec, Status(None, "", Unset)), None, 0, Reported(0, 0), map[], Rest)
  }

  /** Images for which the run creates a Job, in order. */
  function Creations(nm: string -> string, s: State, acts: seq<Action>): seq<string>
    decreases |acts|
  {
    if acts == [] then []
    else
      (if acts[0] == Reconcile && s.pc.Looked? && s.pc.found.None? && nm(EffectiveImage(s.pc.snap.spec)) !in s.jobs
       then [EffectiveImage(s.pc.snap.spec)] else [])
      + Creations(nm, Do(nm, s, acts[0]), acts[1..])
  }

  /******* Isolation: the doctor Job and the gateway never share the volume *******/

  predicate GatewayPaused(s: State) {
    s.gateway.Some? && s.gateway.value.replicas == 0
  }

  ghost predicate Isolated(s: State) {
    HasActiveFix(s.jobs) ==> GatewayPaused(s) && s.pods == 0
  }

  ghost predicate OneActiveFix(s: State) {
    forall n, n' :: n in s.jobs && n' in s.jobs && IsActiveFix(s.jobs[n]) && IsActiveFix(s.jobs[n']) ==> n == n'
  }

  ghost predicate PcFacts(s: State) {
    match s.pc
    case Rest => true
    case Fetched(_) => true
    case Listed(_, active) => !active ==> !HasActiveFix(s.jobs)
    case Applied(_) => GatewayPaused(s)
    case Announced(_) => GatewayPaused(s)
    case Drained(_) => GatewayPaused(s) && s.pods == 0
    case Quiet(_) => GatewayPaused(s) && s.pods == 0 && !HasActiveFix(s.jobs)
    case Looked(_, _) => GatewayPaused(s) && s.pods == 0 && !HasActiveFix(s.jobs)
    case Created(_) => true
  }

  ghost predicate IsolationInv(s: State) {
    && Isolated(s)
    && OneActiveFix(s)
    && s.pods <= s.reported.replicas
    && PcFacts(s)
  }

  lemma ProgressKeepsQuiet(s: State, n: string, job: Job)
    requires n in s.jobs && Progresses(s.jobs[n], job)
    ensures forall k :: k in s.jobs && IsActiveFix(s.jobs[n := job][k]) ==> IsActiveFix(s.jobs[k])
    ensures HasActiveFix(s.jobs[n := job]) ==> HasActiveFix(s.jobs)
  {
    if HasActiveFix(s.jobs[n := job]) {
      var k :| k in s.jobs[n := job] && IsActiveFix(s.jobs[n := job][k]);
      assert IsActiveFix(s.jobs[k]);
    }
  }

  lemma ReconcileKeepsIsolation(nm: string -> string, s: State)
    requires IsolationInv(s)
    ensures IsolationInv(ReconcileStep(nm, s))
  {
    var s' := ReconcileStep(nm, s);
    if s'.jobs != s.jobs {
      assert s.pc.Looked? && s.pc.found.None?;
      var name := nm(EffectiveImage(s.pc.snap.spec));
      assert forall k :: k in s'.jobs && k != name ==> k in s.jobs && s'.jobs[k] == s.jobs[k];
    }
  }

  lemma StepKeepsIsolation(nm: string -> string, s: State, a: Action)
    requires IsolationInv(s)
    ensures IsolationInv(Do(nm, s, a))
  {
    match a
    case Reconcile => ReconcileKeepsIsolation(nm, s);
    case JobProgress(n, job) =>
      if n in s.jobs && Progresses(s.jobs[n], job) {
        ProgressKeepsQuiet(s, n, job);
      }
    case _ =>
  }

  lemma {:induction false} RunKeepsIsolation(nm: string -> string, s: State, acts: seq<Action>)
    requires IsolationInv(s)
    ensures IsolationInv(Run(nm, s, acts))
    decreases |acts|
  {
    if acts != [] {
      StepKeepsIsolation(nm, s, acts[0]);
      RunKeepsIsolation(nm, Do(nm, s, acts[0]), acts[1..]);
    }
  }

  /**
   In every state of every run, an active doctor Job implies that the Deployment asks for
   zero replicas and no gateway pod runs, and at most one doctor Job is active.
   */
  lemma DoctorJobRunsAlone(nm: string -> string, spec: Spec, acts: seq<Action>)
    ensures var s := Run(nm, Init(spec), acts); Isolated(s) && OneActiveFix(s)
  {
    RunKeepsIsolation(nm, Init(spec), acts);
  }

  /******* History: Jobs persist, and the recorded image is one whose Job succeeded *******/

  /** The images of a run get different Job names. */
  ghost predicate NoCollision(nm: string -> string, images: set<string>) {
    forall x, y :: x in images && y in images && nm(x) == nm(y) ==> x == y
  }

  ghost predicate EditsWithin(acts: seq<Action>, images: set<string>) {
    forall i :: 0 <= i < |acts| && acts[i].Edit? ==> EffectiveImage(acts[i].spec) in images
  }

  ghost predicate JobFor(nm: string -> string, s: State, image: string) {
    nm(image) in s.jobs && s.jobs[nm(image)].image == image
  }

  ghost predicate FixSucceeded(nm: string -> string, s: State, image: string) {
    JobFor(nm, s, image) && s.jobs[nm(image)].succeeded > 0
  }

  ghost predicate StatusHonest(nm: string -> string, s: State, status: Status) {
    && (status.fixedImage.Some? ==> FixSucceeded(nm, s, status.fixedImage.value))
    && (status.outcome == Complete ==> status.fixedImage.Some?)
  }

  ghost predicate SnapFacts(nm: string -> string, images: set<string>, s: State, snap: Claw) {
    EffectiveImage(snap.spec) in images && StatusHonest(nm, s, snap.status)
  }

  ghost predicate HistoryInv(nm: string -> string, images: set<string>, s: State) {
    && JobsNamed(nm, images, s)
    && SnapFacts(nm, images, s, s.claw)
    && (!s.pc.Rest? ==> SnapFacts(nm, images, s, s.pc.snap))
    && (s.pc.Looked? && s.pc.found.Some? ==>
          var n := nm(EffectiveImage(s.pc.snap.spec));
          n in s.jobs && s.jobs[n].succeeded >= s.pc.found.value.succeeded)
  }

  /** Jobs are kept, stay for the same image and never lose a success. */
  ghost predicate Later(s: State, s': State) {
    forall n :: n in s.jobs ==> n in s'.jobs && Progresses(s.jobs[n], s'.jobs[n])
  }

  /** Filling in the default version does not change which image is meant. */
  lemma DefaultKeepsImage(spec: Spec)
    ensures EffectiveImage(Defaulted(spec)) == EffectiveImage(spec)
  {
  }

  lemma StepIsLater(nm: string -> string, s: State, a: Action)
    ensures Later(s, Do(nm, s, a))
  {
  }

  lemma HonestStaysHonest(nm: string -> string, s: State, s': State, status: Status)
    requires Later(s, s') && StatusHonest(nm, s, status)
    ensures StatusHonest(nm, s', status)
  {
  }

  /** Every Job in the store is for an image of the run, under that image's name. */
  ghost predicate JobsNamed(nm: string -> string, images: set<string>, s: State) {
    forall n :: n in s.jobs ==> s.jobs[n].image in images && n == nm(s.jobs[n].image)
  }

  lemma SettleIsHonest(nm: string -> string, images: set<string>, s: State, snap: Claw, job: Job)
    requires NoCollision(nm, images) && JobsNamed(nm, images, s)
    requires SnapFacts(nm, images, s, s.claw) && SnapFacts(nm, images, s, snap)
    requires var n := nm(EffectiveImage(snap.spec)); n in s.jobs && s.jobs[n].succeeded >= job.succeeded
    ensures var s' := SettleJob(nm, s, snap, job); SnapFacts(nm, images, s', s'.claw)
  {
    var image := EffectiveImage(snap.spec);
    assert s.jobs[nm(image)].image == image;
  }

  lemma CreationKeepsHistory(nm: string -> string, images: set<string>, s: State)
    requires HistoryInv(nm, images, s) && s.pc.Looked? && s.pc.found.None?
    ensures HistoryInv(nm, images, ReconcileStep(nm, s))
  {
    var s' := ReconcileStep(nm, s);
    assert Later(s, s');
    HonestStaysHonest(nm, s, s', s.claw.status);
    HonestStaysHonest(nm, s, s', s.pc.snap.status);
  }

  lemma PlainStepKeepsHistory(nm: string -> string, images: set<string>, s: State)
    requires HistoryInv(nm, images, s) && !s.pc.Rest? && !s.pc.Looked?
    ensures HistoryInv(nm, images, ReconcileStep(nm, s))
  {
    var s', snap := ReconcileStep(nm, s), s.pc.snap;
    assert s'.jobs == s.jobs && s'.claw.spec == s.claw.spec && (s'.pc.Rest? || s'.pc.snap == snap);
    assert s'.claw.status == s.claw.status || s'.claw.status == snap.status || s'.claw.status == snap.status.(outcome := Pending);
    SameJobsSameHonesty(nm, s, s', s.claw.status);
    SameJobsSameHonesty(nm, s, s', snap.status);
  }

  lemma SameJobsSameHonesty(nm: string -> string, s: State, s': State, status: Status)
    requires s.jobs == s'.jobs && StatusHonest(nm, s, status)
    ensures StatusHonest(nm, s', status) && StatusHonest(nm, s', status.(outcome := Pending))
  {
  }

  lemma ReconcileKeepsHistory(nm: string -> string, images: set<string>, s: State)
    requires NoCollision(nm, images) && HistoryInv(nm, images, s)
    ensures HistoryInv(nm, images, ReconcileStep(nm, s))
  {
    var s' := ReconcileStep(nm, s);
    match s.pc
    case Rest => DefaultKeepsImage(s.claw.spec);
    case Looked(snap, None) => CreationKeepsHistory(nm, images, s);
    case Looked(snap, Some(job)) => SettleIsHonest(nm, images, s, snap, job);
    case _ => PlainStepKeepsHistory(nm, images, s);
  }

  lemma StepKeepsHistory(nm: string -> string, images: set<string>, s: State, a: Action)
    requires NoCollision(nm, images) && HistoryInv(nm, images, s)
    requires a.Edit? ==> EffectiveImage(a.spec) in images
    ensures HistoryInv(nm, images, Do(nm, s, a))
  {
    if a == Reconcile {
      ReconcileKeepsHistory(nm, images, s);
    } else {
      var s' := Do(nm, s, a);
      StepIsLater(nm, s, a);
      HonestStaysHonest(nm, s, s', s.claw.status);
      if !s.pc.Rest? {
        HonestStaysHonest(nm, s, s', s.pc.snap.status);
      }
    }
  }

  lemma {:induction false} RunKeepsHistory(nm: string -> string, images: set<string>, s: State, acts: seq<Action>)
    requires NoCollision(nm, images) && HistoryInv(nm, images, s) && EditsWithin(acts, images)
    ensures HistoryInv(nm, images, Run(nm, s, acts))
    decreases |acts|
  {
    if acts != [] {
      assert EditsWithin(acts[1..], images);
      assert acts[0].Edit? ==> EffectiveImage(acts[0].spec) in images;
      StepKeepsHistory(nm, images, s, acts[0]);
      RunKeepsHistory(nm, images, Do(nm, s, acts[0]), acts[1..]);
    }
  }

  lemma {:induction false} RunIsLater(nm: string -> string, s: State, acts: seq<Action>)
    ensures Later(s, Run(nm, s, acts))
    decreases |acts|
  {
    if acts != [] {
      StepIsLater(nm, s, acts[0]);
      RunIsLater(nm, Do(nm, s, acts[0]), acts[1..]);
    }
  }

  /**
   Whatever the run, `status.migration.doctorFixImage` names an image whose own doctor Job
   has succeeded.
   */
  lemma RecordedImageSucceeded(nm: string -> string, images: set<string>, spec: Spec, acts: seq<Action>)
    requires NoCollision(nm, images) && EffectiveImage(spec) in images && EditsWithin(acts, images)
    ensures var s := Run(nm, Init(spec), acts);
            s.claw.status.fixedImage.Some? ==> FixSucceeded(nm, s, s.claw.status.fixedImage.value)
  {
    RunKeepsHistory(nm, images, Init(spec), acts);
  }

  /**
   Whenever the reconciler applies a Deployment that asks for replicas, and whenever any step
   changes the Deployment to ask for them, no doctor Job is active, and the snapshot acted on
   either does not request migration or runs an image whose own doctor Job has succeeded.
   */
  lemma GatewayStartsOnlyWhenMigrated(
      nm: string -> string, images: set<string>, spec: Spec, acts: seq<Action>, a: Action)
    requires NoCollision(nm, images) && EffectiveImage(spec) in images && EditsWithin(acts, images)
    ensures var s := Run(nm, Init(spec), acts);
            var s' := Do(nm, s, a);
            (s'.gateway != s.gateway || (a == Reconcile && s.pc.Listed?))
            && s'.gateway.Some? && s'.gateway.value.replicas > 0 ==>
              && a == Reconcile
              && s.pc.Listed?
              && !HasActiveFix(s'.jobs)
              && s'.gateway.value.image == EffectiveImage(s.pc.snap.spec)
              && (s.pc.snap.spec.doctorFix ==> FixSucceeded(nm, s', s'.gateway.value.image))
  {
    RunKeepsIsolation(nm, Init(spec), acts);
    RunKeepsHistory(nm, images, Init(spec), acts);
  }

  lemma {:induction false} NoCreationForExisting(nm: string -> string, s: State, acts: seq<Action>, image: string)
    requires nm(image) in s.jobs
    ensures image !in Creations(nm, s, acts)
    decreases |acts|
  {
    if acts != [] {
      StepIsLater(nm, s, acts[0]);
      NoCreationForExisting(nm, Do(nm, s, acts[0]), acts[1..], image);
    }
  }

  lemma DistinctCons(x: string, rest: seq<string>)
    requires x !in rest && forall i, j :: 0 <= i < j < |rest| ==> rest[i] != rest[j]
    ensures forall i, j :: 0 <= i < j < |[x] + rest| ==> ([x] + rest)[i] != ([x] + rest)[j]
  {
    var c := [x] + rest;
    assert forall i :: 0 < i < |c| ==> c[i] == rest[i - 1] && c[i] in rest;
  }

  /** Each image gets at most one Job in a whole run, however the run goes. */
  lemma {:induction false} OneJobPerImage(nm: string -> string, s: State, acts: seq<Action>)
    ensures var c := Creations(nm, s, acts); forall i, j :: 0 <= i < j < |c| ==> c[i] != c[j]
    decreases |acts|
  {
    if acts != [] {
      var s' := Do(nm, s, acts[0]);
      OneJobPerImage(nm, s', acts[1..]);
      if acts[0] == Reconcile && s.pc.Looked? && s.pc.found.None? && nm(EffectiveImage(s.pc.snap.spec)) !in s.jobs {
        var image := EffectiveImage(s.pc.snap.spec);
        NoCreationForExisting(nm, s', acts[1..], image);
        DistinctCons(image, Creations(nm, s', acts[1..]));
      } else {
        assert Creations(nm, s, acts) == Creations(nm, s', acts[1..]);
      }
    }
  }

  /**
   A failed image is never retried: once its Job exists and is terminal, every
   continuation keeps it terminal and creates no further Job for that image.
   */
  lemma FailedImageIsNotRetried(nm: string -> string, s: State, acts: seq<Action>, image: string)
    requires nm(image) in s.jobs && !JobActive(s.jobs[nm(image)])
    ensures var s' := Run(nm, s, acts); nm(image) in s'.jobs && !JobActive(s'.jobs[nm(image)])
    ensures image !in Creations(nm, s, acts)
  {
    RunIsLater(nm, s, acts);
    NoCreationForExisting(nm, s, acts, image);
  }

  /******* The protocol does not block, and what its assumption on pod counts buys *******/

  predicate Undisturbed(acts: seq<Action>) {
    forall i :: 0 <= i < |acts| ==> !acts[i].Edit? && !acts[i].ApiError?
  }

  lemma {:induction false} RunAppend(nm: string -> string, s: State, a: seq<Action>, b: seq<Action>)
    ensures Run(nm, s, a + b) == Run(nm, Run(nm, s, a), b)
    decreases |a|
  {
    if a == [] {
      assert a + b == b;
    } else {
      assert (a + b)[1..] == a[1..] + b;
      RunAppend(nm, Do(nm, s, a[0]), a[1..], b);
    }
  }

  /** Some run without user edits or API errors leads from s to t. */
  ghost predicate Reaches(nm: string -> string, s: State, t: State) {
    exists acts :: Undisturbed(acts) && Run(nm, s, acts) == t
  }

  lemma ReachesItself(nm: string -> string, s: State)
    ensures Reaches(nm, s, s)
  {
    var none: seq<Action> := [];
    assert Undisturbed(none) && Run(nm, s, none) == s;
  }

  lemma ReachesOn(nm: string -> string, s: State, t: State, u: State)
    requires Reaches(nm, s, t) && Reaches(nm, t, u)
    ensures Reaches(nm, s, u)
  {
    var a :| Undisturbed(a) && Run(nm, s, a) == t;
    var b :| Undisturbed(b) && Run(nm, t, b) == u;
    RunAppend(nm, s, a, b);
    assert Undisturbed(a + b);
  }

  lemma ReachesBy(nm: string -> string, s: State, a: Action)
    requires Undisturbed([a])
    ensures Reaches(nm, s, Do(nm, s, a))
  {
    assert [a][1..] == [];
    assert Run(nm, s, [a]) == Do(nm, s, a);
  }

  function Steps(nm: string -> string, s: State, n: nat): State {
    if n == 0 then s else ReconcileStep(nm, Steps(nm, s, n - 1))
  }

  lemma {:induction false} ReachesSteps(nm: string -> string, s: State, n: nat)
    ensures Reaches(nm, s, Steps(nm, s, n))
  {
    if n == 0 {
      ReachesItself(nm, s);
    } else {
      ReachesSteps(nm, s, n - 1);
      ReachesBy(nm, Steps(nm, s, n - 1), Reconcile);
      ReachesOn(nm, s, Steps(nm, s, n - 1), Steps(nm, s, n));
    }
  }

  lemma {:induction false} ReachedKeepsIsolation(nm: string -> string, s: State, t: State)
    requires IsolationInv(s) && Reaches(nm, s, t)
    ensures IsolationInv(t)
  {
    var acts :| Undisturbed(acts) && Run(nm, s, acts) == t;
    RunKeepsIsolation(nm, s, acts);
  }

  /** All running pods stop and the Deployment reports zero. */
  lemma {:induction false} PodsDrain(nm: string -> string, s: State)
    ensures Reaches(nm, s, s.(pods := 0, reported := Reported(0, 0)))
    decreases s.pods
  {
    if s.pods == 0 {
      ReachesBy(nm, s, Report(Reported(0, 0)));
    } else {
      var a := PodStops(Reported(s.pods - 1, 0));
      ReachesBy(nm, s, a);
      PodsDrain(nm, Do(nm, s, a));
      ReachesOn(nm, s, Do(nm, s, a), s.(pods := 0, reported := Reported(0, 0)));
    }
  }

  /** A reconcile of a pending migration pauses the gateway and announces the migration. */
  lemma PauseGateway(nm: string -> string, s: State) returns (t: State)
    requires s.pc == Rest && !s.claw.spec.idle && FixPending(s.claw)
    ensures Reaches(nm, s, t)
    ensures t == s.(gateway := Some(Deployment(EffectiveImage(s.claw.spec), 0)), pc := Announced(s.claw.(spec := Defaulted(s.claw.spec))))
  {
    var snap := s.claw.(spec := Defaulted(s.claw.spec));
    DefaultKeepsImage(s.claw.spec);
    assert Steps(nm, s, 1) == s.(pc := Fetched(snap));
    assert Steps(nm, s, 2) == s.(pc := Listed(snap, HasActiveFix(s.jobs)));
    assert Steps(nm, s, 3).pc == Applied(snap);
    t := Steps(nm, s, 4);
    ReachesSteps(nm, s, 4);
  }

  /** ... and, once the pods are gone and no Job is active, looks for the image's Job. */
  lemma PauseAndLook(nm: string -> string, s: State) returns (t: State)
    requires s.pc == Rest && !s.claw.spec.idle && FixPending(s.claw) && !HasActiveFix(s.jobs)
    ensures Reaches(nm, s, t)
    ensures var snap, n := s.claw.(spec := Defaulted(s.claw.spec)), nm(EffectiveImage(s.claw.spec));
            t == s.(gateway := Some(Deployment(EffectiveImage(s.claw.spec), 0)), pods := 0, reported := Reported(0, 0),
                    pc := Looked(snap, if n in s.jobs then Some(s.jobs[n]) else None))
  {
    var paused := PauseGateway(nm, s);
    DefaultKeepsImage(s.claw.spec);
    PodsDrain(nm, paused);
    var drained := paused.(pods := 0, reported := Reported(0, 0));
    ReachesOn(nm, s, paused, drained);
    assert Steps(nm, drained, 1) == drained.(pc := Drained(paused.pc.snap));
    assert Steps(nm, drained, 2) == drained.(pc := Quiet(paused.pc.snap));
    t := Steps(nm, drained, 3);
    ReachesSteps(nm, drained, 3);
    ReachesOn(nm, s, drained, t);
  }

  /** Nothing is pending any more: the next reconcile brings the gateway up. */
  lemma StartGateway(nm: string -> string, s: State) returns (t: State)
    requires s.pc == Rest && !s.claw.spec.idle && !FixPending(s.claw) && !HasActiveFix(s.jobs)
    ensures Reaches(nm, s, t)
    ensures t == s.(gateway := Some(Deployment(EffectiveImage(s.claw.spec), 1)))
  {
    var snap := s.claw.(spec := Defaulted(s.claw.spec));
    DefaultKeepsImage(s.claw.spec);
    assert Steps(nm, s, 1) == s.(pc := Fetched(snap));
    assert Steps(nm, s, 2) == s.(pc := Listed(snap, HasActiveFix(s.jobs)));
    t := Steps(nm, s, 3);
    ReachesSteps(nm, s, 3);
  }

  /** After the image's Job succeeded, undisturbed reconciles record the image and bring the gateway up on it. */
  lemma ResumeGateway(nm: string -> string, s: State) returns (t: State)
    requires s.pc == Rest && !s.claw.spec.idle && FixPending(s.claw) && !HasActiveFix(s.jobs)
    requires var n := nm(EffectiveImage(s.claw.spec)); n in s.jobs && s.jobs[n].succeeded > 0
    ensures Reaches(nm, s, t)
    ensures t.gateway == Some(Deployment(EffectiveImage(s.claw.spec), 1)) && t.claw.spec == s.claw.spec
    ensures t.claw.status == Status(Some(EffectiveImage(s.claw.spec)), nm(EffectiveImage(s.claw.spec)), Complete)
  {
    DefaultKeepsImage(s.claw.spec);
    var looked := PauseAndLook(nm, s);
    var settled := ReconcileStep(nm, looked);
    ReachesBy(nm, looked, Reconcile);
    ReachesOn(nm, s, looked, settled);
    t := StartGateway(nm, settled);
    ReachesOn(nm, s, settled, t);
  }

  /** Where the image has no Job yet, undisturbed reconciles create it. */
  lemma CreateDoctorJob(nm: string -> string, s: State) returns (t: State)
    requires s.pc == Rest && !s.claw.spec.idle && FixPending(s.claw)
    requires !HasActiveFix(s.jobs) && nm(EffectiveImage(s.claw.spec)) !in s.jobs
    ensures Reaches(nm, s, t)
    ensures t.pc == Rest && t.claw == s.claw.(status := s.claw.status.(outcome := Pending))
    ensures t.jobs == s.jobs[nm(EffectiveImage(s.claw.spec)) := Job(EffectiveImage(s.claw.spec), 0, 0, false, false)]
  {
    var image := EffectiveImage(s.claw.spec);
    DefaultKeepsImage(s.claw.spec);
    var looked := PauseAndLook(nm, s);
    assert Steps(nm, looked, 1)
           == looked.(jobs := s.jobs[nm(image) := Job(image, 0, 0, false, false)], pc := Created(looked.pc.snap));
    t := Steps(nm, looked, 2);
    ReachesSteps(nm, looked, 2);
    ReachesOn(nm, s, looked, t);
  }

  /** ... and it may succeed. */
  lemma RunDoctor(nm: string -> string, s: State) returns (t: State)
    requires s.pc == Rest && !s.claw.spec.idle && FixPending(s.claw)
    requires !HasActiveFix(s.jobs) && nm(EffectiveImage(s.claw.spec)) !in s.jobs
    ensures Reaches(nm, s, t)
    ensures t.pc == Rest && t.claw.spec == s.claw.spec && FixPending(t.claw)
    ensures !HasActiveFix(t.jobs) && FixSucceeded(nm, t, EffectiveImage(s.claw.spec))
  {
    var image := EffectiveImage(s.claw.spec);
    var created := CreateDoctorJob(nm, s);
    var done := JobProgress(nm(image), Job(image, 1, 0, true, false));
    t := Do(nm, created, done);
    ReachesBy(nm, created, done);
    ReachesOn(nm, s, created, t);
  }

  /** The image's Job, if there is one, has succeeded or may still do so. */
  predicate NotFailed(nm: string -> string, s: State) {
    var n := nm(EffectiveImage(s.claw.spec));
    n in s.jobs ==> s.jobs[n].succeeded > 0 || JobActive(s.jobs[n])
  }

  function Rank(pc: Pc): nat {
    match pc
    case Rest => 0
    case Created(_) => 1
    case Looked(_, _) => 2
    case Quiet(_) => 3
    case Drained(_) => 4
    case Announced(_) => 5
    case Applied(_) => 6
    case Listed(_, _) => 7
    case Fetched(_) => 8
  }

  /** The reconcile in flight ends by itself. */
  lemma {:induction false} FinishReconcile(nm: string -> string, s: State) returns (t: State)
    requires NotFailed(nm, s)
    ensures Reaches(nm, s, t) && t.pc == Rest && t.claw.spec == s.claw.spec && NotFailed(nm, t)
    decreases Rank(s.pc)
  {
    if s.pc == Rest {
      t := s;
      ReachesItself(nm, s);
    } else {
      var next := ReconcileStep(nm, s);
      ReachesBy(nm, s, Reconcile);
      assert next.claw.spec == s.claw.spec && Rank(next.pc) < Rank(s.pc);
      t := FinishReconcile(nm, next);
      ReachesOn(nm, s, next, t);
    }
  }

  /** A Job that succeeds and completes. */
  lemma JobCompletes(nm: string -> string, s: State, n: string) returns (t: State)
    requires n in s.jobs
    ensures Reaches(nm, s, t)
    ensures t == s.(jobs := s.jobs[n := s.jobs[n].(succeeded := s.jobs[n].succeeded + 1, completeCond := true)])
  {
    var done := JobProgress(n, s.jobs[n].(succeeded := s.jobs[n].succeeded + 1, completeCond := true));
    ReachesBy(nm, s, done);
    t := Do(nm, s, done);
  }

  /** All Jobs that are still active may complete. */
  lemma JobsSettle(nm: string -> string, s: State) returns (t: State)
    requires IsolationInv(s) && s.pc == Rest && NotFailed(nm, s)
    ensures Reaches(nm, s, t) && t.pc == Rest && t.claw == s.claw && !HasActiveFix(t.jobs)
    ensures var n := nm(EffectiveImage(s.claw.spec)); n in t.jobs ==> t.jobs[n].succeeded > 0
  {
    var n := nm(EffectiveImage(s.claw.spec));
    var own := s;
    ReachesItself(nm, s);
    if n in s.jobs {
      own := JobCompletes(nm, s, n);
    }
    ReachedKeepsIsolation(nm, s, own);
    t := own;
    if HasActiveFix(own.jobs) {
      var m :| m in own.jobs && IsActiveFix(own.jobs[m]);
      t := JobCompletes(nm, own, m);
      ReachesOn(nm, s, own, t);
      assert !HasActiveFix(t.jobs) by {
        assert forall k | k in t.jobs && k != m :: t.jobs[k] == own.jobs[k];
      }
    }
  }

  lemma SettledCanFinish(nm: string -> string, s: State) returns (t: State)
    requires s.pc == Rest && !s.claw.spec.idle && !HasActiveFix(s.jobs)
    requires var n := nm(EffectiveImage(s.claw.spec)); n in s.jobs ==> s.jobs[n].succeeded > 0
    ensures Reaches(nm, s, t)
    ensures t.gateway == Some(Deployment(EffectiveImage(s.claw.spec), 1))
    ensures s.claw.spec.doctorFix ==> t.claw.status.fixedImage == Some(EffectiveImage(s.claw.spec))
  {
    if !FixPending(s.claw) {
      t := StartGateway(nm, s);
    } else if nm(EffectiveImage(s.claw.spec)) in s.jobs {
      t := ResumeGateway(nm, s);
    } else {
      var run := RunDoctor(nm, s);
      t := ResumeGateway(nm, run);
      ReachesOn(nm, s, run, t);
    }
  }

  /**
   The protocol never blocks: from every state with the isolation invariant, a reconcile in
   flight and other Jobs active or not, in which the wanted image's Job has not failed, some
   run without user edits or API errors brings the gateway up on that image, recorded as
   migrated if migration is asked for.
   */
  lemma MigrationCanFinish(nm: string -> string, s: State) returns (acts: seq<Action>)
    requires IsolationInv(s) && !s.claw.spec.idle && NotFailed(nm, s)
    ensures Undisturbed(acts)
    ensures Run(nm, s, acts).gateway == Some(Deployment(EffectiveImage(s.claw.spec), 1))
    ensures s.claw.spec.doctorFix ==> Run(nm, s, acts).claw.status.fixedImage == Some(EffectiveImage(s.claw.spec))
  {
    var rest := FinishReconcile(nm, s);
    ReachedKeepsIsolation(nm, s, rest);
    var settled := JobsSettle(nm, rest);
    ReachesOn(nm, s, rest, settled);
    var t := SettledCanFinish(nm, settled);
    ReachesOn(nm, s, settled, t);
    acts :| Undisturbed(acts) && Run(nm, s, acts) == t;
  }

  /**
   The bound on reported replicas is needed: if the Deployment reports zero while a pod still
   runs, the same reconciler starts a doctor Job beside that pod.
   */
  lemma UnderReportingBreaksIsolation(nm: string -> string, s: State) returns (acts: seq<Action>)
    requires s.pc == Rest && !s.claw.spec.idle && FixPending(s.claw)
    requires !HasActiveFix(s.jobs) && nm(EffectiveImage(s.claw.spec)) !in s.jobs
    requires s.pods > 0 && s.reported == Reported(0, 0)
    ensures Undisturbed(acts) && !Isolated(Run(nm, s, acts))
  {
    var image := EffectiveImage(s.claw.spec);
    DefaultKeepsImage(s.claw.spec);
    var paused := PauseGateway(nm, s);
    assert Steps(nm, paused, 1) == paused.(pc := Drained(paused.pc.snap));
    assert Steps(nm, paused, 2) == paused.(pc := Quiet(paused.pc.snap));
    assert Steps(nm, paused, 3) == paused.(pc := Looked(paused.pc.snap, None));
    var t := Steps(nm, paused, 4);
    ReachesSteps(nm, paused, 4);
    ReachesOn(nm, s, paused, t);
    assert t.jobs == s.jobs[nm(image) := Job(image, 0, 0, false, false)];
    assert IsActiveFix(t.jobs[nm(image)]);
    acts :| Undisturbed(acts) && Run(nm, s, acts) == t;
  }
}
