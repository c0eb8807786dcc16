/**
 Which image a Claw asks for, said with the strings themselves, and what reconciles and whole
 runs of the doctor migration do with it.
 */
module MigrationImages {
  import opened Basics
  import opened Migration

  /** The image of the spec: its own, else the published one under its version, else under the default version. */
  predicate WantsImage(spec: Spec, image: string) {
    && (spec.image != "" ==> image == spec.image)
    && (spec.image == "" && spec.version != "" ==> image == "ghcr.io/openclaw/openclaw:" + spec.version)
    && (spec.image == "" && spec.version == "" ==> image == "ghcr.io/openclaw/openclaw:2026.6.10")
  }

  lemma WantedIsEffective(spec: Spec, image: string)
    ensures WantsImage(spec, image) <==> image == EffectiveImage(spec)
    ensures WantsImage(Defaulted(spec), image) <==> image == EffectiveImage(spec)
  {
    assert "ghcr.io/openclaw/openclaw" + ":" == "ghcr.io/openclaw/openclaw:";
    assert "ghcr.io/openclaw/openclaw" + ":" + "2026.6.10" == "ghcr.io/openclaw/openclaw:2026.6.10";
  }

  /** A doctor Job that has neither completed nor failed. */
  ghost predicate DoctorRuns(s: State) {
    exists n :: n in s.jobs && s.jobs[n].image != "" && !s.jobs[n].completeCond && !s.jobs[n].failedCond
  }

  lemma DoctorRunsIff(s: State)
    ensures DoctorRuns(s) <==> HasActiveFix(s.jobs)
  {
    if HasActiveFix(s.jobs) {
      var n :| n in s.jobs && IsActiveFix(s.jobs[n]);
    }
    if DoctorRuns(s) {
      var n :| n in s.jobs && s.jobs[n].image != "" && !s.jobs[n].completeCond && !s.jobs[n].failedCond;
      assert IsActiveFix(s.jobs[n]);
    }
  }

  /******* One reconcile *******/

  /**
   The Deployment a reconcile applies runs the image of the spec, and is down exactly if a
   doctor Job runs or the spec asks for a migration that is not recorded for this image.
   */
  lemma ReconcileApplies(nm: string -> string, s: State, image: string)
    requires s.pc == Rest && !s.claw.spec.idle && WantsImage(s.claw.spec, image)
    ensures var down := DoctorRuns(s) || (s.claw.spec.doctorFix && s.claw.status.fixedImage != Some(image));
            && Steps(nm, s, 3).gateway == Some(Deployment(image, if down then 0 else 1))
            && (Steps(nm, s, 3).pc == Rest <==> !down)
    ensures Steps(nm, s, 3).claw == s.claw && Steps(nm, s, 3).jobs == s.jobs && Steps(nm, s, 3).pods == s.pods
  {
    var snap := s.claw.(spec := Defaulted(s.claw.spec));
    WantedIsEffective(s.claw.spec, image);
    DefaultKeepsImage(s.claw.spec);
    DoctorRunsIff(s);
    assert Steps(nm, s, 1) == s.(pc := Fetched(snap));
    assert Steps(nm, s, 2) == s.(pc := Listed(snap, HasActiveFix(s.jobs)));
  }

  /** Specs without an image of their own get the image of their version, and different ones for different versions. */
  lemma VersionsGetOwnImages(nm: string -> string, s: State, t: State)
    requires s.pc == Rest && !s.claw.spec.idle && s.claw.spec.image == "" && s.claw.spec.version != ""
    requires t.pc == Rest && !t.claw.spec.idle && t.claw.spec.image == "" && t.claw.spec.version != ""
    requires s.claw.spec.version != t.claw.spec.version
    ensures Steps(nm, s, 3).gateway.Some? && Steps(nm, t, 3).gateway.Some?
    ensures Steps(nm, s, 3).gateway.value.image != Steps(nm, t, 3).gateway.value.image
  {
    var base := "ghcr.io/openclaw/openclaw:";
    ReconcileApplies(nm, s, base + s.claw.spec.version);
    ReconcileApplies(nm, t, base + t.claw.spec.version);
    assert (base + s.claw.spec.version)[|base|..] == s.claw.spec.version;
    assert (base + t.claw.spec.version)[|base|..] == t.claw.spec.version;
  }

  /** A new version makes a migration recorded for the old one pending: the next reconcile takes the gateway down. */
  lemma VersionEditIsPending(nm: string -> string, s: State, version: string)
    requires s.pc == Rest && s.claw.spec.image == "" && s.claw.spec.version != ""
    requires s.claw.status.fixedImage == Some("ghcr.io/openclaw/openclaw:" + s.claw.spec.version)
    requires version != "" && version != s.claw.spec.version
    ensures var t := Do(nm, s, Edit(Spec("", version, true, false)));
            && Steps(nm, t, 3).gateway == Some(Deployment("ghcr.io/openclaw/openclaw:" + version, 0))
            && Steps(nm, t, 3).pc != Rest
  {
    var base := "ghcr.io/openclaw/openclaw:";
    assert (base + version)[|base|..] == version;
    assert (base + s.claw.spec.version)[|base|..] == s.claw.spec.version;
    ReconcileApplies(nm, Do(nm, s, Edit(Spec("", version, true, false))), base + version);
  }

  /******* How a migration ends *******/

  ghost predicate Migrating(s: State, image: string) {
    && s.pc == Rest && WantsImage(s.claw.spec, image)
    && !s.claw.spec.idle && s.claw.spec.doctorFix && s.claw.status.fixedImage != Some(image)
  }

  /** While the Deployment still reports replicas or ready pods, the reconcile only takes the gateway down and ends. */
  lemma WaitsForPods(nm: string -> string, s: State, image: string)
    requires Migrating(s, image) && (s.reported.replicas != 0 || s.reported.ready != 0)
    ensures Steps(nm, s, 5) == s.(gateway := Some(Deployment(image, 0)))
  {
    PausesAndTells(nm, s, image);
  }

  /** ... and so it does while any doctor Job runs, be it of another image. */
  lemma WaitsForDoctor(nm: string -> string, s: State, image: string)
    requires Migrating(s, image) && DoctorRuns(s) && s.reported == Reported(0, 0)
    ensures Steps(nm, s, 6) == s.(gateway := Some(Deployment(image, 0)))
  {
    PausesAndTells(nm, s, image);
    DoctorRunsIff(s);
    assert Steps(nm, s, 5) == s.(gateway := Some(Deployment(image, 0)), pc := Drained(s.claw.(spec := Defaulted(s.claw.spec))));
  }

  lemma PausesAndTells(nm: string -> string, s: State, image: string)
    requires Migrating(s, image)
    ensures Steps(nm, s, 4) == s.(gateway := Some(Deployment(image, 0)), pc := Announced(s.claw.(spec := Defaulted(s.claw.spec))))
  {
    var snap := s.claw.(spec := Defaulted(s.claw.spec));
    WantedIsEffective(s.claw.spec, image);
    DefaultKeepsImage(s.claw.spec);
    assert Steps(nm, s, 1) == s.(pc := Fetched(snap));
    assert Steps(nm, s, 2) == s.(pc := Listed(snap, HasActiveFix(s.jobs)));
    assert Steps(nm, s, 3) == s.(gateway := Some(Deployment(image, 0)), pc := Applied(snap));
  }

  /** The state of the reconcile that looks for the image's Job, and how its own next step goes on. */
  lemma Looks(nm: string -> string, s: State, image: string) returns (t: State)
    requires Migrating(s, image) && !DoctorRuns(s)
    ensures Reaches(nm, s, t) && t.claw == s.claw && t.jobs == s.jobs && t.gateway == Some(Deployment(image, 0))
    ensures EffectiveImage(Defaulted(s.claw.spec)) == image
    ensures t.pc == Looked(s.claw.(spec := Defaulted(s.claw.spec)), if nm(image) in s.jobs then Some(s.jobs[nm(image)]) else None)
  {
    WantedIsEffective(s.claw.spec, image);
    DefaultKeepsImage(s.claw.spec);
    DoctorRunsIff(s);
    t := PauseAndLook(nm, s);
  }

  /** Without a Job for the image, undisturbed reconciles create one, of this image and under its name. */
  lemma MissingJobIsCreated(nm: string -> string, s: State, image: string) returns (t: State)
    requires Migrating(s, image) && !DoctorRuns(s) && nm(image) !in s.jobs
    ensures Reaches(nm, s, t) && t.pc == Rest && t.gateway == Some(Deployment(image, 0))
    ensures t.jobs == s.jobs[nm(image) := Job(image, 0, 0, false, false)]
    ensures t.claw == Claw(s.claw.spec, Status(s.claw.status.fixedImage, s.claw.status.fixedJob, Pending))
  {
    var looked := Looks(nm, s, image);
    assert Steps(nm, looked, 1)
           == looked.(jobs := s.jobs[nm(image) := Job(image, 0, 0, false, false)], pc := Created(looked.pc.snap));
    t := Steps(nm, looked, 2);
    ReachesSteps(nm, looked, 2);
    ReachesOn(nm, s, looked, t);
  }

  /** A Job that succeeded is recorded, with its image and name, and the gateway comes up on that image. */
  lemma SuccessIsRecorded(nm: string -> string, s: State, image: string) returns (t: State)
    requires Migrating(s, image) && !DoctorRuns(s) && nm(image) in s.jobs && s.jobs[nm(image)].succeeded > 0
    ensures Reaches(nm, s, t) && t.pc == Rest && t.jobs == s.jobs
    ensures t.claw == Claw(s.claw.spec, Status(Some(image), nm(image), Complete))
    ensures t.gateway == Some(Deployment(image, 1))
  {
    var looked := Looks(nm, s, image);
    var settled := looked.(claw := Claw(s.claw.spec, Status(Some(image), nm(image), Complete)), pc := Rest);
    assert ReconcileStep(nm, looked) == settled;
    ReachesBy(nm, looked, Reconcile);
    ReachesOn(nm, s, looked, settled);
    assert !DoctorRuns(settled);
    ReconcileApplies(nm, settled, image);
    t := Steps(nm, settled, 3);
    ReachesSteps(nm, settled, 3);
    ReachesOn(nm, s, settled, t);
  }

  /** A Job that ended with failures and no success is reported as failed; the gateway stays down. */
  lemma FailureIsReported(nm: string -> string, s: State, image: string) returns (t: State)
    requires Migrating(s, image) && !DoctorRuns(s) && nm(image) in s.jobs
    requires var job := s.jobs[nm(image)]; job.succeeded == 0 && job.failed > 0 && (job.completeCond || job.failedCond)
    ensures Reaches(nm, s, t) && t.pc == Rest && t.jobs == s.jobs && t.gateway == Some(Deployment(image, 0))
    ensures t.claw == Claw(s.claw.spec, Status(s.claw.status.fixedImage, s.claw.status.fixedJob, Failed))
  {
    var looked := Looks(nm, s, image);
    t := ReconcileStep(nm, looked);
    ReachesBy(nm, looked, Reconcile);
    ReachesOn(nm, s, looked, t);
  }

  /** A Job that ended without success or failure is waited for: nothing is recorded and nothing created. */
  lemma EmptyJobIsWaitedFor(nm: string -> string, s: State, image: string) returns (t: State)
    requires Migrating(s, image) && !DoctorRuns(s) && nm(image) in s.jobs
    requires s.jobs[nm(image)].succeeded == 0 && s.jobs[nm(image)].failed == 0
    ensures Reaches(nm, s, t) && t.pc == Rest && t.jobs == s.jobs && t.claw == s.claw && t.gateway == Some(Deployment(image, 0))
  {
    var looked := Looks(nm, s, image);
    t := ReconcileStep(nm, looked);
    ReachesBy(nm, looked, Reconcile);
    ReachesOn(nm, s, looked, t);
  }

  /**
   The protocol never blocks: while the Job of the wanted image has not failed, some run
   without user edits or API errors brings the gateway up on exactly that image.
   */
  lemma GatewayComesUpOn(nm: string -> string, s: State, image: string) returns (acts: seq<Action>)
    requires IsolationInv(s) && !s.claw.spec.idle && WantsImage(s.claw.spec, image)
    requires nm(image) in s.jobs ==>
               s.jobs[nm(image)].succeeded > 0 || (!s.jobs[nm(image)].completeCond && !s.jobs[nm(image)].failedCond)
    ensures Undisturbed(acts) && Run(nm, s, acts).gateway == Some(Deployment(image, 1))
    ensures s.claw.spec.doctorFix ==> Run(nm, s, acts).claw.status.fixedImage == Some(image)
  {
    WantedIsEffective(s.claw.spec, image);
    acts := MigrationCanFinish(nm, s);
  }

  /** ... and then a gateway pod may run on it. */
  lemma GatewayMayRun(nm: string -> string, s: State, image: string) returns (acts: seq<Action>)
    requires IsolationInv(s) && !s.claw.spec.idle && WantsImage(s.claw.spec, image) && nm(image) !in s.jobs
    ensures Undisturbed(acts) && Run(nm, s, acts).pods > 0 && Run(nm, s, acts).gateway == Some(Deployment(image, 1))
  {
    var up := GatewayComesUpOn(nm, s, image);
    var t := Run(nm, s, up);
    var start := [PodStarts(Reported(t.pods + 1, 0))];
    RunAppend(nm, s, up, start);
    assert start[1..] == [];
    assert Run(nm, t, start) == Do(nm, t, start[0]);
    acts := up + start;
  }

  /** What a reconcile in flight does where it meets less than it expects. */
  lemma SurprisesEndIt(nm: string -> string, s: State)
    ensures s.pc.Announced? && s.gateway == None ==> ReconcileStep(nm, s) == s.(pc := Rest)
    ensures forall job | s.pc.Looked? && s.pc.found == Some(job) && job.succeeded == 0 && !job.completeCond && !job.failedCond ::
              ReconcileStep(nm, s) == s.(pc := Rest)
    ensures s.pc.Applied? ==> ReconcileStep(nm, s).claw == Claw(s.claw.spec, s.pc.snap.status)
  {
  }

  /******* Whole runs *******/

  ghost predicate Wanted(specs: set<Spec>, image: string) {
    exists spec :: spec in specs && WantsImage(spec, image)
  }

  ghost predicate StatusWanted(specs: set<Spec>, status: Status) {
    status.fixedImage.Some? ==> Wanted(specs, status.fixedImage.value)
  }

  ghost predicate WrittenWithin(acts: seq<Action>, specs: set<Spec>) {
    forall i :: 0 <= i < |acts| && acts[i].Edit? ==> acts[i].spec in specs
  }

  /** Every image in the cluster is one of these specs'. */
  ghost predicate ImagesWanted(specs: set<Spec>, s: State) {
    && s.claw.spec in specs
    && (s.gateway.Some? ==> Wanted(specs, s.gateway.value.image))
    && (forall n :: n in s.jobs ==> Wanted(specs, s.jobs[n].image))
    && StatusWanted(specs, s.claw.status)
    && (!s.pc.Rest? ==> Wanted(specs, EffectiveImage(s.pc.snap.spec)) && StatusWanted(specs, s.pc.snap.status))
  }

  lemma StepKeepsImagesWanted(nm: string -> string, specs: set<Spec>, s: State, a: Action)
    requires ImagesWanted(specs, s) && (a.Edit? ==> a.spec in specs)
    ensures ImagesWanted(specs, Do(nm, s, a))
  {
    if a == Reconcile && s.pc == Rest {
      WantedIsEffective(s.claw.spec, EffectiveImage(s.claw.spec));
      DefaultKeepsImage(s.claw.spec);
    }
  }

  lemma {:induction false} RunKeepsImagesWanted(nm: string -> string, specs: set<Spec>, s: State, acts: seq<Action>)
    requires ImagesWanted(specs, s) && WrittenWithin(acts, specs)
    ensures ImagesWanted(specs, Run(nm, s, acts))
    decreases |acts|
  {
    if acts != [] {
      assert WrittenWithin(acts[1..], specs);
      StepKeepsImagesWanted(nm, specs, s, acts[0]);
      RunKeepsImagesWanted(nm, specs, Do(nm, s, acts[0]), acts[1..]);
    }
  }

  /**
   In every run from the creation of the Claw, the gateway, every doctor Job and the recorded
   migration name the image of some spec the user wrote.
   */
  lemma OnlyWantedImages(nm: string -> string, specs: set<Spec>, spec: Spec, acts: seq<Action>)
    requires spec in specs && WrittenWithin(acts, specs)
    ensures var s := Run(nm, Init(spec), acts);
            && (s.gateway.Some? ==> Wanted(specs, s.gateway.value.image))
            && (forall n :: n in s.jobs ==> Wanted(specs, s.jobs[n].image))
            && (s.claw.status.fixedImage.Some? ==> Wanted(specs, s.claw.status.fixedImage.value))
  {
    RunKeepsImagesWanted(nm, specs, Init(spec), acts);
  }

  predicate NoEdit(acts: seq<Action>) {
    forall i :: 0 <= i < |acts| ==> !acts[i].Edit?
  }

  /** A reconcile of an idle instance scales an existing gateway to zero and leaves everything else alone. */
  lemma IdleScalesDown(nm: string -> string, s: State)
    requires s.pc == Rest && s.claw.spec.idle
    ensures s.gateway == None ==> Steps(nm, s, 2) == s
    ensures s.gateway.Some? ==> Steps(nm, s, 2) == s.(gateway := Some(Deployment(s.gateway.value.image, 0)))
  {
    var snap := s.claw.(spec := Defaulted(s.claw.spec));
    assert Steps(nm, s, 1) == s.(pc := Fetched(snap));
  }

  ghost predicate Down(s: State) {
    && (s.gateway.Some? ==> s.gateway.value.replicas == 0)
    && s.claw.spec.idle && (s.pc == Rest || (s.pc.Fetched? && s.pc.snap.spec.idle))
  }

  /** From then on, until the spec is edited, it stays down: no pod starts, no Job is created and no status is written. */
  lemma {:induction false} IdleStaysDown(nm: string -> string, s: State, acts: seq<Action>)
    requires Down(s) && NoEdit(acts)
    ensures var t := Run(nm, s, acts);
            && Down(t) && t.pods <= s.pods && t.jobs.Keys == s.jobs.Keys && t.claw == s.claw
    decreases |acts|
  {
    if acts != [] {
      assert !acts[0].Edit?;
      assert NoEdit(acts[1..]);
      IdleStaysDown(nm, Do(nm, s, acts[0]), acts[1..]);
    }
  }

  /** The wanted image's Job ended without success, and whatever is in flight knows no better. */
  ghost predicate Stuck(nm: string -> string, s: State, image: string) {
    && WantsImage(s.claw.spec, image) && !s.claw.spec.idle && s.claw.spec.doctorFix && s.claw.status.fixedImage != Some(image)
    && (s.gateway.Some? ==> s.gateway.value.replicas == 0)
    && nm(image) in s.jobs && s.jobs[nm(image)].succeeded == 0
    && (!s.pc.Rest? ==>
          && s.pc.snap.spec == Defaulted(s.claw.spec) && s.pc.snap.status.fixedImage != Some(image)
          && (s.pc.Looked? && s.pc.found.Some? ==> s.pc.found.value.succeeded == 0))
  }

  /** The Job of this image does not succeed any more. */
  predicate NoSuccess(nm: string -> string, acts: seq<Action>, image: string) {
    forall i :: 0 <= i < |acts| && acts[i].JobProgress? && acts[i].name == nm(image) ==> acts[i].job.succeeded == 0
  }

  lemma StepKeepsStuck(nm: string -> string, s: State, a: Action, image: string)
    requires Stuck(nm, s, image) && !a.Edit? && NoSuccess(nm, [a], image)
    ensures Stuck(nm, Do(nm, s, a), image) && Do(nm, s, a).pods <= s.pods
  {
    if a == Reconcile {
      WantedIsEffective(s.claw.spec, image);
      DefaultKeepsImage(s.claw.spec);
    } else {
      assert [a][0] == a;
    }
  }

  /** Until the spec is edited, a migration whose Job gained no success keeps the gateway down in every run. */
  lemma {:induction false} UnmigratedStaysDown(nm: string -> string, s: State, acts: seq<Action>, image: string)
    requires Stuck(nm, s, image) && NoEdit(acts) && NoSuccess(nm, acts, image)
    ensures Stuck(nm, Run(nm, s, acts), image) && Run(nm, s, acts).pods <= s.pods
    decreases |acts|
  {
    if acts != [] {
      assert !acts[0].Edit? && NoEdit(acts[1..]) && NoSuccess(nm, acts[1..], image);
      StepKeepsStuck(nm, s, acts[0], image);
      UnmigratedStaysDown(nm, Do(nm, s, acts[0]), acts[1..], image);
    }
  }
}
