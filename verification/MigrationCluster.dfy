/**
 The reconciler of the doctor migration in its imperative form: each method makes one API
 call on the shared cluster objects, and `Advance` runs the next call of the reconcile in
 flight.  Every method is tied to the step function of `Migration` that specifies it.
 */
module MigrationCluster {
  import opened Basics
  import opened Migration
  import opened MigrationImages

  /** A rendered manifest, as far as pausing the gateway looks at it. */
  datatype Manifest = Manifest(kind: string, name: string, replicas: nat)

  predicate IsGateway(m: Manifest, gateway: string) {
    m.kind == "Deployment" && m.name == gateway
  }

  /** Sets the gateway manifest's replicas to zero in place; fails when there is none. */
  method PauseGatewayManifest(objects: array<Manifest>, gateway: string) returns (found: bool)
    modifies objects
    ensures found <==> exists i :: 0 <= i < objects.Length && IsGateway(old(objects[i]), gateway)
    ensures forall i :: 0 <= i < objects.Length ==>
              objects[i] ==
              if IsGateway(old(objects[i]), gateway) && (forall j :: 0 <= j < i ==> !IsGateway(old(objects[j]), gateway))
              then old(objects[i]).(replicas := 0)
              else old(objects[i])
  {
    for i := 0 to objects.Length
      invariant forall j :: 0 <= j < objects.Length ==> objects[j] == old(objects[j])
      invariant forall j :: 0 <= j < i ==> !IsGateway(objects[j], gateway)
    {
      if IsGateway(objects[i], gateway) {
        objects[i] := objects[i].(replicas := 0);
        return true;
      }
    }
    return false;
  }

  class Cluster {
    var claw: Claw
    var gateway: Option<Deployment>
    var pods: nat
    var reported: Reported
    var jobs: map<string, Job>
    var pc: Pc

    constructor (spec: Spec)
      ensures View() == Init(spec)
    {
      claw := Claw(spec, Status(None, "", Unset));
      gateway, pods, reported, jobs, pc := None, 0, Reported(0, 0), map[], Rest;
    }

    function View(): State
      reads this
    {
      State(claw, gateway, pods, reported, jobs, pc)
    }

    /** Walks the listed Jobs until one is an active doctor Job. */
    method HasActiveDoctorFix() returns (active: bool)
      ensures active == HasActiveFix(jobs)
    {
      var rest := jobs.Keys;
      while rest != {}
        invariant rest <= jobs.Keys
        invariant forall n :: n in jobs && n !in rest ==> !IsActiveFix(jobs[n])
        decreases |rest|
      {
        var n :| n in rest;
        if IsActiveFix(jobs[n]) {
          return true;
        }
        rest := rest - {n};
      }
      return false;
    }

    /** Idle instances: scale the gateway to zero unless it already is there or does not exist. */
    method ScaleToZero()
      modifies this`gateway
      ensures gateway == if old(gateway).Some? then Some(old(gateway).value.(replicas := 0)) else None
    {
      if gateway.None? {
        return;
      }
      if gateway.value.replicas == 0 {
        return;
      }
      gateway := Some(gateway.value.(replicas := 0));
    }

    /** Applies the gateway Deployment, paused while a migration is pending or running. */
    method ApplyGateway(snap: Claw, active: bool)
      modifies this`gateway, this`pc
      ensures View() == ApplyResources(old(View()), snap, active)
      ensures gateway.Some? && WantsImage(snap.spec, gateway.value.image)
      ensures gateway.value.replicas
           == if active || (snap.spec.doctorFix && snap.status.fixedImage != Some(gateway.value.image)) then 0 else 1
    {
      WantedIsEffective(snap.spec, EffectiveImage(snap.spec));
      var replicas := 1;
      if FixPending(snap) || active {
        replicas := 0;
      }
      gateway := Some(Deployment(EffectiveImage(snap.spec), replicas));
      if FixPending(snap) || active {
        pc := Applied(snap);
      } else {
        pc := Rest;
      }
    }

    /** The tail of the migration: create the Job, or record how it ended. */
    method FinishDoctorFix(nm: string -> string, snap: Claw, found: Option<Job>)
      requires pc == Looked(snap, found)
      modifies this
      ensures View() == ReconcileStep(nm, old(View()))
    {
      var wantImage := EffectiveImage(snap.spec);
      var wantName := nm(wantImage);
      if found.None? {
        if wantName in jobs {
          pc := Rest;
          return;
        }
        jobs := jobs[wantName := Job(wantImage, 0, 0, false, false)];
        pc := Created(snap);
        return;
      }
      if found.value.succeeded > 0 {
        claw := claw.(status := Status(Some(wantImage), wantName, Complete));
      } else if !JobActive(found.value) && found.value.failed > 0 {
        claw := claw.(status := snap.status.(outcome := Failed));
      }
      pc := Rest;
    }

    /** The next API call of the reconcile in flight. */
    method Advance(nm: string -> string)
      modifies this
      ensures View() == ReconcileStep(nm, old(View()))
    {
      match pc {
        case Rest =>
          pc := Fetched(claw.(spec := Defaulted(claw.spec)));
        case Fetched(snap) =>
          if snap.spec.idle {
            ScaleToZero();
            pc := Rest;
          } else {
            var active := HasActiveDoctorFix();
            pc := Listed(snap, active);
          }
        case Listed(snap, active) =>
          ApplyGateway(snap, active);
        case Applied(snap) =>
          claw := claw.(status := snap.status);
          pc := Announced(snap);
        case Announced(snap) =>
          if gateway.None? || reported.replicas != 0 || reported.ready != 0 {
            pc := Rest;
          } else {
            pc := Drained(snap);
          }
        case Drained(snap) =>
          var active := HasActiveDoctorFix();
          pc := if active then Rest else Quiet(snap);
        case Quiet(snap) =>
          var name := nm(EffectiveImage(snap.spec));
          pc := Looked(snap, if name in jobs then Some(jobs[name]) else None);
        case Looked(snap, found) =>
          FinishDoctorFix(nm, snap, found);
        case Created(snap) =>
          claw := claw.(status := snap.status.(outcome := Pending));
          pc := Rest;
      }
    }
  }
}
