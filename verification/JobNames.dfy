/** Names of the doctor Jobs; the digest is a parameter with eight-character results. */
module JobNames {
  import Migration

  const INFIX := "-doctor-"
  const MAX_NAME := 63
  const DIGEST := 8

  function TrimDash(s: string): string {
    if |s| > 0 && s[|s| - 1] == '-' then s[..|s| - 1] else s
  }

  function Prefix(instance: string): string {
    var trimmed := TrimDash(instance);
    var max := MAX_NAME - |INFIX| - DIGEST;
    if |trimmed| > max then trimmed[..max] else trimmed
  }

  function JobName(digest: string -> string, instance: string, image: string): string {
    Prefix(instance) + INFIX + digest(image)
  }

  ghost predicate EightCharacters(digest: string -> string) {
    forall x :: |digest(x)| == DIGEST
  }

  /** The name in full: a final dash dropped, at most 47 characters of the instance, and the digest of the image. */
  lemma JobNameReads(digest: string -> string, instance: string, image: string)
    ensures forall i | instance == i + "-" && |i| <= 47 :: JobName(digest, instance, image) == i + "-doctor-" + digest(image)
    ensures |instance| <= 47 && (forall i :: instance != i + "-") ==>
              JobName(digest, instance, image) == instance + "-doctor-" + digest(image)
    ensures |instance| > 48 ==> JobName(digest, instance, image) == instance[..47] + "-doctor-" + digest(image)
  {
    if instance != "" && instance[|instance| - 1] == '-' {
      assert instance == instance[..|instance| - 1] + "-";
    }
    if |instance| > 48 {
      assert TrimDash(instance)[..47] == instance[..47];
    }
  }

  /** The name always fits the 63 characters Kubernetes allows. */
  lemma JobNameFits(digest: string -> string, instance: string, image: string)
    requires EightCharacters(digest)
    ensures |JobName(digest, instance, image)| <= MAX_NAME
  {
    assert |digest(image)| == DIGEST;
  }

  /** Two Job names coincide exactly when both the kept prefixes and the digests do. */
  lemma JobNamesCoincide(digest: string -> string, i: string, x: string, i': string, x': string)
    requires EightCharacters(digest)
    ensures JobName(digest, i, x) == JobName(digest, i', x')
            <==> Prefix(i) == Prefix(i') && digest(x) == digest(x')
  {
    var (n, n') := (JobName(digest, i, x), JobName(digest, i', x'));
    assert |digest(x)| == |digest(x')| == DIGEST;
    assert n[|Prefix(i)| + |INFIX|..] == digest(x) && n[..|Prefix(i)|] == Prefix(i);
    assert n'[|Prefix(i')| + |INFIX|..] == digest(x') && n'[..|Prefix(i')|] == Prefix(i');
  }

  /** Instance names of at most 47 characters without a final dash never share a Job name. */
  lemma ShortInstancesKeepApart(digest: string -> string, i: string, x: string, i': string, x': string)
    requires EightCharacters(digest)
    requires |i| <= 47 && |i'| <= 47 && TrimDash(i) == i && TrimDash(i') == i'
    requires i != i'
    ensures JobName(digest, i, x) != JobName(digest, i', x')
  {
    JobNamesCoincide(digest, i, x, i', x');
  }

  /** Beyond 47 characters the cut makes instances that agree so far collide on every image, a final dash aside. */
  lemma LongInstancesCollide(digest: string -> string, i: string, i': string, x: string)
    requires |TrimDash(i)| >= 47 && |TrimDash(i')| >= 47 && i[..47] == i'[..47]
    ensures JobName(digest, i, x) == JobName(digest, i', x)
  {
    assert TrimDash(i)[..47] == i[..47] && TrimDash(i')[..47] == i'[..47];
    assert |TrimDash(i)| == 47 ==> TrimDash(i)[..47] == TrimDash(i);
    assert |TrimDash(i')| == 47 ==> TrimDash(i')[..47] == TrimDash(i');
  }

  /** For one instance, the protocol's no-collision assumption is exactly one on digests. */
  lemma NoCollisionIsDigestInjective(digest: string -> string, instance: string, images: set<string>)
    requires EightCharacters(digest)
    ensures Migration.NoCollision(image => JobName(digest, instance, image), images)
            <==> (forall x, y :: x in images && y in images && digest(x) == digest(y) ==> x == y)
  {
    var nm := image => JobName(digest, instance, image);
    forall x, y
      ensures nm(x) == nm(y) <==> digest(x) == digest(y)
    {
      JobNamesCoincide(digest, instance, x, instance, y);
    }
  }
}
