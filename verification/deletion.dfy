/**
 * What the bulk delete attempts and how each attempt is classified.
 *
 * Every image contributes one deregister attempt followed by one snapshot
 * delete per EBS mapping, in mapping order; images follow each other in input
 * order. Each attempt lands in the success list or the failure list.
 */
module Deletion {
  import opened Wrappers
  import opened Ec2

  /** One delete attempt: deregistering an image or deleting a snapshot. */
  datatype Target = Deregister(id: string) | RemoveSnapshot(id: string)

  /** The snapshot deletions of an image: one per mapping with an EBS device, in mapping order. */
  function SnapshotTargets(bdms: seq<BlockDeviceMapping>): seq<Target> {
    if bdms == [] then []
    else
      var last := bdms[|bdms| - 1];
      SnapshotTargets(bdms[..|bdms| - 1]) + (if last.ebs.Some? then [RemoveSnapshot(last.ebs.value.snapshotId)] else [])
  }

  /** The attempts for one image: its deregistration, then its snapshot deletions. */
  function ImageTargets(ami: Image): seq<Target> {
    [Deregister(ami.imageId)] + SnapshotTargets(ami.blockDeviceMappings)
  }

  /** The attempts for a list of images, image after image. */
  function Targets(amis: seq<Image>): (r: seq<Target>)
    ensures |r| >= |amis|
  {
    if amis == [] then []
    else Targets(amis[..|amis| - 1]) + ImageTargets(amis[|amis| - 1])
  }

  function Ids(ts: seq<Target>): seq<string> {
    if ts == [] then [] else Ids(ts[..|ts| - 1]) + [ts[|ts| - 1].id]
  }

  /** The number of mappings that carry an EBS device. */
  function EbsCount(bdms: seq<BlockDeviceMapping>): nat {
    if bdms == [] then 0
    else EbsCount(bdms[..|bdms| - 1]) + (if bdms[|bdms| - 1].ebs.Some? then 1 else 0)
  }

  /** The number of EBS mappings over all images. */
  function SnapshotCount(amis: seq<Image>): nat {
    if amis == [] then 0
    else SnapshotCount(amis[..|amis| - 1]) + EbsCount(amis[|amis| - 1].blockDeviceMappings)
  }

  /** The reading of the backend's answer to one attempt, with the dry-run flag passed through. */
  function ReplyTo(b: Backend, dryRun: bool, t: Target): Reply {
    match t
    case Deregister(id) => Classify(b.deregisterImage(id, dryRun))
    case RemoveSnapshot(id) => Classify(b.deleteSnapshot(id, dryRun))
  }

  /** The IDs whose attempt succeeded, in attempt order. */
  function Successes(b: Backend, dryRun: bool, ts: seq<Target>): seq<string> {
    if ts == [] then []
    else
      var last := ts[|ts| - 1];
      Successes(b, dryRun, ts[..|ts| - 1]) + (if Succeeded(ReplyTo(b, dryRun, last)) then [last.id] else [])
  }

  /** The IDs whose attempt failed, in attempt order. */
  function Failures(b: Backend, dryRun: bool, ts: seq<Target>): seq<string> {
    if ts == [] then []
    else
      var last := ts[|ts| - 1];
      Failures(b, dryRun, ts[..|ts| - 1]) + (if Succeeded(ReplyTo(b, dryRun, last)) then [] else [last.id])
  }

  /**
   * Every reported success is the ID of an attempt whose answer was a
   * success, and every reported failure the ID of one whose answer was not.
   */
  lemma {:induction false} Sound(b: Backend, dryRun: bool, ts: seq<Target>)
    ensures forall id :: id in Successes(b, dryRun, ts) ==>
      exists t :: t in ts && t.id == id && Succeeded(ReplyTo(b, dryRun, t))
    ensures forall id :: id in Failures(b, dryRun, ts) ==>
      exists t :: t in ts && t.id == id && !Succeeded(ReplyTo(b, dryRun, t))
  {
    if ts != [] {
      var init, last := ts[..|ts| - 1], ts[|ts| - 1];
      Sound(b, dryRun, init);
      assert last in ts;
      assert forall t :: t in init ==> t in ts;
    }
  }

  /** The attempts for the first `i + 1` images extend those for the first `i` by image `i`'s. */
  lemma TargetsSnoc(amis: seq<Image>, i: nat)
    requires i < |amis|
    ensures Targets(amis[..i + 1]) == Targets(amis[..i]) + ImageTargets(amis[i])
    ensures Targets(amis[..i + 1]) == Targets(amis[..i]) + [Deregister(amis[i].imageId)] + SnapshotTargets(amis[i].blockDeviceMappings)
  {
    assert amis[..i + 1][..i] == amis[..i];
  }

  /** A mapping without an EBS device adds no snapshot deletion. */
  lemma SnapshotTargetsSnocNone(bdms: seq<BlockDeviceMapping>, j: nat)
    requires j < |bdms| && bdms[j].ebs.None?
    ensures SnapshotTargets(bdms[..j + 1]) == SnapshotTargets(bdms[..j])
  {
    assert bdms[..j + 1][..j] == bdms[..j];
  }

  /** A mapping with an EBS device adds the deletion of its snapshot. */
  lemma SnapshotTargetsSnocSome(bdms: seq<BlockDeviceMapping>, j: nat)
    requires j < |bdms| && bdms[j].ebs.Some?
    ensures SnapshotTargets(bdms[..j + 1]) == SnapshotTargets(bdms[..j]) + [RemoveSnapshot(bdms[j].ebs.value.snapshotId)]
  {
    assert bdms[..j + 1][..j] == bdms[..j];
  }

  /** Regrouping a concatenation, for the accumulators that grow one ID at a time. */
  lemma AppendAssoc<T>(a: seq<T>, b: seq<T>, c: seq<T>)
    ensures (a + b) + c == a + (b + c)
  {
  }

  /** One more attempt adds its ID to exactly one of the two lists. */
  lemma SuccessesSnoc(b: Backend, dryRun: bool, ts: seq<Target>, t: Target)
    ensures Successes(b, dryRun, ts + [t]) == Successes(b, dryRun, ts) + (if Succeeded(ReplyTo(b, dryRun, t)) then [t.id] else [])
    ensures Failures(b, dryRun, ts + [t]) == Failures(b, dryRun, ts) + (if Succeeded(ReplyTo(b, dryRun, t)) then [] else [t.id])
  {
    assert (ts + [t])[..|ts|] == ts;
  }

  /** A successful attempt appends its ID to the successes and leaves the failures as they were. */
  lemma SuccessesSnocOk(b: Backend, dryRun: bool, ts: seq<Target>, t: Target)
    requires Succeeded(ReplyTo(b, dryRun, t))
    ensures Successes(b, dryRun, ts + [t]) == Successes(b, dryRun, ts) + [t.id]
    ensures Failures(b, dryRun, ts + [t]) == Failures(b, dryRun, ts)
  {
    SuccessesSnoc(b, dryRun, ts, t);
  }

  /** A failed attempt appends its ID to the failures and leaves the successes as they were. */
  lemma SuccessesSnocFail(b: Backend, dryRun: bool, ts: seq<Target>, t: Target)
    requires !Succeeded(ReplyTo(b, dryRun, t))
    ensures Successes(b, dryRun, ts + [t]) == Successes(b, dryRun, ts)
    ensures Failures(b, dryRun, ts + [t]) == Failures(b, dryRun, ts) + [t.id]
  {
    SuccessesSnoc(b, dryRun, ts, t);
  }

  /** Attempts are classified one by one: the lists of a concatenation are the concatenated lists. */
  lemma {:induction false} SuccessesAppend(b: Backend, dryRun: bool, t1: seq<Target>, t2: seq<Target>)
    ensures Successes(b, dryRun, t1 + t2) == Successes(b, dryRun, t1) + Successes(b, dryRun, t2)
    ensures Failures(b, dryRun, t1 + t2) == Failures(b, dryRun, t1) + Failures(b, dryRun, t2)
  {
    if t2 == [] {
      assert t1 + t2 == t1;
    } else {
      var init, last := t2[..|t2| - 1], t2[|t2| - 1];
      assert t1 + t2 == (t1 + init) + [last];
      assert t2 == init + [last];
      SuccessesAppend(b, dryRun, t1, init);
      SuccessesSnoc(b, dryRun, t1 + init, last);
      SuccessesSnoc(b, dryRun, init, last);
    }
  }

  lemma {:induction false} TargetsAppend(a1: seq<Image>, a2: seq<Image>)
    ensures Targets(a1 + a2) == Targets(a1) + Targets(a2)
  {
    if a2 == [] {
      assert a1 + a2 == a1;
    } else {
      var init, last := a2[..|a2| - 1], a2[|a2| - 1];
      var whole := a1 + a2;
      assert whole[..|whole| - 1] == a1 + init;
      assert whole[|whole| - 1] == last;
      assert Targets(whole) == Targets(a1 + init) + ImageTargets(last);
      assert Targets(a2) == Targets(init) + ImageTargets(last);
      TargetsAppend(a1, init);
    }
  }

  lemma {:induction false} SnapshotTargetsCount(bdms: seq<BlockDeviceMapping>)
    ensures |SnapshotTargets(bdms)| == EbsCount(bdms)
  {
    if bdms != [] {
      SnapshotTargetsCount(bdms[..|bdms| - 1]);
    }
  }

  /** One deregistration per image plus one deletion per EBS mapping. */
  lemma {:induction false} TargetsCount(amis: seq<Image>)
    ensures |Targets(amis)| == |amis| + SnapshotCount(amis)
  {
    if amis != [] {
      TargetsCount(amis[..|amis| - 1]);
      SnapshotTargetsCount(amis[|amis| - 1].blockDeviceMappings);
    }
  }

  /** Every attempted ID ends up in exactly one of the two lists, as often as it was attempted. */
  lemma {:induction false} Partition(b: Backend, dryRun: bool, ts: seq<Target>)
    ensures multiset(Successes(b, dryRun, ts)) + multiset(Failures(b, dryRun, ts)) == multiset(Ids(ts))
    ensures |Successes(b, dryRun, ts)| + |Failures(b, dryRun, ts)| == |ts|
  {
    if ts != [] {
      Partition(b, dryRun, ts[..|ts| - 1]);
    }
  }

  /** The two lists of a bulk delete together hold one entry per image and one per EBS mapping. */
  lemma DeleteAccounting(b: Backend, dryRun: bool, amis: seq<Image>)
    ensures |Successes(b, dryRun, Targets(amis))| + |Failures(b, dryRun, Targets(amis))| == |amis| + SnapshotCount(amis)
    ensures multiset(Successes(b, dryRun, Targets(amis))) + multiset(Failures(b, dryRun, Targets(amis))) == multiset(Ids(Targets(amis)))
  {
    Partition(b, dryRun, Targets(amis));
    TargetsCount(amis);
  }

  /**
   * Each image is handled on its own: its ID goes to the list its deregister
   * reply selects, and its snapshot outcomes follow whatever that reply was.
   */
  lemma PerImage(b: Backend, dryRun: bool, pre: seq<Image>, ami: Image, post: seq<Image>)
    ensures Successes(b, dryRun, Targets(pre + [ami] + post)) ==
      Successes(b, dryRun, Targets(pre))
      + (if Succeeded(Classify(b.deregisterImage(ami.imageId, dryRun))) then [ami.imageId] else [])
      + Successes(b, dryRun, SnapshotTargets(ami.blockDeviceMappings))
      + Successes(b, dryRun, Targets(post))
    ensures Failures(b, dryRun, Targets(pre + [ami] + post)) ==
      Failures(b, dryRun, Targets(pre))
      + (if Succeeded(Classify(b.deregisterImage(ami.imageId, dryRun))) then [] else [ami.imageId])
      + Failures(b, dryRun, SnapshotTargets(ami.blockDeviceMappings))
      + Failures(b, dryRun, Targets(post))
  {
    var d := Deregister(ami.imageId);
    var tPre, tSnaps, tPost := Targets(pre), SnapshotTargets(ami.blockDeviceMappings), Targets(post);
    TargetsOfSplit(pre, ami, post);
    SuccessesAppend(b, dryRun, tPre + [d] + tSnaps, tPost);
    SuccessesAppend(b, dryRun, tPre + [d], tSnaps);
    SuccessesSnoc(b, dryRun, tPre, d);
  }

  /** The attempts around one image: those of the images before it, its own, those of the images after it. */
  lemma TargetsOfSplit(pre: seq<Image>, ami: Image, post: seq<Image>)
    ensures Targets(pre + [ami] + post) ==
      Targets(pre) + [Deregister(ami.imageId)] + SnapshotTargets(ami.blockDeviceMappings) + Targets(post)
  {
    TargetsAppend(pre + [ami], post);
    TargetsSnoc(pre + [ami], |pre|);
    assert (pre + [ami])[..|pre|] == pre;
    assert (pre + [ami])[..|pre| + 1] == pre + [ami];
  }

  /** When every attempt succeeds, the success list is every attempted ID in order and nothing fails. */
  lemma {:induction false} AllSucceed(b: Backend, dryRun: bool, ts: seq<Target>)
    requires forall t :: t in ts ==> Succeeded(ReplyTo(b, dryRun, t))
    ensures Successes(b, dryRun, ts) == Ids(ts)
    ensures Failures(b, dryRun, ts) == []
  {
    if ts != [] {
      var init := ts[..|ts| - 1];
      assert ts == init + [ts[|ts| - 1]];
      AllSucceed(b, dryRun, init);
    }
  }

  /**
   * A dry run against a backend that answers every request with a
   * DryRunOperation error succeeds on every image and every EBS snapshot.
   */
  lemma DryRunAllSucceed(b: Backend, amis: seq<Image>)
    requires forall id :: b.deregisterImage(id, true) == Some(CallError(Some(DryRunCode)))
    requires forall id :: b.deleteSnapshot(id, true) == Some(CallError(Some(DryRunCode)))
    ensures Successes(b, true, Targets(amis)) == Ids(Targets(amis))
    ensures |Successes(b, true, Targets(amis))| == |amis| + SnapshotCount(amis)
    ensures Failures(b, true, Targets(amis)) == []
  {
    forall t | t in Targets(amis)
      ensures Succeeded(ReplyTo(b, true, t))
    {
    }
    AllSucceed(b, true, Targets(amis));
    Partition(b, true, Targets(amis));
    TargetsCount(amis);
  }
}
