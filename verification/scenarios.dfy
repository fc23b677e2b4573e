/**
 * Concrete runs of the filter and of the bulk delete against a backend that
 * gives the same reply to every call, worked out from the specification
 * functions the methods are proved against.
 */
module Scenarios {
  import opened Wrappers
  import opened Ec2
  import opened Filter
  import opened Deletion

  /** A backend that answers every deregistration with `dereg` and every snapshot deletion with `snap`. */
  function Uniform(dereg: Option<CallError>, snap: Option<CallError>): Backend {
    Backend(ImagesError, _ => [PageError], (_, _) => dereg, (_, _) => snap)
  }

  /** The mapping of an EBS volume backed by `snap`. */
  function Ebs(snap: string): BlockDeviceMapping {
    BlockDeviceMapping(Some(EbsBlockDevice(snap)))
  }

  /** Of images ami-123 and ami-456, with instances launched from ami-456 and ami-789, only ami-123 is unused. */
  lemma FilterKeepsUnused()
    ensures Unused([Image("ami-123", []), Image("ami-456", [])],
                   InUse([Instance("", "ami-456"), Instance("", "ami-789")])) == [Image("ami-123", [])]
  {
    var a, b := Image("ami-123", []), Image("ami-456", []);
    var inUse := InUse([Instance("", "ami-456"), Instance("", "ami-789")]);
    assert a.imageId !in inUse;
    assert b.imageId in inUse;
    assert [a, b][..1] == [a];
  }

  /**
   * A backend that answers DryRunOperation to every call counts as a
   * failure nowhere, whatever the dry-run flag.
   */
  lemma DryRunCodeNeverFails(dryRun: bool, t: Target)
    ensures Succeeded(ReplyTo(Uniform(Some(CallError(Some(DryRunCode))), Some(CallError(Some(DryRunCode)))), dryRun, t))
  {
  }

  /** When every deregistration fails, no ID succeeds and both image IDs are reported, in order. */
  lemma DeregisterFailures(id1: string, id2: string, fail: CallError)
    requires fail.apiCode != Some(DryRunCode)
    ensures var b := Uniform(Some(fail), None);
      var ts := Targets([Image(id1, []), Image(id2, [])]);
      Successes(b, false, ts) == [] && Failures(b, false, ts) == [id1, id2]
  {
    var b := Uniform(Some(fail), None);
    var a1, a2 := Image(id1, []), Image(id2, []);
    var d1, d2 := Deregister(id1), Deregister(id2);
    TwoImages(a1, a2);
    assert [d1] + [d2] == [d1, d2];
    assert ReplyTo(b, false, d1) == Failed(fail.apiCode) && ReplyTo(b, false, d2) == Failed(fail.apiCode);
    SuccessesSnocFail(b, false, [], d1);
    SuccessesSnocFail(b, false, [d1], d2);
    assert [] + [d1] == [d1] && [d1] + [d2] == [d1, d2];
  }

  /** When the snapshot deletion fails, the image counts as deleted and its snapshot as failed. */
  lemma SnapshotFailure(id: string, snap: string, fail: CallError)
    requires fail.apiCode != Some(DryRunCode)
    ensures var b := Uniform(None, Some(fail));
      var ts := Targets([Image(id, [Ebs(snap)])]);
      Successes(b, false, ts) == [id] && Failures(b, false, ts) == [snap]
  {
    var b := Uniform(None, Some(fail));
    var d, r := Deregister(id), RemoveSnapshot(snap);
    OneImageOneSnapshot(id, snap);
    assert ReplyTo(b, false, d) == NoError;
    assert ReplyTo(b, false, r) == Failed(fail.apiCode);
    SuccessesSnocOk(b, false, [], d);
    SuccessesSnocFail(b, false, [d], r);
    assert [] + [d] == [d] && [d] + [r] == [d, r];
  }

  /**
   * A DryRunOperation error counts as a success even when the configuration
   * does not ask for a dry run: the image and its snapshot are reported as deleted.
   */
  lemma DryRunSnapshot(id: string, snap: string)
    ensures var b := Uniform(None, Some(CallError(Some(DryRunCode))));
      var ts := Targets([Image(id, [Ebs(snap)])]);
      Successes(b, false, ts) == [id, snap] && Failures(b, false, ts) == []
  {
    var b := Uniform(None, Some(CallError(Some(DryRunCode))));
    var d, r := Deregister(id), RemoveSnapshot(snap);
    OneImageOneSnapshot(id, snap);
    assert ReplyTo(b, false, d) == NoError;
    assert ReplyTo(b, false, r) == DryRunOperation;
    SuccessesSnocOk(b, false, [], d);
    SuccessesSnocOk(b, false, [d], r);
    assert [] + [d] == [d] && [d] + [r] == [d, r];
  }

  /** An empty list of images yields no success and no failure, so no error. */
  lemma EmptyDelete(b: Backend, dryRun: bool)
    ensures Successes(b, dryRun, Targets([])) == [] && Failures(b, dryRun, Targets([])) == []
  {
  }

  /** The attempts for two images: those of the first, then those of the second. */
  lemma TwoImages(a1: Image, a2: Image)
    ensures Targets([a1, a2]) == Targets([a1]) + Targets([a2])
  {
    TargetsAppend([a1], [a2]);
    assert [a1] + [a2] == [a1, a2];
  }

  /** The attempts for one image with two EBS mappings, in mapping order. */
  lemma OneImageTwoSnapshots(id: string, snap1: string, snap2: string)
    ensures Targets([Image(id, [Ebs(snap1), Ebs(snap2)])]) == [Deregister(id), RemoveSnapshot(snap1), RemoveSnapshot(snap2)]
  {
    var ami := Image(id, [Ebs(snap1), Ebs(snap2)]);
    var bdms := ami.blockDeviceMappings;
    assert bdms[..1] == [Ebs(snap1)] && bdms[..1][..0] == [];
    assert SnapshotTargets(bdms[..1]) == [RemoveSnapshot(snap1)];
    assert SnapshotTargets(bdms) == [RemoveSnapshot(snap1), RemoveSnapshot(snap2)];
    assert [ami][..0] == [];
  }

  /** The attempts for one image with one EBS mapping: its deregistration, then its snapshot deletion. */
  lemma OneImageOneSnapshot(id: string, snap: string)
    ensures Targets([Image(id, [Ebs(snap)])]) == [Deregister(id), RemoveSnapshot(snap)]
  {
    var ami := Image(id, [Ebs(snap)]);
    assert ami.blockDeviceMappings[..0] == [];
    assert SnapshotTargets(ami.blockDeviceMappings) == [RemoveSnapshot(snap)];
    assert [ami][..0] == [];
  }

  /** Against a backend with no error, one image and its one snapshot are both deleted. */
  lemma NoErrorOneSnapshot(id: string, snap: string)
    ensures var b := Uniform(None, None);
      var ts := Targets([Image(id, [Ebs(snap)])]);
      Successes(b, false, ts) == [id, snap] && Failures(b, false, ts) == []
  {
    var b := Uniform(None, None);
    var d, r := Deregister(id), RemoveSnapshot(snap);
    OneImageOneSnapshot(id, snap);
    assert ReplyTo(b, false, d) == NoError && ReplyTo(b, false, r) == NoError;
    SuccessesSnocOk(b, false, [], d);
    SuccessesSnocOk(b, false, [d], r);
    assert [] + [d] == [d] && [d] + [r] == [d, r];
  }

  /** Against a backend with no error, one image and its two snapshots are all deleted, in mapping order. */
  lemma NoErrorTwoSnapshots(id: string, snap1: string, snap2: string)
    ensures var b := Uniform(None, None);
      var ts := Targets([Image(id, [Ebs(snap1), Ebs(snap2)])]);
      Successes(b, false, ts) == [id, snap1, snap2] && Failures(b, false, ts) == []
  {
    var b := Uniform(None, None);
    var d, r1, r2 := Deregister(id), RemoveSnapshot(snap1), RemoveSnapshot(snap2);
    OneImageTwoSnapshots(id, snap1, snap2);
    assert ReplyTo(b, false, d) == NoError && ReplyTo(b, false, r1) == NoError && ReplyTo(b, false, r2) == NoError;
    SuccessesSnocOk(b, false, [], d);
    SuccessesSnocOk(b, false, [d], r1);
    SuccessesSnocOk(b, false, [d, r1], r2);
    assert [] + [d] == [d] && [d] + [r1] == [d, r1] && [d, r1] + [r2] == [d, r1, r2];
  }

  /** Each image is followed by its own snapshots, in mapping order. */
  lemma ImagesAndSnapshots(id1: string, snap1: string, id2: string, snap2: string, snap3: string)
    ensures var b := Uniform(None, None);
      var ts := Targets([Image(id1, [Ebs(snap1)]), Image(id2, [Ebs(snap2), Ebs(snap3)])]);
      Successes(b, false, ts) == [id1, snap1, id2, snap2, snap3] && Failures(b, false, ts) == []
  {
    var b := Uniform(None, None);
    var a1, a2 := Image(id1, [Ebs(snap1)]), Image(id2, [Ebs(snap2), Ebs(snap3)]);
    TwoImages(a1, a2);
    SuccessesAppend(b, false, Targets([a1]), Targets([a2]));
    NoErrorOneSnapshot(id1, snap1);
    NoErrorTwoSnapshots(id2, snap2, snap3);
  }
}
