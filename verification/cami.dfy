/**
 * The cleaner: lists the account's own images, lists the instances launched
 * from them, keeps the images no instance uses, and deregisters those images
 * and deletes their EBS snapshots.
 */
module Cami {
  import opened Wrappers
  import opened Ec2
  import opened CamiErrors
  import opened Filter
  import opened Deletion
  import opened Pagination

  datatype Config = Config(dryRun: bool)

  /**
   * The receiver of every stage: the configuration, the EC2 backend and the
   * switch that makes the filter report an error (used by test harnesses).
   * No stage changes it, so it is a value.
   */
  datatype AWS = AWS(cfg: Config, ec2: Backend, filterErr: bool)
  {
    /** The instance pages for the owned images end, so the collector's loop ends. */
    predicate PagingEnds() {
      ec2.describeImages.Images? ==> EndsPaging(ec2.describeInstances(FilterValues(ec2.describeImages.images)))
    }

    /** Lists the images owned by the account; on a failed request, no image and the wrapped sentinel. */
    function AMIs(): (r: (seq<Image>, Option<Error>))
      ensures r.1.None? <==> ec2.describeImages.Images?
      ensures r.1.None? ==> r.0 == ec2.describeImages.images
      ensures r.1.Some? ==> r.0 == [] && r.1.value.Is(ErrDesribeImages) && r.1.value.Wrapped?
    {
      match ec2.describeImages
      case Images(images) => (images, None)
      case ImagesError => ([], Some(Wrapped(ErrDesribeImages)))
    }

    /**
     * Lists the instances launched from any of `amis`, following next tokens
     * until a page carries none; `sent` is the token each request carried.
     */
    method EC2s(amis: seq<Image>) returns (output: seq<Instance>, err: Option<Error>, ghost sent: seq<Option<string>>)
      requires EndsPaging(ec2.describeInstances(FilterValues(amis)))
      ensures (output, err) == Collect(ec2.describeInstances(FilterValues(amis)))
      ensures var pages := ec2.describeInstances(FilterValues(amis)); sent == RequestTokens(pages[..FirstStop(pages) + 1])
    {
      var amiIDs: seq<string> := seq(|amis|, _ => "");
      for i := 0 to |amis|
        invariant |amiIDs| == |amis| + i
        invariant forall j :: 0 <= j < |amis| ==> amiIDs[j] == ""
        invariant forall j :: 0 <= j < i ==> amiIDs[|amis| + j] == amis[j].imageId
      {
        amiIDs := amiIDs + [amis[i].imageId];
      }
      assert amiIDs == FilterValues(amis) by {
        var fv := FilterValues(amis);
        assert forall j :: 0 <= j < |amis| ==> fv[j] == "";
        assert forall j :: 0 <= j < |amis| ==> fv[|amis| + j] == amis[j].imageId;
      }
      var pages := ec2.describeInstances(amiIDs);
      ghost var k := FirstStop(pages);

      output := [];
      sent := [];
      var nextToken: Option<string> := None;
      var call := 0;
      while true
        invariant call <= k
        invariant output == Flatten(pages[..call])
        invariant nextToken == if call == 0 then None else Token(pages[call - 1])
        invariant sent == RequestTokens(pages[..call])
        decreases k - call
      {
        var out := pages[call];
        PageStep(pages, call);
        sent := sent + [nextToken];
        assert !out.Stops() ==> call < k;
        if out.PageError? {
          assert call == k;
          return output, Some(Wrapped(ErrDesribeInstances)), sent;
        }
        output := AppendReservations(output, out.reservations);
        if out.nextToken.None? {
          assert call == k;
          break;
        }
        nextToken := out.nextToken;
        call := call + 1;
      }
      return output, None, sent;
    }

    /** Appends the instances of every reservation of one page, reservation after reservation. */
    static method AppendReservations(output: seq<Instance>, rs: seq<Reservation>) returns (out: seq<Instance>)
      ensures out == output + ReservationInstances(rs)
    {
      out := output;
      for r := 0 to |rs|
        invariant out == output + ReservationInstances(rs[..r])
      {
        assert rs[..r + 1][..r] == rs[..r];
        out := out + rs[r].instances;
      }
      assert rs[..|rs|] == rs;
    }

    /** Keeps the images whose ID no instance was launched from, in input order. */
    method FilterAMIs(amis: seq<Image>, ec2s: seq<Instance>) returns (output: seq<Image>, err: Option<Error>)
      ensures output == Unused(amis, InUse(ec2s))
      ensures err == if filterErr then Some(Bare(ErrFilterAMIs)) else None
    {
      var hasD: map<string, bool> := map[];
      for i := 0 to |ec2s|
        invariant hasD.Keys == InUse(ec2s[..i])
      {
        InUseSnoc(ec2s, i);
        hasD := hasD[ec2s[i].imageId := true];
      }
      assert ec2s[..|ec2s|] == ec2s;

      output := [];
      for i := 0 to |amis|
        invariant output == Unused(amis[..i], hasD.Keys)
      {
        UnusedSnoc(amis, i, hasD.Keys);
        if amis[i].imageId !in hasD {
          output := output + [amis[i]];
        }
      }
      assert amis[..|amis|] == amis;

      if filterErr {
        return output, Some(Bare(ErrFilterAMIs));
      }
      return output, None;
    }

    /**
     * The inner loop of the bulk delete: deletes the snapshot of every
     * mapping with an EBS device, appending each success to `output` and
     * each failure to `eda`.
     */
    method DeleteSnapshots(bdms: seq<BlockDeviceMapping>, output: seq<string>, eda: ErrDeleteAMIs) returns (out: seq<string>)
      requires eda.Valid()
      modifies eda
      ensures eda.Valid()
      ensures out == output + Successes(ec2, cfg.dryRun, SnapshotTargets(bdms))
      ensures eda.ids == old(eda.ids) + Failures(ec2, cfg.dryRun, SnapshotTargets(bdms))
      ensures eda.idsNil == (old(eda.idsNil) && Failures(ec2, cfg.dryRun, SnapshotTargets(bdms)) == [])
    {
      out := output;
      ghost var ids0, nil0 := eda.ids, eda.idsNil;
      ghost var tried: seq<Target> := [];
      assert SnapshotTargets(bdms[..0]) == [];
      for j := 0 to |bdms|
        invariant eda.Valid()
        invariant tried == SnapshotTargets(bdms[..j])
        invariant out == output + Successes(ec2, cfg.dryRun, tried)
        invariant eda.ids == ids0 + Failures(ec2, cfg.dryRun, tried)
        invariant eda.idsNil == (nil0 && Failures(ec2, cfg.dryRun, tried) == [])
      {
        var bdm := bdms[j];
        if bdm.ebs.None? {
          SnapshotTargetsSnocNone(bdms, j);
          continue;
        }
        var snapID := bdm.ebs.value.snapshotId;
        ghost var t := RemoveSnapshot(snapID);
        SnapshotTargetsSnocSome(bdms, j);
        var snapErr := ec2.deleteSnapshot(snapID, cfg.dryRun);
        assert Classify(snapErr) == ReplyTo(ec2, cfg.dryRun, t);
        if snapErr.Some? {
          if snapErr.value.apiCode == Some(DryRunCode) {
            SuccessesSnocOk(ec2, cfg.dryRun, tried, t);
            AppendAssoc(output, Successes(ec2, cfg.dryRun, tried), [snapID]);
            out := out + [snapID];
          } else {
            SuccessesSnocFail(ec2, cfg.dryRun, tried, t);
            AppendAssoc(ids0, Failures(ec2, cfg.dryRun, tried), [snapID]);
            eda.Append([snapID]);
          }
        } else {
          SuccessesSnocOk(ec2, cfg.dryRun, tried, t);
          AppendAssoc(output, Successes(ec2, cfg.dryRun, tried), [snapID]);
          out := out + [snapID];
        }
        tried := tried + [t];
      }
      assert bdms[..|bdms|] == bdms;
    }

    /**
     * Deregisters every image and deletes the snapshot of each of its EBS
     * mappings, without stopping on failures. Returns the IDs that succeeded
     * and, when some attempt failed, the accumulator of the failed IDs.
     */
    method DeleteAMIs(amis: seq<Image>) returns (output: seq<string>, err: Option<Error>)
      ensures output == Successes(ec2, cfg.dryRun, Targets(amis))
      ensures err.None? <==> Failures(ec2, cfg.dryRun, Targets(amis)) == []
      ensures err.Some? ==> err.value.DeleteFailed? && err.value.failure.ids == Failures(ec2, cfg.dryRun, Targets(amis))
    {
      output := [];
      var eda := new ErrDeleteAMIs();

      for i := 0 to |amis|
        invariant eda.Valid()
        invariant output == Successes(ec2, cfg.dryRun, Targets(amis[..i]))
        invariant eda.ids == Failures(ec2, cfg.dryRun, Targets(amis[..i]))
      {
        var ami := amis[i];
        ghost var t := Deregister(ami.imageId);
        ghost var tried := Targets(amis[..i]) + [t];
        var deregErr := ec2.deregisterImage(ami.imageId, cfg.dryRun);
        assert Classify(deregErr) == ReplyTo(ec2, cfg.dryRun, t);
        if deregErr.Some? {
          if deregErr.value.apiCode == Some(DryRunCode) {
            SuccessesSnocOk(ec2, cfg.dryRun, Targets(amis[..i]), t);
            output := output + [ami.imageId];
          } else {
            SuccessesSnocFail(ec2, cfg.dryRun, Targets(amis[..i]), t);
            eda.Append([ami.imageId]);
          }
        } else {
          SuccessesSnocOk(ec2, cfg.dryRun, Targets(amis[..i]), t);
          output := output + [ami.imageId];
        }
        assert output == Successes(ec2, cfg.dryRun, tried);
        assert eda.ids == Failures(ec2, cfg.dryRun, tried);

        output := DeleteSnapshots(ami.blockDeviceMappings, output, eda);
        TargetsSnoc(amis, i);
        SuccessesAppend(ec2, cfg.dryRun, tried, SnapshotTargets(ami.blockDeviceMappings));
      }
      assert amis[..|amis|] == amis;

      err := ErrorOrNil(eda);
    }

    /**
     * The whole pipeline. A failure to list images, to list instances or to
     * filter ends the run with no IDs and that stage's error; otherwise the
     * result of the bulk delete on the unused images is returned unchanged.
     */
    method DeleteUnusedAMIs() returns (output: seq<string>, err: Option<Error>)
      requires PagingEnds()
      ensures ec2.describeImages.ImagesError? ==> output == [] && err == Some(Wrapped(ErrDesribeImages))
      ensures ec2.describeImages.Images? ==>
        var ec2s := Collect(ec2.describeInstances(FilterValues(ec2.describeImages.images)));
        (ec2s.1.Some? ==> output == [] && err == Some(Wrapped(ErrDesribeInstances))) &&
        (ec2s.1.None? && filterErr ==> output == [] && err == Some(Bare(ErrFilterAMIs))) &&
        (ec2s.1.None? && !filterErr ==>
          var targets := Targets(Unused(ec2.describeImages.images, InUse(ec2s.0)));
          output == Successes(ec2, cfg.dryRun, targets) &&
          (err.None? <==> Failures(ec2, cfg.dryRun, targets) == []) &&
          (err.Some? ==> err.value.DeleteFailed? && err.value.failure.ids == Failures(ec2, cfg.dryRun, targets)))
    {
      output := [];
      var listed := AMIs();
      var amis, e1 := listed.0, listed.1;
      if e1.Some? {
        return output, e1;
      }

      var ec2s, e2;
      ghost var sent;
      ec2s, e2, sent := EC2s(amis);
      if e2.Some? {
        return output, e2;
      }

      var unused, e3 := FilterAMIs(amis, ec2s);
      if e3.Some? {
        return output, e3;
      }

      output, err := DeleteAMIs(unused);
    }
  }
}
