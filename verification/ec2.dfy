/**
 * The part of the EC2 API that the cleaner uses, as plain values.
 *
 * The client interface (four calls) becomes an oracle, `Backend`: the reply to
 * DescribeImages, the sequence of pages DescribeInstances hands out for a given
 * image-id filter, and the reply of DeregisterImage and DeleteSnapshot for a
 * given ID and dry-run flag.
 */
module Ec2 {
  import opened Wrappers

  /** The EBS part of a block-device mapping; it names the snapshot behind the volume. */
  datatype EbsBlockDevice = EbsBlockDevice(snapshotId: string)

  /** A block-device mapping of an image; `ebs` is None for a non-EBS device. */
  datatype BlockDeviceMapping = BlockDeviceMapping(ebs: Option<EbsBlockDevice>)

  datatype Image = Image(imageId: string, blockDeviceMappings: seq<BlockDeviceMapping>)

  /** An instance, with the ID of the image it was launched from. */
  datatype Instance = Instance(instanceId: string, imageId: string)

  datatype Reservation = Reservation(instances: seq<Instance>)

  /** The API error code that reports a dry-run request that would have succeeded. */
  const DryRunCode := "DryRunOperation"

  /**
   * A non-nil error returned by DeregisterImage or DeleteSnapshot: its API
   * error code when the error is an API error, None when it is not.
   */
  datatype CallError = CallError(apiCode: Option<string>)

  /**
   * How the cleaner reads the outcome of DeregisterImage or DeleteSnapshot:
   * no error; an API error whose code is DryRunCode; or any other error,
   * with its API error code when it is an API error at all.
   */
  datatype Reply = NoError | DryRunOperation | Failed(apiCode: Option<string>)

  /** The outcomes the cleaner counts as done: no error, or a DryRunOperation error. */
  predicate Succeeded(r: Reply) {
    r.NoError? || r.DryRunOperation?
  }

  /**
   * The reading of a call's error: nil is no error; an API error with code
   * DryRunCode is a DryRunOperation; anything else is a failure.
   */
  function Classify(err: Option<CallError>): (r: Reply)
    ensures Succeeded(r) <==> err.None? || err.value.apiCode == Some(DryRunCode)
    ensures r.NoError? <==> err.None?
    ensures r.Failed? ==> r.apiCode == err.value.apiCode && r.apiCode != Some(DryRunCode)
  {
    match err
    case None => NoError
    case Some(e) => if e.apiCode == Some(DryRunCode) then DryRunOperation else Failed(e.apiCode)
  }

  datatype ImagesReply = Images(images: seq<Image>) | ImagesError

  /** One DescribeInstances reply: a page of reservations and the token of the next page, or an error. */
  datatype PageReply = Page(reservations: seq<Reservation>, nextToken: Option<string>) | PageError
  {
    /** After this reply the collector asks for no further page. */
    predicate Stops() {
      PageError? || nextToken.None?
    }
  }

  datatype Backend = Backend(
    describeImages: ImagesReply,
    describeInstances: seq<string> -> seq<PageReply>,
    deregisterImage: (string, bool) -> Option<CallError>,
    deleteSnapshot: (string, bool) -> Option<CallError>)

  /** The backend stops paginating within the pages it has: one of them carries no next token (or fails). */
  predicate EndsPaging(pages: seq<PageReply>) {
    exists k :: 0 <= k < |pages| && pages[k].Stops()
  }
}
