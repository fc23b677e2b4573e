# cami in Dafny

A model of `cami`, the cleaner that deletes unused Amazon Machine Images
(AMIs). It runs four stages in a row and stops at the first stage that fails:

1. `AMIs` lists the account's own images.
2. `EC2s` lists the instances launched from any of them, following
   DescribeInstances' next tokens.
3. `FilterAMIs` keeps the images that no instance was launched from.
4. `DeleteAMIs` deregisters each kept image and deletes the snapshot of each
   of its EBS block-device mappings.

The bulk delete never stops early. It returns the IDs that succeeded. When
some attempt failed, it also returns an `ErrDeleteAMIs` error that holds the
failed IDs.

The EC2 client (`ec2If`) is replaced by an oracle, `Ec2.Backend`, which holds:

- the DescribeImages reply;
- the pages DescribeInstances hands out for a given image-id filter (the i-th
  request gets the i-th page);
- the error DeregisterImage and DeleteSnapshot return for each ID and
  dry-run flag: none, or a `CallError` that carries its API error code when
  it is an API error.

The delete loops test the error as the source does: no error, or an API
error whose code is "DryRunOperation", is a success; any other error is a
failure. The model's functions read each answer through `Classify`, which
gives one of three tags:

- `NoError`;
- `DryRunOperation`, an API error with that code;
- `Failed`, any other error; its code is never "DryRunOperation".

`Succeeded` holds for the first two tags.

How the source becomes Dafny:

- The receiver `AWS` becomes a datatype, because no stage changes it.
- `ErrDeleteAMIs` becomes a class, because `Append` changes its `IDs` in
  place. The field `idsNil` stands for a nil Go slice.
- Each loop of the source is a method with a loop, proved against a
  specification function:
  - the delete loops against `Deletion.Successes` and `Deletion.Failures`
    over the attempt list `Deletion.Targets`;
  - the filter against `Filter.Unused`;
  - the collector against `Pagination.Collect`.
- The lemmas state the promised properties of those functions:
  - every attempt lands in exactly one of the two lists;
  - the lists keep image-then-snapshots order;
  - the filter keeps exactly the unused images, in order;
  - the collector gathers every instance of the pages it reads and reads no
    page after the one that stops it.
- Lemmas in `Scenarios` work the test suite's expected outputs out from these
  functions.

Behaviour of the source worth noting:

- `EC2s` has no page cap. It stops only on an error or on a page without a
  next token, so `EC2s` requires that the backend's pages contain such a
  reply.
- On an error, `EC2s` returns the instances it had gathered together with the
  error. `DeleteUnusedAMIs` then discards them.
- `AMIs` makes a single DescribeImages request and does not paginate.
- The filter values are `len(amis)` empty strings followed by the image IDs,
  because the slice is made with that length and then appended to.

## Model

| member | source | states |
|---|---|---|
| Ec2.Classify | cami/cami.go:158-167 | an answer counts as a success exactly when there is no error or the error is an API error with code "DryRunOperation"; no error is the only NoError; a failure keeps its code, which is never "DryRunOperation" |
| CamiErrors.ErrDeleteAMIs.constructor | cami/cami.go:150 | a fresh accumulator has a nil ID slice |
| CamiErrors.ErrDeleteAMIs.Append | cami/cami_errors.go:34-39 | the new IDs go after the recorded ones, which stay in place; the length grows by their number; the slice is non-nil afterwards |
| CamiErrors.ErrorOrNil | cami/cami_errors.go:42-47 | no error exactly when the receiver is nil or holds no ID; otherwise the receiver itself, IDs unchanged |
| CamiErrors.SentinelMessagesDistinct | cami/cami_errors.go:7-20 | distinct sentinels have distinct texts |
| CamiErrors.StageErrorIdentity | cami/cami.go:75 | a stage error, wrapped or bare, matches its own sentinel under errors.Is and no other |
| CamiErrors.DeleteFailedMessage | cami/cami_errors.go:29-31 | the accumulator's text is "delete AMIs" whatever IDs it holds, and it matches no sentinel |
| Filter.Unused | cami/cami.go:132-136 | an image survives exactly when it is among the inputs and its ID is not in use; there are never more survivors than inputs |
| Filter.UnusedAppend | cami/cami.go:132-136 | filtering a concatenation concatenates the survivors, so input order is kept |
| Filter.AllInUse | cami/cami.go:132-136 | when every image is in use, nothing survives |
| Filter.NoneInUse | cami/cami.go:132-136 | when no image is in use, every image survives, in order |
| Filter.UnusedCount | cami/cami.go:127-136 | with distinct image IDs, survivors = images minus the number of their IDs that are in use |
| Deletion.Targets | cami/cami.go:152-191 | the attempts of the bulk delete: for each image in input order, its deregistration, then one snapshot deletion per mapping with an EBS device, in mapping order; at least one attempt per image |
| Deletion.Successes | cami/cami.go:157-189 | the IDs of the attempts whose answer is NoError or DryRunOperation, in attempt order (what the source appends to `output`) |
| Deletion.Failures | cami/cami.go:157-189 | the IDs of the attempts whose answer is any other error, in attempt order (what the source appends to `eda`) |
| Deletion.Sound | cami/cami.go:157-189 | every reported success is the ID of an attempt whose answer was a success; every reported failure is the ID of an attempt whose answer was not |
| Deletion.SuccessesAppend | cami/cami.go:152-191 | attempts are classified one by one: both lists of a concatenation are the concatenated lists |
| Deletion.TargetsAppend | cami/cami.go:152-191 | the attempts for a concatenation of images are the concatenated attempts |
| Deletion.SnapshotTargetsCount | cami/cami.go:169-173 | an image gets one snapshot deletion per mapping with an EBS device; other mappings are skipped |
| Deletion.TargetsCount | cami/cami.go:152-191 | attempts = images + EBS mappings |
| Deletion.Partition | cami/cami.go:157-189 | every attempted ID is in exactly one of the two lists, as often as it was attempted |
| Deletion.DeleteAccounting | cami/cami.go:152-191 | successes + failures = images + EBS mappings, and together they are exactly the attempted IDs |
| Deletion.PerImage | cami/cami.go:157-190 | an image's deregister outcome does not affect its snapshot deletions or any other image's outcome; results are in image-then-snapshots order |
| Deletion.AllSucceed | cami/cami.go:158-167 | when every reply is a success, the successes are all attempted IDs in order and nothing fails |
| Deletion.DryRunAllSucceed | cami/cami.go:155-182 | a dry run answered with DryRunOperation everywhere deletes every image and every EBS snapshot, with no failure |
| Pagination.FilterValues | cami/cami.go:86-89 | the filter holds twice as many values as there are images |
| Pagination.FilterValuesShape | cami/cami.go:86-89 | the first half of the filter is empty strings; the second half is the image IDs in order |
| Pagination.RequestTokensFollow | cami/cami.go:102-104 | the first request carries no token; each later request carries the previous reply's next token |
| Pagination.FirstStop | cami/cami.go:113-115 | the collector stops at a reply that is an error or has no next token, and every earlier reply is a page with a next token |
| Pagination.Collect | cami/cami.go:92-119 | what the collector returns: the instances of every reply it read, up to and including the one that stops it; the wrapped describe-instances sentinel exactly when that reply is an error; otherwise that reply is a page without a next token |
| Pagination.ReservationInstancesMembership | cami/cami.go:110-112 | an instance is gathered from a page exactly when one of its reservations holds it |
| Pagination.FlattenMembership | cami/cami.go:92-117 | an instance is gathered exactly when some successful page read holds it |
| Pagination.StopsAtFirstStop | cami/cami.go:113-115 | replies after the stopping one play no part in the result |
| Cami.AWS.AMIs | cami/cami.go:66-80 | on a failed request, no image and the wrapped describe-images sentinel; otherwise the images and no error |
| Cami.AWS.EC2s | cami/cami.go:83-120 | the instances of every page up to the first without a next token; on an error, those of the earlier pages plus the wrapped describe-instances sentinel; each request carries the previous next token |
| Cami.AWS.AppendReservations | cami/cami.go:110-112 | appends one page's instances, reservation after reservation |
| Cami.AWS.FilterAMIs | cami/cami.go:123-143 | the unused images in input order, whatever filterErr is; the bare filter sentinel exactly when filterErr is set |
| Cami.AWS.DeleteSnapshots | cami/cami.go:169-190 | each EBS snapshot ID is appended to the output or recorded in the accumulator, as its answer is a success or not; the accumulator's slice turns non-nil exactly when something failed |
| Cami.AWS.DeleteAMIs | cami/cami.go:148-194 | the output is the succeeded IDs in attempt order; the error is nil exactly when nothing failed, else the accumulator holding the failed IDs |
| Cami.AWS.DeleteUnusedAMIs | cami/cami.go:198-223 | a failure to list images, to list instances or to filter returns no IDs and that stage's error; otherwise the bulk delete's result on the unused images, unchanged |
| Scenarios.FilterKeepsUnused | cami/cami_test.go:338-351 | ami-123 and ami-456 against instances of ami-456 and ami-789 leave ami-123 |
| Scenarios.DryRunCodeNeverFails | cami/cami.go:158-161 | a backend that answers every call with a DryRunOperation API error produces no failure, whatever the dry-run flag |
| Scenarios.EmptyDelete | cami/cami_test.go:388-406 | no images: no success, no failure |
| Scenarios.DeregisterFailures | cami/cami_test.go:408-421 | failed deregistrations: no success, both image IDs failed, in order |
| Scenarios.SnapshotFailure | cami/cami_test.go:423-444 | a failed snapshot deletion leaves the image a success and the snapshot a failure |
| Scenarios.DryRunSnapshot | cami/cami_test.go:478-500 | DryRunOperation replies count as successes even with the dry-run flag off |
| Scenarios.NoErrorOneSnapshot | cami/cami_test.go:502-541 | with no error anywhere, one image and its one snapshot are both deleted and nothing fails |
| Scenarios.NoErrorTwoSnapshots | cami/cami_test.go:502-541 | with no error anywhere, one image and its two snapshots are all deleted, in mapping order |
| Scenarios.ImagesAndSnapshots | cami/cami_test.go:502-541 | each image ID is followed by its snapshot IDs in mapping order |

## Left out

- `NewAWS` and `Auth` (cami/cami.go:41-63) only load SDK configuration and build the client. They are foreign calls, so `ErrCreateSession` appears only as a sentinel.
- The sentinels `ErrDeregisterImage` and `ErrDeleteSnapshot` are declared but never returned, so they are not modelled.
- The AWS SDK types and `context.TODO()` are not modelled. Of the request fields, the model keeps the filter values, the next token, the dry-run flag, and the image ID of DeregisterImage and the snapshot ID of DeleteSnapshot (the backend's first argument). Other request fields, such as `Owners` and `MaxResults`, are not modelled.
- `smithy.APIError` and `errors.As` are reduced to `CallError`, which holds the API error code when there is one.
- The backend's answers are fixed values: an answer to DeregisterImage or DeleteSnapshot depends only on the ID and the dry-run flag, and a DescribeInstances page depends only on the filter and its position in the sequence. Changes in the backend between calls, and the tokens' contents, are not modelled.
- Go nil pointers are not modelled. A nil `cfg` makes `DeleteAMIs` panic as soon as it handles an image (cami/cami.go:155). When no image reaches the delete stage, `cfg` is never read, and any `Config` gives the same result. A nil `ImageId` or `SnapshotId`, or a nil DescribeImages output, would also make the source panic.
- A nil result slice and an empty one are both `[]`. The one place where the source tells them apart, the accumulator's `IDs`, is kept by `idsNil`.
- Cami.AWS.EC2s: requires that some page of the backend's sequence is an error or has no next token. The source's loop would not end otherwise.
- Cami.AWS.DeleteSnapshots and Cami.AWS.AppendReservations are the inner loops of `DeleteAMIs` and `EC2s`, written as methods of their own. They append to the same output and accumulator.
- The command line (cmd/cami.go, main.go) is not part of this model.
- cami/main.go is an older copy of the package for the previous SDK version, which the current package supersedes. It is not part of this model.
