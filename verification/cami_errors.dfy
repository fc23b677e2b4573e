/** The errors of the cleaner: stage sentinels and the batch-deletion failure accumulator. */
module CamiErrors {
  import opened Wrappers

  /** The package-level sentinel errors, one per stage that can fail fast. */
  datatype Sentinel = ErrCreateSession | ErrDesribeImages | ErrDesribeInstances | ErrFilterAMIs
  {
    function Message(): string {
      match this
      case ErrCreateSession => "create session"
      case ErrDesribeImages => "describe images"
      case ErrDesribeInstances => "describe instances"
      case ErrFilterAMIs => "filter AMIs"
    }
  }

  /**
   * The accumulator of IDs whose deletion failed. `idsNil` records that the
   * Go slice is still nil (a fresh value), as opposed to empty.
   */
  class ErrDeleteAMIs {
    var ids: seq<string>
    var idsNil: bool

    ghost predicate Valid()
      reads this
    {
      idsNil ==> ids == []
    }

    /** The zero value `&ErrDeleteAMIs{}`. */
    constructor ()
      ensures Valid() && idsNil && ids == []
    {
      ids := [];
      idsNil := true;
    }

    /** The error text; it reads nothing, so it cannot depend on the IDs. */
    function Error(): string {
      "delete AMIs"
    }

    /** Adds `newIds` after the IDs already recorded, first turning a nil slice into an empty one. */
    method Append(newIds: seq<string>)
      requires Valid()
      modifies this
      ensures Valid() && !idsNil
      ensures ids == old(ids) + newIds
      ensures |ids| == |old(ids)| + |newIds|
    {
      if idsNil {
        ids := [];
        idsNil := false;
      }
      ids := ids + newIds;
    }
  }

  /**
   * A Go `error` value as the cleaner produces it: a sentinel wrapped with
   * `%w`, a sentinel returned as is, or the batch-deletion accumulator.
   */
  datatype Error = Wrapped(sentinel: Sentinel) | Bare(sentinel: Sentinel) | DeleteFailed(failure: ErrDeleteAMIs)
  {
    /** `errors.Is(err, target)`: matches the sentinel itself and any wrapping of it. */
    predicate Is(target: Sentinel) {
      !DeleteFailed? && sentinel == target
    }

    function Message(): string {
      match this
      case Wrapped(s) => s.Message()
      case Bare(s) => s.Message()
      case DeleteFailed(e) => e.Error()
    }
  }

  /** No error when there is no accumulator or it holds no ID; otherwise the accumulator itself. */
  function ErrorOrNil(e: ErrDeleteAMIs?): (r: Option<Error>)
    reads e
    ensures r.None? <==> e == null || |e.ids| == 0
    ensures r.Some? ==> r.value.DeleteFailed? && r.value.failure == e && r.value.failure.ids == e.ids
  {
    if e == null || |e.ids| == 0 then None else Some(DeleteFailed(e))
  }

  /** The sentinels are told apart by their texts as well as by identity. */
  lemma SentinelMessagesDistinct(s: Sentinel, t: Sentinel)
    requires s != t
    ensures s.Message() != t.Message()
  {
  }

  /** A stage error matches its own sentinel and no other. */
  lemma StageErrorIdentity(err: Error, s: Sentinel, t: Sentinel)
    requires err == Wrapped(s) || err == Bare(s)
    ensures err.Is(s)
    ensures t != s ==> !err.Is(t)
  {
  }

  /** The accumulator's text is the same whatever IDs it holds. */
  lemma DeleteFailedMessage(e: ErrDeleteAMIs)
    ensures DeleteFailed(e).Message() == "delete AMIs"
    ensures forall s :: !DeleteFailed(e).Is(s)
  {
  }
}
