/** The set-difference filter: images that no instance was launched from. */
module Filter {
  import opened Ec2

  /** The image IDs that some instance was launched from. */
  function InUse(ec2s: seq<Instance>): set<string> {
    set x | x in ec2s :: x.imageId
  }

  /** The IDs of a list of images, as a set. */
  function ImageIdSet(amis: seq<Image>): set<string> {
    set a | a in amis :: a.imageId
  }

  predicate DistinctIds(amis: seq<Image>) {
    forall i, j :: 0 <= i < j < |amis| ==> amis[i].imageId != amis[j].imageId
  }

  /** The images whose ID is not in `inUse`, kept in input order. */
  function Unused(amis: seq<Image>, inUse: set<string>): (r: seq<Image>)
    ensures |r| <= |amis|
    ensures forall a :: a in r <==> a in amis && a.imageId !in inUse
  {
    if amis == [] then []
    else
      var init, last := amis[..|amis| - 1], amis[|amis| - 1];
      assert amis == init + [last];
      Unused(init, inUse) + (if last.imageId in inUse then [] else [last])
  }

  /** One more instance adds its image ID to the IDs in use. */
  lemma InUseSnoc(ec2s: seq<Instance>, i: nat)
    requires i < |ec2s|
    ensures InUse(ec2s[..i + 1]) == InUse(ec2s[..i]) + {ec2s[i].imageId}
  {
    assert ec2s[..i + 1] == ec2s[..i] + [ec2s[i]];
  }

  /** One more image survives exactly when its ID is not in use. */
  lemma UnusedSnoc(amis: seq<Image>, i: nat, inUse: set<string>)
    requires i < |amis|
    ensures Unused(amis[..i + 1], inUse) == Unused(amis[..i], inUse) + (if amis[i].imageId in inUse then [] else [amis[i]])
  {
    assert amis[..i + 1][..i] == amis[..i];
  }

  /** Filtering works image by image: the survivors of a concatenation are the concatenated survivors, in order. */
  lemma {:induction false} UnusedAppend(a1: seq<Image>, a2: seq<Image>, inUse: set<string>)
    ensures Unused(a1 + a2, inUse) == Unused(a1, inUse) + Unused(a2, inUse)
  {
    if a2 == [] {
      assert a1 + a2 == a1;
    } else {
      var init := a2[..|a2| - 1];
      assert (a1 + a2)[..|a1 + a2| - 1] == a1 + init;
      UnusedAppend(a1, init, inUse);
    }
  }

  /** When every image is in use nothing survives. */
  lemma {:induction false} AllInUse(amis: seq<Image>, inUse: set<string>)
    requires forall a :: a in amis ==> a.imageId in inUse
    ensures Unused(amis, inUse) == []
  {
    if amis != [] {
      var init := amis[..|amis| - 1];
      assert amis == init + [amis[|amis| - 1]];
      AllInUse(init, inUse);
    }
  }

  /** When no image is in use every image survives, in order. */
  lemma {:induction false} NoneInUse(amis: seq<Image>, inUse: set<string>)
    requires forall a :: a in amis ==> a.imageId !in inUse
    ensures Unused(amis, inUse) == amis
  {
    if amis != [] {
      var init := amis[..|amis| - 1];
      assert amis == init + [amis[|amis| - 1]];
      NoneInUse(init, inUse);
    }
  }

  /**
   * With distinct image IDs, the number of survivors is the number of images
   * minus the number of their IDs that are in use.
   */
  lemma {:induction false} UnusedCount(amis: seq<Image>, inUse: set<string>)
    requires DistinctIds(amis)
    ensures |Unused(amis, inUse)| == |amis| - |ImageIdSet(amis) * inUse|
  {
    if amis == [] {
      assert ImageIdSet(amis) == {};
    } else {
      var init, last := amis[..|amis| - 1], amis[|amis| - 1];
      LastIdIsNew(amis);
      UnusedCount(init, inUse);
      InUseCountSnoc(ImageIdSet(init), last.imageId, inUse);
    }
  }

  /** Dropping the last image keeps the IDs distinct, and the last ID is not among the others. */
  lemma LastIdIsNew(amis: seq<Image>)
    requires DistinctIds(amis) && amis != []
    ensures DistinctIds(amis[..|amis| - 1])
    ensures ImageIdSet(amis) == ImageIdSet(amis[..|amis| - 1]) + {amis[|amis| - 1].imageId}
    ensures amis[|amis| - 1].imageId !in ImageIdSet(amis[..|amis| - 1])
  {
    var init, last := amis[..|amis| - 1], amis[|amis| - 1];
    assert amis == init + [last];
    forall a | a in init
      ensures a.imageId != last.imageId
    {
      var k :| 0 <= k < |init| && init[k] == a;
      assert amis[k] == a;
    }
  }

  /** Adding a new ID to a set adds one to its overlap with `inUse` exactly when the ID is in use. */
  lemma InUseCountSnoc(ids: set<string>, id: string, inUse: set<string>)
    requires id !in ids
    ensures |(ids + {id}) * inUse| == |ids * inUse| + (if id in inUse then 1 else 0)
  {
    if id in inUse {
      assert (ids + {id}) * inUse == (ids * inUse) + {id};
    } else {
      assert (ids + {id}) * inUse == ids * inUse;
    }
  }
}
