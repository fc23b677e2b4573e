/**
 * The paginated instance collector's specification: which DescribeInstances
 * replies are consulted and what is gathered from them.
 */
module Pagination {
  import opened Wrappers
  import opened Ec2
  import opened CamiErrors

  /**
   * The values of the image-id filter. The slice is created with length
   * `len(amis)` and the IDs are appended after it, so it holds `|amis|` empty
   * strings followed by the image IDs in order.
   */
  function FilterValues(amis: seq<Image>): (r: seq<string>)
    ensures |r| == 2 * |amis|
  {
    seq(|amis|, _ => "") + seq(|amis|, i requires 0 <= i < |amis| => amis[i].imageId)
  }

  /** The filter holds `|amis|` empty strings, then the image IDs in input order. */
  lemma FilterValuesShape(amis: seq<Image>)
    ensures forall i :: 0 <= i < |amis| ==> FilterValues(amis)[i] == ""
    ensures forall i :: 0 <= i < |amis| ==> FilterValues(amis)[|amis| + i] == amis[i].imageId
  {
  }

  /** All instances of a list of reservations, reservation after reservation. */
  function ReservationInstances(rs: seq<Reservation>): seq<Instance> {
    if rs == [] then [] else ReservationInstances(rs[..|rs| - 1]) + rs[|rs| - 1].instances
  }

  function PageInstances(p: PageReply): seq<Instance> {
    if p.Page? then ReservationInstances(p.reservations) else []
  }

  /** All instances of a list of pages, page after page. */
  function Flatten(pages: seq<PageReply>): seq<Instance> {
    if pages == [] then [] else Flatten(pages[..|pages| - 1]) + PageInstances(pages[|pages| - 1])
  }

  /** The next token a reply hands back; an error hands back none. */
  function Token(p: PageReply): Option<string> {
    if p.Page? then p.nextToken else None
  }

  /** The token each request carried to obtain `pages`: none on the first, then the previous reply's next token. */
  function RequestTokens(pages: seq<PageReply>): seq<Option<string>> {
    if pages == [] then []
    else if |pages| == 1 then [None]
    else RequestTokens(pages[..|pages| - 1]) + [Token(pages[|pages| - 2])]
  }

  lemma {:induction false} RequestTokensFollow(pages: seq<PageReply>)
    ensures |RequestTokens(pages)| == |pages|
    ensures pages != [] ==> RequestTokens(pages)[0] == None
    ensures forall j :: 0 <= j < |pages| - 1 ==> RequestTokens(pages)[j + 1] == Token(pages[j])
  {
    if |pages| > 1 {
      var init := pages[..|pages| - 1];
      RequestTokensFollow(init);
      assert forall j :: 0 <= j < |init| ==> init[j] == pages[j];
    }
  }

  /** One more reply adds its instances to what was gathered and its request's token to what was sent. */
  lemma PageStep(pages: seq<PageReply>, call: nat)
    requires call < |pages|
    ensures Flatten(pages[..call + 1]) == Flatten(pages[..call]) + PageInstances(pages[call])
    ensures RequestTokens(pages[..call + 1]) == RequestTokens(pages[..call]) + [if call == 0 then None else Token(pages[call - 1])]
  {
    assert pages[..call + 1][..call] == pages[..call];
  }

  /** The index of the reply after which the collector stops: the first error or the first page without a next token. */
  function FirstStop(pages: seq<PageReply>): (k: nat)
    requires EndsPaging(pages)
    ensures k < |pages| && pages[k].Stops()
    ensures forall j :: 0 <= j < k ==> pages[j].Page? && pages[j].nextToken.Some?
  {
    if pages[0].Stops() then 0 else EndsPagingTail(pages); 1 + FirstStop(pages[1..])
  }

  /** When the first reply does not stop the collector, a later one does. */
  lemma EndsPagingTail(pages: seq<PageReply>)
    requires EndsPaging(pages) && !pages[0].Stops()
    ensures EndsPaging(pages[1..])
  {
    var k :| 0 <= k < |pages| && pages[k].Stops();
    assert pages[1..][k - 1] == pages[k];
  }

  /**
   * What the collector returns: on an error, the instances of the pages
   * before it with the wrapped describe-instances sentinel; otherwise the
   * instances of every page up to the one without a next token.
   */
  function Collect(pages: seq<PageReply>): (r: (seq<Instance>, Option<Error>))
    requires EndsPaging(pages)
    ensures r.0 == Flatten(pages[..FirstStop(pages) + 1])
    ensures r.1.Some? <==> pages[FirstStop(pages)].PageError?
    ensures r.1.Some? ==> r.1.value == Wrapped(ErrDesribeInstances)
    ensures r.1.None? ==> pages[FirstStop(pages)].nextToken.None?
  {
    var k := FirstStop(pages);
    PageStep(pages, k);
    if pages[k].PageError? then (Flatten(pages[..k]), Some(Wrapped(ErrDesribeInstances)))
    else (Flatten(pages[..k + 1]), None)
  }

  lemma {:induction false} ReservationInstancesMembership(rs: seq<Reservation>, x: Instance)
    ensures x in ReservationInstances(rs) <==> exists r :: r in rs && x in r.instances
  {
    if rs != [] {
      var init := rs[..|rs| - 1];
      assert rs == init + [rs[|rs| - 1]];
      ReservationInstancesMembership(init, x);
    }
  }

  /** `p` is a successful page one of whose reservations holds `x`. */
  predicate Holds(p: PageReply, x: Instance) {
    p.Page? && x in ReservationInstances(p.reservations)
  }

  /** An instance is gathered exactly when some reservation of some successful page holds it. */
  lemma {:induction false} FlattenMembership(pages: seq<PageReply>, x: Instance)
    ensures x in Flatten(pages) <==> exists j :: 0 <= j < |pages| && Holds(pages[j], x)
  {
    if pages != [] {
      var n := |pages| - 1;
      var init := pages[..n];
      FlattenMembership(init, x);
      assert x in Flatten(pages) <==> x in Flatten(init) || Holds(pages[n], x);
      if x in Flatten(init) {
        var j :| 0 <= j < |init| && Holds(init[j], x);
        assert pages[j] == init[j];
      }
      if exists j :: 0 <= j < |pages| && Holds(pages[j], x) {
        var j :| 0 <= j < |pages| && Holds(pages[j], x);
        if j < n {
          assert init[j] == pages[j];
        }
      }
    }
  }

  /** The replies after the one that stops the collector play no part in its result. */
  lemma StopsAtFirstStop(pages: seq<PageReply>)
    requires EndsPaging(pages)
    ensures EndsPaging(pages[..FirstStop(pages) + 1])
    ensures Collect(pages[..FirstStop(pages) + 1]) == Collect(pages)
  {
    var k := FirstStop(pages);
    var q := pages[..k + 1];
    FirstStopIsFirst(q, k);
    assert q[..k] == pages[..k];
    assert q[..k + 1] == q;
  }

  /** A stopping reply with no stopping reply before it is where the collector stops. */
  lemma {:induction false} FirstStopIsFirst(pages: seq<PageReply>, k: nat)
    requires EndsPaging(pages)
    requires k < |pages| && pages[k].Stops()
    requires forall j :: 0 <= j < k ==> !pages[j].Stops()
    ensures FirstStop(pages) == k
  {
    if k > 0 {
      FirstStopIsFirst(pages[1..], k - 1);
    }
  }
}
