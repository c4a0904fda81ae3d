/**
 * Keeping the values of a sequence of optional values, in order: the slots of the
 * generator whose file opened, the truthy entries of a yt-dlp result, the truthy
 * paths of a batch of downloads.
 */
module Filtering {
  import opened Wrappers

  /** The present values, in order. */
  function Present<T>(rs: seq<Option<T>>): (r: seq<T>)
    ensures |r| <= |rs|
  {
    if rs == [] then []
    else Present(rs[..|rs| - 1]) + (if rs[|rs| - 1].Some? then [rs[|rs| - 1].value] else [])
  }

  /** Extending the prefix by one slot keeps its value, if any, at the end. */
  lemma PresentStep<T>(rs: seq<Option<T>>, i: nat)
    requires i < |rs|
    ensures Present(rs[..i + 1]) == Present(rs[..i]) + (if rs[i].Some? then [rs[i].value] else [])
  {
    assert rs[..i + 1][..i] == rs[..i];
  }

  /** The positions holding a value, in order. */
  function PresentSlots<T>(rs: seq<Option<T>>): seq<nat>
  {
    if rs == [] then []
    else PresentSlots(rs[..|rs| - 1]) + (if rs[|rs| - 1].Some? then [|rs| - 1] else [])
  }

  /** Each kept value comes with its position. */
  lemma {:induction false} PresentSlotsLength<T>(rs: seq<Option<T>>)
    ensures |PresentSlots(rs)| == |Present(rs)|
  {
    if rs != [] {
      PresentSlotsLength(rs[..|rs| - 1]);
    }
  }

  lemma {:induction false} PresentSlotsAt<T>(rs: seq<Option<T>>, i: nat)
    requires i < |PresentSlots(rs)|
    ensures i < |Present(rs)| && PresentSlots(rs)[i] < |rs| && rs[PresentSlots(rs)[i]] == Some(Present(rs)[i])
  {
    PresentSlotsLength(rs);
    var n := |rs| - 1;
    var init := rs[..n];
    PresentSlotsLength(init);
    if i < |PresentSlots(init)| {
      PresentSlotsAt(init, i);
      assert PresentSlots(rs)[i] == PresentSlots(init)[i];
      assert Present(rs)[i] == Present(init)[i];
      assert rs[PresentSlots(init)[i]] == init[PresentSlots(init)[i]];
    } else {
      assert rs[n].Some? && PresentSlots(rs)[i] == n && Present(rs)[i] == rs[n].value;
    }
  }

  lemma {:induction false} PresentSlotsBelow<T>(rs: seq<Option<T>>, i: nat)
    requires i < |PresentSlots(rs)|
    ensures PresentSlots(rs)[i] < |rs|
  {
    var n := |rs| - 1;
    var init := rs[..n];
    if i < |PresentSlots(init)| {
      PresentSlotsBelow(init, i);
      assert PresentSlots(rs)[i] == PresentSlots(init)[i];
    }
  }

  lemma {:induction false} PresentSlotsIncreasing<T>(rs: seq<Option<T>>, i: nat, j: nat)
    requires i < j < |PresentSlots(rs)|
    ensures PresentSlots(rs)[i] < PresentSlots(rs)[j]
  {
    var n := |rs| - 1;
    var init := rs[..n];
    var sl0 := PresentSlots(init);
    assert PresentSlots(rs)[i] == sl0[i];
    if j < |sl0| {
      PresentSlotsIncreasing(init, i, j);
      assert PresentSlots(rs)[j] == sl0[j];
    } else {
      PresentSlotsBelow(init, i);
      assert PresentSlots(rs)[j] == n;
    }
  }

  lemma {:induction false} PresentSlotsComplete<T>(rs: seq<Option<T>>, j: nat)
    requires j < |rs| && rs[j].Some?
    ensures j in PresentSlots(rs)
  {
    var n := |rs| - 1;
    var init := rs[..n];
    if j < n {
      assert init[j] == rs[j];
      PresentSlotsComplete(init, j);
      var p :| 0 <= p < |PresentSlots(init)| && PresentSlots(init)[p] == j;
      assert PresentSlots(rs)[p] == j;
    } else {
      assert PresentSlots(rs)[|PresentSlots(init)|] == j;
    }
  }

  /**
   * Dropping keeps order: the i-th kept value sits at the i-th kept position, the kept
   * positions increase, and every position holding a value is among them.
   */
  lemma PresentInOrder<T>(rs: seq<Option<T>>)
    ensures |PresentSlots(rs)| == |Present(rs)| <= |rs|
    ensures forall i :: 0 <= i < |PresentSlots(rs)| ==>
              PresentSlots(rs)[i] < |rs| && rs[PresentSlots(rs)[i]] == Some(Present(rs)[i])
    ensures forall i, j :: 0 <= i < j < |PresentSlots(rs)| ==> PresentSlots(rs)[i] < PresentSlots(rs)[j]
    ensures forall j :: 0 <= j < |rs| && rs[j].Some? ==> j in PresentSlots(rs)
  {
    PresentSlotsLength(rs);
    forall i | 0 <= i < |PresentSlots(rs)|
      ensures PresentSlots(rs)[i] < |rs| && rs[PresentSlots(rs)[i]] == Some(Present(rs)[i])
    {
      PresentSlotsAt(rs, i);
    }
    forall i, j | 0 <= i < j < |PresentSlots(rs)|
      ensures PresentSlots(rs)[i] < PresentSlots(rs)[j]
    {
      PresentSlotsIncreasing(rs, i, j);
    }
    forall j | 0 <= j < |rs| && rs[j].Some?
      ensures j in PresentSlots(rs)
    {
      PresentSlotsComplete(rs, j);
    }
  }


  /** With no missing value everything is kept. */
  lemma {:induction false} AllPresent<T>(rs: seq<Option<T>>)
    requires forall i :: 0 <= i < |rs| ==> rs[i].Some?
    ensures |Present(rs)| == |rs|
    ensures forall i :: 0 <= i < |rs| ==> Present(rs)[i] == rs[i].value
  {
    if rs != [] {
      AllPresent(rs[..|rs| - 1]);
    }
  }
}
