/** Draw-list collection: for each offset matrix (one per horizontally wrapped
    copy of the world) and each drawable of the scene, one container when the
    drawable is on for that offset. */
module Collection {
  import opened Matrices
  import opened Drawables

  /** The frame's projection, view and model matrices. */
  datatype FrameMatrices = FrameMatrices(proj: Matrix, view: Matrix, model: Matrix)

  /** The container collected for drawable d under one offset matrix. With a
      local matrix: mvp = proj·view·offset·model·local and
      mv = view·offset·model·local; without one, the offset's shared
      mvp = proj·(view·offset·model) and mv = view·offset·model. The normal
      matrix is the inverse transpose of mv in both cases. */
  function ContainerFor(d: Drawable, fm: FrameMatrices, offset: Matrix): DrawableContainer
  {
    match d.localMatrix
    case Some(local) =>
      var mv := Mul(Mul(Mul(fm.view, offset), fm.model), local);
      DrawableContainer(d, Mul(Mul(Mul(Mul(fm.proj, fm.view), offset), fm.model), local), mv, InverseTranspose(mv))
    case None =>
      var mv := Mul(Mul(fm.view, offset), fm.model);
      DrawableContainer(d, Mul(fm.proj, mv), mv, InverseTranspose(mv))
  }

  /** The containers the inner loop appends for offset number `off`, visiting
      the drawables `ds` in scene order. */
  function OffsetEntries(off: nat, offset: Matrix, ds: seq<Drawable>, isOn: (nat, Drawable) -> bool, fm: FrameMatrices): seq<DrawableContainer>
    decreases |ds|
  {
    if ds == [] then
      []
    else
      var last := ds[|ds| - 1];
      OffsetEntries(off, offset, ds[..|ds| - 1], isOn, fm)
        + (if isOn(off, last) then [ContainerFor(last, fm, offset)] else [])
  }

  /** The draw list after the outer loop has visited `offsets`. */
  function CollectedEntries(offsets: seq<Matrix>, ds: seq<Drawable>, isOn: (nat, Drawable) -> bool, fm: FrameMatrices): seq<DrawableContainer>
    decreases |offsets|
  {
    if offsets == [] then
      []
    else
      var n := |offsets| - 1;
      CollectedEntries(offsets[..n], ds, isOn, fm) + OffsetEntries(n, offsets[n], ds, isOn, fm)
  }

  /** The collection loops of the frame. */
  method CollectDrawList(offsetMats: seq<Matrix>, drawables: seq<Drawable>, isOn: (nat, Drawable) -> bool, fm: FrameMatrices)
    returns (drawList: seq<DrawableContainer>)
    ensures drawList == CollectedEntries(offsetMats, drawables, isOn, fm)
  {
    drawList := [];
    var off := 0;
    while off < |offsetMats|
      invariant 0 <= off <= |offsetMats|
      invariant drawList == CollectedEntries(offsetMats[..off], drawables, isOn, fm)
    {
      var modelAndViewMat4d := Mul(Mul(fm.view, offsetMats[off]), fm.model);
      var thisMvpMat := Mul(fm.proj, modelAndViewMat4d);
      var modelAndViewNormalMat4d := InverseTranspose(modelAndViewMat4d);
      ghost var before := drawList;
      var it := 0;
      while it < |drawables|
        invariant 0 <= it <= |drawables|
        invariant drawList == before + OffsetEntries(off, offsetMats[off], drawables[..it], isOn, fm)
      {
        var theDrawable := drawables[it];
        if isOn(off, theDrawable) {
          match theDrawable.localMatrix {
            case Some(localMat) =>
              var newMvpMat := Mul(Mul(Mul(Mul(fm.proj, fm.view), offsetMats[off]), fm.model), localMat);
              var newMvMat := Mul(Mul(Mul(fm.view, offsetMats[off]), fm.model), localMat);
              var newMvNormalMat := InverseTranspose(newMvMat);
              drawList := drawList + [DrawableContainer(theDrawable, newMvpMat, newMvMat, newMvNormalMat)];
            case None =>
              drawList := drawList + [DrawableContainer(theDrawable, thisMvpMat, modelAndViewMat4d, modelAndViewNormalMat4d)];
          }
        }
        assert drawables[..it + 1][..it] == drawables[..it];
        it := it + 1;
      }
      assert drawables[..|drawables|] == drawables;
      assert offsetMats[..off + 1][..off] == offsetMats[..off];
      off := off + 1;
    }
    assert offsetMats[..|offsetMats|] == offsetMats;
  }

  /** How many of `ds` are on for offset `off`. */
  function CountOn(off: nat, ds: seq<Drawable>, isOn: (nat, Drawable) -> bool): nat
    decreases |ds|
  {
    if ds == [] then 0 else (if isOn(off, ds[0]) then 1 else 0) + CountOn(off, ds[1..], isOn)
  }

  /** The sum of CountOn over the offsets 0 .. n-1. */
  function TotalOn(n: nat, ds: seq<Drawable>, isOn: (nat, Drawable) -> bool): nat
  {
    if n == 0 then 0 else TotalOn(n - 1, ds, isOn) + CountOn(n - 1, ds, isOn)
  }

  lemma {:induction false} CountOnSnoc(off: nat, ds: seq<Drawable>, isOn: (nat, Drawable) -> bool)
    requires ds != []
    ensures CountOn(off, ds, isOn) == CountOn(off, ds[..|ds| - 1], isOn) + (if isOn(off, ds[|ds| - 1]) then 1 else 0)
    decreases |ds|
  {
    if |ds| > 1 {
      assert ds[1..][..|ds[1..]| - 1] == ds[..|ds| - 1][1..];
      CountOnSnoc(off, ds[1..], isOn);
    }
  }

  lemma {:induction false} OffsetEntriesLength(off: nat, offset: Matrix, ds: seq<Drawable>, isOn: (nat, Drawable) -> bool, fm: FrameMatrices)
    ensures |OffsetEntries(off, offset, ds, isOn, fm)| == CountOn(off, ds, isOn)
    decreases |ds|
  {
    if ds != [] {
      OffsetEntriesLength(off, offset, ds[..|ds| - 1], isOn, fm);
      CountOnSnoc(off, ds, isOn);
    }
  }

  /** The draw list holds one container per (offset, drawable) pair that is
      on: its length is the sum over the offsets of the drawables on there. */
  lemma {:induction false} CollectedLength(offsets: seq<Matrix>, ds: seq<Drawable>, isOn: (nat, Drawable) -> bool, fm: FrameMatrices)
    ensures |CollectedEntries(offsets, ds, isOn, fm)| == TotalOn(|offsets|, ds, isOn)
    decreases |offsets|
  {
    if offsets != [] {
      var n := |offsets| - 1;
      CollectedLength(offsets[..n], ds, isOn, fm);
      OffsetEntriesLength(n, offsets[n], ds, isOn, fm);
    }
  }

  lemma {:induction false} OffsetEntriesMembership(off: nat, offset: Matrix, ds: seq<Drawable>, isOn: (nat, Drawable) -> bool, fm: FrameMatrices, c: DrawableContainer)
    ensures c in OffsetEntries(off, offset, ds, isOn, fm) <==>
      exists j :: 0 <= j < |ds| && isOn(off, ds[j]) && c == ContainerFor(ds[j], fm, offset)
    decreases |ds|
  {
    if ds != [] {
      var n := |ds| - 1;
      OffsetEntriesMembership(off, offset, ds[..n], isOn, fm, c);
      if exists j :: 0 <= j < |ds| && isOn(off, ds[j]) && c == ContainerFor(ds[j], fm, offset) {
        var j :| 0 <= j < |ds| && isOn(off, ds[j]) && c == ContainerFor(ds[j], fm, offset);
        if j < n { assert ds[..n][j] == ds[j]; }
      }
    }
  }

  /** c is the container of drawable number j under offset number off, which is on. */
  predicate PairEntry(offsets: seq<Matrix>, ds: seq<Drawable>, isOn: (nat, Drawable) -> bool, fm: FrameMatrices, off: int, j: int, c: DrawableContainer)
  {
    0 <= off < |offsets| && 0 <= j < |ds| && isOn(off, ds[j]) && c == ContainerFor(ds[j], fm, offsets[off])
  }

  /** An entry is in the draw list exactly when it is the container of some
      drawable that is on for some offset, built with that offset's matrix. */
  lemma {:induction false} CollectedMembership(offsets: seq<Matrix>, ds: seq<Drawable>, isOn: (nat, Drawable) -> bool, fm: FrameMatrices, c: DrawableContainer)
    ensures c in CollectedEntries(offsets, ds, isOn, fm) <==> exists off, j :: PairEntry(offsets, ds, isOn, fm, off, j, c)
    decreases |offsets|
  {
    if offsets != [] {
      var n := |offsets| - 1;
      var pre := offsets[..n];
      assert CollectedEntries(offsets, ds, isOn, fm) == CollectedEntries(pre, ds, isOn, fm) + OffsetEntries(n, offsets[n], ds, isOn, fm);
      CollectedMembership(pre, ds, isOn, fm, c);
      OffsetEntriesMembership(n, offsets[n], ds, isOn, fm, c);
      if c in CollectedEntries(pre, ds, isOn, fm) {
        var off, j :| PairEntry(pre, ds, isOn, fm, off, j, c);
        assert pre[off] == offsets[off];
        assert PairEntry(offsets, ds, isOn, fm, off, j, c);
      } else if c in OffsetEntries(n, offsets[n], ds, isOn, fm) {
        var j :| 0 <= j < |ds| && isOn(n, ds[j]) && c == ContainerFor(ds[j], fm, offsets[n]);
        assert PairEntry(offsets, ds, isOn, fm, n, j, c);
      }
      if exists off, j :: PairEntry(offsets, ds, isOn, fm, off, j, c) {
        var off, j :| PairEntry(offsets, ds, isOn, fm, off, j, c);
        if off < n {
          assert pre[off] == offsets[off];
          assert PairEntry(pre, ds, isOn, fm, off, j, c);
        }
      }
    }
  }

  /** The drawables of a draw list, in list order. */
  function DrawablesOf(list: seq<DrawableContainer>): (r: seq<Drawable>)
    ensures |r| == |list|
    ensures forall i :: 0 <= i < |list| ==> r[i] == list[i].drawable
  {
    if list == [] then [] else [list[0].drawable] + DrawablesOf(list[1..])
  }

  lemma {:induction false} DrawablesOfConcat(a: seq<DrawableContainer>, b: seq<DrawableContainer>)
    ensures DrawablesOf(a + b) == DrawablesOf(a) + DrawablesOf(b)
  {
  }

  /** `ds` written out n times in a row. */
  function Repeat(ds: seq<Drawable>, n: nat): (r: seq<Drawable>)
    ensures |r| == n * |ds|
  {
    if n == 0 then [] else Repeat(ds, n - 1) + ds
  }

  lemma {:induction false} AllOnOffsetEntries(off: nat, offset: Matrix, ds: seq<Drawable>, isOn: (nat, Drawable) -> bool, fm: FrameMatrices)
    requires forall d :: isOn(off, d)
    ensures DrawablesOf(OffsetEntries(off, offset, ds, isOn, fm)) == ds
    decreases |ds|
  {
    if ds != [] {
      var n := |ds| - 1;
      AllOnOffsetEntries(off, offset, ds[..n], isOn, fm);
      DrawablesOfConcat(OffsetEntries(off, offset, ds[..n], isOn, fm), [ContainerFor(ds[n], fm, offset)]);
      assert ds == ds[..n] + [ds[n]];
    }
  }

  /** When every drawable is on for every offset the draw list is the scene's
      drawables in scene order, once per offset: N offsets and D drawables give
      exactly N×D entries. */
  lemma {:induction false} AllOnCollectsEveryPair(offsets: seq<Matrix>, ds: seq<Drawable>, isOn: (nat, Drawable) -> bool, fm: FrameMatrices)
    requires forall off, d :: isOn(off, d)
    ensures DrawablesOf(CollectedEntries(offsets, ds, isOn, fm)) == Repeat(ds, |offsets|)
    ensures |CollectedEntries(offsets, ds, isOn, fm)| == |offsets| * |ds|
    decreases |offsets|
  {
    if offsets != [] {
      var n := |offsets| - 1;
      AllOnCollectsEveryPair(offsets[..n], ds, isOn, fm);
      AllOnOffsetEntries(n, offsets[n], ds, isOn, fm);
      DrawablesOfConcat(CollectedEntries(offsets[..n], ds, isOn, fm), OffsetEntries(n, offsets[n], ds, isOn, fm));
    }
  }
}
