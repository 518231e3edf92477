/** `useThomsonStore`: the selected element and the view switches of the
    plum-pudding model. */
module ThomsonStore {
  import opened Wrappers
  import opened Elements
  import opened Selection

  datatype ThomsonView = ThomsonView(autoRotate: bool, rotateAtom: bool, freezeMotion: bool, showPositiveSphere: bool, cutawaySphere: bool)

  /** The partial record `updateView` takes: `None` is a field the caller leaves out; no caller passes an explicit `undefined`. */
  datatype ThomsonViewPatch = ThomsonViewPatch(autoRotate: Option<bool>, rotateAtom: Option<bool>, freezeMotion: Option<bool>, showPositiveSphere: Option<bool>, cutawaySphere: Option<bool>)

  const DefaultView: ThomsonView := ThomsonView(true, false, false, true, true)

  /** The empty partial record `{}`. */
  const NoChange: ThomsonViewPatch := ThomsonViewPatch(None, None, None, None, None)

  /** `{ ...view, ...settings }`. */
  function Merge(view: ThomsonView, settings: ThomsonViewPatch): ThomsonView {
    ThomsonView(settings.autoRotate.GetOr(view.autoRotate), settings.rotateAtom.GetOr(view.rotateAtom), settings.freezeMotion.GetOr(view.freezeMotion), settings.showPositiveSphere.GetOr(view.showPositiveSphere), settings.cutawaySphere.GetOr(view.cutawaySphere))
  }

  /** Every field the patch gives is taken from it, every other one is kept. */
  lemma MergeSetsGivenFields(view: ThomsonView, settings: ThomsonViewPatch)
    ensures var r := Merge(view, settings);
      && (settings.autoRotate.Some? ==> r.autoRotate == settings.autoRotate.value)
      && (settings.autoRotate.None? ==> r.autoRotate == view.autoRotate)
      && (settings.rotateAtom.Some? ==> r.rotateAtom == settings.rotateAtom.value)
      && (settings.rotateAtom.None? ==> r.rotateAtom == view.rotateAtom)
      && (settings.freezeMotion.Some? ==> r.freezeMotion == settings.freezeMotion.value)
      && (settings.freezeMotion.None? ==> r.freezeMotion == view.freezeMotion)
      && (settings.showPositiveSphere.Some? ==> r.showPositiveSphere == settings.showPositiveSphere.value)
      && (settings.showPositiveSphere.None? ==> r.showPositiveSphere == view.showPositiveSphere)
      && (settings.cutawaySphere.Some? ==> r.cutawaySphere == settings.cutawaySphere.value)
      && (settings.cutawaySphere.None? ==> r.cutawaySphere == view.cutawaySphere)
  {
  }

  /** `{ ...first, ...second }` on two partial records. */
  function Then(first: ThomsonViewPatch, second: ThomsonViewPatch): ThomsonViewPatch {
    ThomsonViewPatch(second.autoRotate.OrElse(first.autoRotate), second.rotateAtom.OrElse(first.rotateAtom), second.freezeMotion.OrElse(first.freezeMotion), second.showPositiveSphere.OrElse(first.showPositiveSphere), second.cutawaySphere.OrElse(first.cutawaySphere))
  }

  /** The patch that gives every field of `view`. */
  function Full(view: ThomsonView): ThomsonViewPatch {
    ThomsonViewPatch(Some(view.autoRotate), Some(view.rotateAtom), Some(view.freezeMotion), Some(view.showPositiveSphere), Some(view.cutawaySphere))
  }

  /** Merging `{}` changes nothing. */
  lemma MergeNoChange(view: ThomsonView)
    ensures Merge(view, NoChange) == view
  {
  }

  /** Two merges in a row are one merge of the combined patch. */
  lemma MergeThen(view: ThomsonView, p: ThomsonViewPatch, q: ThomsonViewPatch)
    ensures Merge(Merge(view, p), q) == Merge(view, Then(p, q))
  {
  }

  /** Merging the same patch again changes nothing more. */
  lemma MergeIdempotent(view: ThomsonView, p: ThomsonViewPatch)
    ensures Merge(Merge(view, p), p) == Merge(view, p)
  {
  }

  /** Every view is reachable from every view in one merge. */
  lemma MergeReaches(view: ThomsonView, target: ThomsonView)
    ensures Merge(view, Full(target)) == target
  {
  }

  /** The two sphere switches are independent: one patch sets any combination of
      them and leaves the other switches as they were. */
  lemma SphereSwitchesIndependent(view: ThomsonView, showPositiveSphere: bool, cutawaySphere: bool)
    ensures var r := Merge(view, NoChange.(showPositiveSphere := Some(showPositiveSphere), cutawaySphere := Some(cutawaySphere)));
      && r.showPositiveSphere == showPositiveSphere && r.cutawaySphere == cutawaySphere
      && r.autoRotate == view.autoRotate && r.rotateAtom == view.rotateAtom && r.freezeMotion == view.freezeMotion
  {
  }

  class Store {
    var selectedSymbol: string
    var view: ThomsonView

    /** The store holds a symbol of the table. */
    predicate Valid()
      reads this
    {
      IsKnownSymbol(selectedSymbol)
    }

    constructor()
      ensures selectedSymbol == DefaultSymbol && view == DefaultView
      ensures Valid()
    {
      selectedSymbol := DefaultSymbol;
      view := DefaultView;
      DefaultSymbolIsHydrogen();
    }

    /** `selectElement`: an unknown symbol returns before anything happens, the
        current symbol hands back the identical state, and any other table symbol
        replaces the selection alone. */
    method SelectElement(symbol: string) returns (published: bool)
      modifies this
      ensures selectedSymbol == Select(old(selectedSymbol), symbol)
      ensures view == old(view)
      ensures published == Publishes(old(selectedSymbol), symbol)
      ensures old(Valid()) ==> Valid()
    {
      if GetElementBySymbol(symbol).None? {
        return false;
      }
      if selectedSymbol == symbol {
        return false;
      }
      selectedSymbol := symbol;
      published := true;
    }

    /** `updateView`: the view becomes the merge of the old view and the patch;
        the selection is kept. */
    method UpdateView(settings: ThomsonViewPatch)
      modifies this
      ensures view == Merge(old(view), settings)
      ensures selectedSymbol == old(selectedSymbol)
      ensures old(Valid()) ==> Valid()
    {
      view := Merge(view, settings);
    }

    /** `resetThomsonStore`: back to the default symbol and view, whatever came before. */
    method Reset()
      modifies this
      ensures selectedSymbol == DefaultSymbol && view == DefaultView
      ensures Valid()
    {
      selectedSymbol := DefaultSymbol;
      view := DefaultView;
      DefaultSymbolIsHydrogen();
    }
  }
}
