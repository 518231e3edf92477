/** `useRutherfordStore`: the selected element and the view switches of the
    planetary model. */
module RutherfordStore {
  import opened Wrappers
  import opened Elements
  import opened Selection

  datatype RutherfordView = RutherfordView(autoRotate: bool, rotateAtom: bool, freezeMotion: bool, showElectronTrails: bool)

  /** The partial record `updateView` takes: `None` is a field the caller leaves out; no caller passes an explicit `undefined`. */
  datatype RutherfordViewPatch = RutherfordViewPatch(autoRotate: Option<bool>, rotateAtom: Option<bool>, freezeMotion: Option<bool>, showElectronTrails: Option<bool>)

  const DefaultView: RutherfordView := RutherfordView(true, false, false, true)

  /** The empty partial record `{}`. */
  const NoChange: RutherfordViewPatch := RutherfordViewPatch(None, None, None, None)

  /** `{ ...view, ...settings }`. */
  function Merge(view: RutherfordView, settings: RutherfordViewPatch): RutherfordView {
    RutherfordView(settings.autoRotate.GetOr(view.autoRotate), settings.rotateAtom.GetOr(view.rotateAtom), settings.freezeMotion.GetOr(view.freezeMotion), settings.showElectronTrails.GetOr(view.showElectronTrails))
  }

  /** Every field the patch gives is taken from it, every other one is kept. */
  lemma MergeSetsGivenFields(view: RutherfordView, settings: RutherfordViewPatch)
    ensures var r := Merge(view, settings);
      && (settings.autoRotate.Some? ==> r.autoRotate == settings.autoRotate.value)
      && (settings.autoRotate.None? ==> r.autoRotate == view.autoRotate)
      && (settings.rotateAtom.Some? ==> r.rotateAtom == settings.rotateAtom.value)
      && (settings.rotateAtom.None? ==> r.rotateAtom == view.rotateAtom)
      && (settings.freezeMotion.Some? ==> r.freezeMotion == settings.freezeMotion.value)
      && (settings.freezeMotion.None? ==> r.freezeMotion == view.freezeMotion)
      && (settings.showElectronTrails.Some? ==> r.showElectronTrails == settings.showElectronTrails.value)
      && (settings.showElectronTrails.None? ==> r.showElectronTrails == view.showElectronTrails)
  {
  }

  /** `{ ...first, ...second }` on two partial records. */
  function Then(first: RutherfordViewPatch, second: RutherfordViewPatch): RutherfordViewPatch {
    RutherfordViewPatch(second.autoRotate.OrElse(first.autoRotate), second.rotateAtom.OrElse(first.rotateAtom), second.freezeMotion.OrElse(first.freezeMotion), second.showElectronTrails.OrElse(first.showElectronTrails))
  }

  /** The patch that gives every field of `view`. */
  function Full(view: RutherfordView): RutherfordViewPatch {
    RutherfordViewPatch(Some(view.autoRotate), Some(view.rotateAtom), Some(view.freezeMotion), Some(view.showElectronTrails))
  }

  /** Merging `{}` changes nothing. */
  lemma MergeNoChange(view: RutherfordView)
    ensures Merge(view, NoChange) == view
  {
  }

  /** Two merges in a row are one merge of the combined patch. */
  lemma MergeThen(view: RutherfordView, p: RutherfordViewPatch, q: RutherfordViewPatch)
    ensures Merge(Merge(view, p), q) == Merge(view, Then(p, q))
  {
  }

  /** Merging the same patch again changes nothing more. */
  lemma MergeIdempotent(view: RutherfordView, p: RutherfordViewPatch)
    ensures Merge(Merge(view, p), p) == Merge(view, p)
  {
  }

  /** Every view is reachable from every view in one merge. */
  lemma MergeReaches(view: RutherfordView, target: RutherfordView)
    ensures Merge(view, Full(target)) == target
  {
  }

  class Store {
    var selectedSymbol: string
    var view: RutherfordView

    /** The store holds a symbol of the table. */
    predicate Valid()
      reads this
    {
      IsKnownSymbol(selectedSymbol)
    }

    constructor()
      ensures selectedSymbol == DefaultSymbol && view == DefaultView
      ensures Valid()
    {
      selectedSymbol := DefaultSymbol;
      view := DefaultView;
      DefaultSymbolIsHydrogen();
    }

    /** `selectElement`: an unknown symbol returns before anything happens, the
        current symbol hands back the identical state, and any other table symbol
        replaces the selection alone. */
    method SelectElement(symbol: string) returns (published: bool)
      modifies this
      ensures selectedSymbol == Select(old(selectedSymbol), symbol)
      ensures view == old(view)
      ensures published == Publishes(old(selectedSymbol), symbol)
      ensures old(Valid()) ==> Valid()
    {
      if GetElementBySymbol(symbol).None? {
        return false;
      }
      if selectedSymbol == symbol {
        return false;
      }
      selectedSymbol := symbol;
      published := true;
    }

    /** `updateView`: the view becomes the merge of the old view and the patch;
        the selection is kept. */
    method UpdateView(settings: RutherfordViewPatch)
      modifies this
      ensures view == Merge(old(view), settings)
      ensures selectedSymbol == old(selectedSymbol)
      ensures old(Valid()) ==> Valid()
    {
      view := Merge(view, settings);
    }

    /** `resetRutherfordStore`: back to the default symbol and view, whatever came before. */
    method Reset()
      modifies this
      ensures selectedSymbol == DefaultSymbol && view == DefaultView
      ensures Valid()
    {
      selectedSymbol := DefaultSymbol;
      view := DefaultView;
      DefaultSymbolIsHydrogen();
    }
  }
}
