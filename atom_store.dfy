/** `useAtomStore`: the selected element and the view switches of the
    shell-model atom. */
module AtomStore {
  import opened Wrappers
  import opened Elements
  import opened Selection

  datatype AtomView = AtomView(
    showElectronTrails: bool, autoRotate: bool, rotateAtom: bool, tiltedOrbits: bool, freezeMotion: bool)

  /** `Partial<AtomViewSettings>`: `None` is a field the caller leaves out; no caller passes an explicit `undefined`. */
  datatype AtomViewPatch = AtomViewPatch(
    showElectronTrails: Option<bool>, autoRotate: Option<bool>, rotateAtom: Option<bool>,
    tiltedOrbits: Option<bool>, freezeMotion: Option<bool>)

  const DefaultView: AtomView := AtomView(true, true, false, false, false)

  /** The empty partial record `{}`. */
  const NoChange: AtomViewPatch := AtomViewPatch(None, None, None, None, None)

  /** `{ ...view, ...settings }`. */
  function Merge(view: AtomView, settings: AtomViewPatch): AtomView {
    AtomView(
      settings.showElectronTrails.GetOr(view.showElectronTrails),
      settings.autoRotate.GetOr(view.autoRotate),
      settings.rotateAtom.GetOr(view.rotateAtom),
      settings.tiltedOrbits.GetOr(view.tiltedOrbits),
      settings.freezeMotion.GetOr(view.freezeMotion))
  }

  /** Every field the patch gives is taken from it, every other one is kept. */
  lemma MergeSetsGivenFields(view: AtomView, settings: AtomViewPatch)
    ensures var r := Merge(view, settings);
      && (settings.showElectronTrails.Some? ==> r.showElectronTrails == settings.showElectronTrails.value)
      && (settings.showElectronTrails.None? ==> r.showElectronTrails == view.showElectronTrails)
      && (settings.autoRotate.Some? ==> r.autoRotate == settings.autoRotate.value)
      && (settings.autoRotate.None? ==> r.autoRotate == view.autoRotate)
      && (settings.rotateAtom.Some? ==> r.rotateAtom == settings.rotateAtom.value)
      && (settings.rotateAtom.None? ==> r.rotateAtom == view.rotateAtom)
      && (settings.tiltedOrbits.Some? ==> r.tiltedOrbits == settings.tiltedOrbits.value)
      && (settings.tiltedOrbits.None? ==> r.tiltedOrbits == view.tiltedOrbits)
      && (settings.freezeMotion.Some? ==> r.freezeMotion == settings.freezeMotion.value)
      && (settings.freezeMotion.None? ==> r.freezeMotion == view.freezeMotion)
  {
  }

  /** `{ ...first, ...second }` on two partial records. */
  function Then(first: AtomViewPatch, second: AtomViewPatch): AtomViewPatch {
    AtomViewPatch(
      second.showElectronTrails.OrElse(first.showElectronTrails),
      second.autoRotate.OrElse(first.autoRotate),
      second.rotateAtom.OrElse(first.rotateAtom),
      second.tiltedOrbits.OrElse(first.tiltedOrbits),
      second.freezeMotion.OrElse(first.freezeMotion))
  }

  /** The patch that gives every field of `view`. */
  function Full(view: AtomView): AtomViewPatch {
    AtomViewPatch(Some(view.showElectronTrails), Some(view.autoRotate), Some(view.rotateAtom),
                  Some(view.tiltedOrbits), Some(view.freezeMotion))
  }

  /** Merging `{}` changes nothing. */
  lemma MergeNoChange(view: AtomView)
    ensures Merge(view, NoChange) == view
  {
  }

  /** Two merges in a row are one merge of the combined patch. */
  lemma MergeThen(view: AtomView, p: AtomViewPatch, q: AtomViewPatch)
    ensures Merge(Merge(view, p), q) == Merge(view, Then(p, q))
  {
  }

  /** Merging the same patch again changes nothing more. */
  lemma MergeIdempotent(view: AtomView, p: AtomViewPatch)
    ensures Merge(Merge(view, p), p) == Merge(view, p)
  {
  }

  /** Every view is reachable from every view in one merge. */
  lemma MergeReaches(view: AtomView, target: AtomView)
    ensures Merge(view, Full(target)) == target
  {
  }

  class Store {
    var selectedSymbol: string
    var view: AtomView

    /** The store holds a symbol of the table. */
    predicate Valid()
      reads this
    {
      IsKnownSymbol(selectedSymbol)
    }

    constructor()
      ensures selectedSymbol == DefaultSymbol && view == DefaultView
      ensures Valid()
    {
      selectedSymbol := DefaultSymbol;
      view := DefaultView;
      DefaultSymbolIsHydrogen();
    }

    /** `selectElement`: an unknown symbol returns before anything happens, the
        current symbol hands back the identical state, and any other table symbol
        replaces the selection alone. */
    method SelectElement(symbol: string) returns (published: bool)
      modifies this
      ensures selectedSymbol == Select(old(selectedSymbol), symbol)
      ensures view == old(view)
      ensures published == Publishes(old(selectedSymbol), symbol)
      ensures old(Valid()) ==> Valid()
    {
      if GetElementBySymbol(symbol).None? {
        return false;
      }
      if selectedSymbol == symbol {
        return false;
      }
      selectedSymbol := symbol;
      published := true;
    }

    /** `updateView`: the view becomes the merge of the old view and the patch;
        the selection is kept. */
    method UpdateView(settings: AtomViewPatch)
      modifies this
      ensures view == Merge(old(view), settings)
      ensures selectedSymbol == old(selectedSymbol)
      ensures old(Valid()) ==> Valid()
    {
      view := Merge(view, settings);
    }

    /** `resetAtomStore`: back to the default symbol and view, whatever came before. */
    method Reset()
      modifies this
      ensures selectedSymbol == DefaultSymbol && view == DefaultView
      ensures Valid()
    {
      selectedSymbol := DefaultSymbol;
      view := DefaultView;
      DefaultSymbolIsHydrogen();
    }
  }

  /** The scenario of `useAtomStore.spec.ts`, on a fresh store: carbon is taken, an unknown symbol is
      ignored, and two partial updates each keep the other field. */
  method StoreScenario() returns (afterCarbon: string, afterUnknown: string, first: AtomView, second: AtomView)
    ensures afterCarbon == "C"
    ensures afterUnknown == "H"
    ensures !first.autoRotate && first.showElectronTrails == DefaultView.showElectronTrails
    ensures !second.autoRotate && !second.showElectronTrails
  {
    KnownSymbols();
    DefaultSymbolIsHydrogen();
    var store := new Store();
    var _ := store.SelectElement("C");
    afterCarbon := store.selectedSymbol;
    store.Reset();
    var _ := store.SelectElement("Unobtanium");
    afterUnknown := store.selectedSymbol;
    store.Reset();
    store.UpdateView(NoChange.(autoRotate := Some(false)));
    first := store.view;
    store.UpdateView(NoChange.(showElectronTrails := Some(false)));
    second := store.view;
  }
}
