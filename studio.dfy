/** The studio screen (App.tsx): the input box, the selected style, the
    asset registry and the "generating" flag, and the handlers that change
    them. Each `async` handler is split at its `await`: the part before it,
    the settlement of the awaited call, and the part after it are separate
    methods, and the handler runs them in order. What the awaited calls
    return is a parameter. */
module Studio {
  import opened Types
  import opened Text
  import opened Registry

  class App {
    var inputText: string
    var selectedStyle: ImageStyle
    var assets: seq<Asset>
    var isGenerating: bool

    /** Every asset the screen ever holds is well formed. */
    ghost predicate Valid()
      reads this
    {
      AllWellFormed(assets)
    }

    constructor ()
      ensures Valid()
      ensures inputText == "" && selectedStyle == Modern && assets == [] && !isGenerating
    {
      inputText := "";
      selectedStyle := Modern;
      assets := [];
      isGenerating := false;
    }

    /** The input box's `onChange`. */
    method SetInputText(text: string)
      modifies this`inputText
      ensures inputText == text
    {
      inputText := text;
    }

    /** A style button's `onClick`. */
    method SelectStyle(style: ImageStyle)
      modifies this`selectedStyle
      ensures selectedStyle == style
    {
      selectedStyle := style;
    }

    /** The generate button is enabled when the input is not blank and no
        batch is running, that is, when pressing it would start a non-empty
        batch. Only the button checks the flag: HandleGenerate itself does
        not. */
    predicate GenerateEnabled()
      reads this
      ensures GenerateEnabled() <==> MedicineNames(inputText) != [] && !isGenerating
    {
      MedicineNamesEmptyIffBlank(inputText);
      Trim(inputText) != [] && !isGenerating
    }

    /** The part of `handleGenerate` before the `await`: on a blank input
        nothing happens; otherwise the batch read from the input (one id from
        `ids` per surviving line) is prepended, the flag is raised and the
        input is cleared. */
    method StartGenerate(ids: seq<string>) returns (started: bool, batch: seq<Asset>)
      requires Valid()
      requires |ids| == |MedicineNames(inputText)|
      modifies this`assets, this`isGenerating, this`inputText
      ensures Valid()
      ensures started <==> Trim(old(inputText)) != []
      ensures !started ==> batch == [] && unchanged(this)
      ensures started ==>
                && batch == NewAssets(MedicineNames(old(inputText)), ids, selectedStyle)
                && batch != []
                && assets == batch + old(assets)
                && isGenerating
                && inputText == ""
    {
      if Trim(inputText) == [] {
        return false, [];
      }
      NewBatch(inputText, ids, selectedStyle);
      MedicineNamesEmptyIffBlank(inputText);
      batch := NewAssets(MedicineNames(inputText), ids, selectedStyle);
      started := true;
      assets := batch + assets;
      isGenerating := true;
      inputText := "";
    }

    /** One awaited generation call settles: the entries with its id become
        completed with the image, or failed. */
    method SettleGeneration(id: string, outcome: Outcome)
      requires Valid()
      modifies this`assets
      ensures Valid()
      ensures assets == PointUpdate(old(assets), id, ChangeFor(outcome))
    {
      PointUpdateWellFormed(assets, id, ChangeFor(outcome));
      assets := PointUpdate(assets, id, ChangeFor(outcome));
    }

    /** The part of `handleGenerate` after every call of the batch has
        settled. */
    method FinishGenerate()
      modifies this`isGenerating
      ensures !isGenerating
    {
      isGenerating := false;
    }

    /** The `await Promise.allSettled(...)` of `handleGenerate`: the calls of
        the batch settle one by one, the `k`-th to settle being the call for
        `batch[order[k]]`, with outcome `outcomes[order[k]]`. */
    method SettleBatch(batch: seq<Asset>, order: seq<nat>, outcomes: seq<Outcome>)
      requires Valid()
      requires |outcomes| == |batch| && IsSettlementOrder(order, |batch|)
      modifies this`assets
      ensures Valid()
      ensures assets == SettleAll(old(assets), SettlementEvents(batch, order, outcomes))
    {
      var events := SettlementEvents(batch, order, outcomes);
      var k := 0;
      while k < |order|
        invariant 0 <= k <= |order|
        invariant Valid()
        invariant assets == SettleAll(old(assets), events[..k])
      {
        var i := order[k];
        SettleGeneration(batch[i].id, outcomes[i]);
        assert events[..k + 1][..k] == events[..k];
        k := k + 1;
      }
      assert events[..|order|] == events;
    }

    /** `handleGenerate`: start the batch, let its calls settle, then lower
        the flag. */
    method HandleGenerate(ids: seq<string>, order: seq<nat>, outcomes: seq<Outcome>)
      returns (started: bool, batch: seq<Asset>)
      requires Valid()
      requires |ids| == |MedicineNames(inputText)|
      requires |outcomes| == |ids| && IsSettlementOrder(order, |ids|)
      modifies this
      ensures Valid()
      ensures started <==> Trim(old(inputText)) != []
      ensures !started ==> batch == [] && unchanged(this)
      ensures started ==>
                && batch == NewAssets(MedicineNames(old(inputText)), ids, old(selectedStyle))
                && assets == SettleAll(batch + old(assets), SettlementEvents(batch, order, outcomes))
                && !isGenerating
                && inputText == ""
                && selectedStyle == old(selectedStyle)
      ensures started && DistinctIds(batch) && FreshIds(batch, old(assets)) ==>
                assets == SettledBatch(batch, outcomes) + old(assets)
    {
      ghost var before, style := assets, selectedStyle;
      started, batch := StartGenerate(ids);
      if !started {
        return;
      }
      ghost var prepended := assets;
      assert prepended == batch + before;
      SettleBatch(batch, order, outcomes);
      FinishGenerate();
      assert selectedStyle == style;
      if DistinctIds(batch) && FreshIds(batch, before) {
        BatchSettled(batch, before, order, outcomes);
      }
    }

    /** The part of `retryAsset` before the `await`: look the id up; if it is
        there, mark its entries loading and return the asset whose name and
        style the new call uses. */
    method StartRetry(id: string) returns (target: Option<Asset>)
      requires Valid()
      modifies this`assets
      ensures Valid()
      ensures target == FindById(old(assets), id)
      ensures target.None? ==> assets == old(assets)
      ensures target.Some? ==> assets == PointUpdate(old(assets), id, ToLoading)
    {
      target := FindById(assets, id);
      if target.None? {
        return;
      }
      PointUpdateWellFormed(assets, id, ToLoading);
      assets := PointUpdate(assets, id, ToLoading);
    }

    /** `retryAsset`: an unknown id changes nothing and issues no call;
        otherwise exactly one call is issued for the found asset and its
        settlement decides the entries of that id. */
    method RetryAsset(id: string, outcome: Outcome) returns (target: Option<Asset>)
      requires Valid()
      modifies this`assets
      ensures Valid()
      ensures target == FindById(old(assets), id)
      ensures target.None? ==> assets == old(assets)
      ensures target.Some? ==> assets == PointUpdate(old(assets), id, ChangeFor(outcome))
    {
      target := StartRetry(id);
      if target.None? {
        return;
      }
      SettleGeneration(id, outcome);
      LoadingThenSettle(old(assets), id, outcome);
    }

    /** The "clear gallery" button. Calls still in flight settle later on ids
        that are gone, which PointUpdateAbsent shows to be harmless. */
    method ClearGallery()
      modifies this`assets
      ensures Valid()
      ensures assets == []
    {
      assets := [];
    }
  }
}
