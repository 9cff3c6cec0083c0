/** The registry of assets kept by the studio screen (App.tsx), and the pure
    transforms the screen applies to it: reading a batch out of the input
    text, prepending it, and updating the entries of one id when a
    generation call settles. */
module Registry {
  import opened Types
  import opened Text

  /** `lines.filter(line => line.trim().length > 0)`. */
  function KeepNonBlank(lines: seq<string>): (kept: seq<string>)
    ensures |kept| <= |lines|
    ensures forall k :: 0 <= k < |kept| ==> kept[k] in lines && Trim(kept[k]) != []
  {
    if lines == [] then []
    else (if |Trim(lines[0])| > 0 then [lines[0]] else []) + KeepNonBlank(lines[1..])
  }

  /** The filter keeps order: filtering a concatenation concatenates the
      filtered parts. With the one-line cases this pins the filter down. */
  lemma {:induction false} KeepNonBlankConcat(xs: seq<string>, ys: seq<string>)
    ensures KeepNonBlank(xs + ys) == KeepNonBlank(xs) + KeepNonBlank(ys)
  {
    if xs == [] {
      assert xs + ys == ys;
    } else {
      var head := if |Trim(xs[0])| > 0 then [xs[0]] else [];
      assert (xs + ys)[0] == xs[0];
      assert (xs + ys)[1..] == xs[1..] + ys;
      KeepNonBlankConcat(xs[1..], ys);
      assert head + (KeepNonBlank(xs[1..]) + KeepNonBlank(ys))
          == (head + KeepNonBlank(xs[1..])) + KeepNonBlank(ys);
    }
  }

  /** No non-blank line is lost: every line whose trimmed form is non-empty
      survives the filter. */
  lemma {:induction false} KeepNonBlankComplete(lines: seq<string>, line: string)
    requires line in lines && Trim(line) != []
    ensures line in KeepNonBlank(lines)
  {
    if lines[0] == line {
      assert KeepNonBlank(lines) == [line] + KeepNonBlank(lines[1..]);
    } else {
      assert line in lines[1..];
      KeepNonBlankComplete(lines[1..], line);
    }
  }

  /** Nothing survives the filter exactly when every line is blank. */
  lemma {:induction false} KeepNonBlankEmpty(lines: seq<string>)
    ensures KeepNonBlank(lines) == [] <==> AllBlank(lines)
  {
    if lines != [] {
      KeepNonBlankEmpty(lines[1..]);
      TrimEmptyIffBlank(lines[0]);
      assert lines == [lines[0]] + lines[1..];
      AllBlankCons(lines[0], lines[1..]);
    }
  }

  /** The lines of the input box that name a medicine (App.tsx line 18). */
  function MedicineNames(text: string): (names: seq<string>) {
    KeepNonBlank(Split(text, '\n'))
  }

  /** The early return on a blank input and the line filter agree: some
      line survives exactly when the trimmed input is not empty. */
  lemma MedicineNamesEmptyIffBlank(text: string)
    ensures MedicineNames(text) == [] <==> Trim(text) == []
  {
    assert IsWhitespace('\n');
    BlankIffPiecesBlank(text, '\n');
    KeepNonBlankEmpty(Split(text, '\n'));
    TrimEmptyIffBlank(text);
  }

  /** One new asset per surviving line, with the id the id supply gave it. */
  function NewAssets(lines: seq<string>, ids: seq<string>, style: ImageStyle): (batch: seq<Asset>)
    requires |ids| == |lines|
  {
    seq(|lines|, i requires 0 <= i < |lines| => Asset(ids[i], Trim(lines[i]), Loading, None, style))
  }

  /** An asset as the studio creates and updates them: a non-empty name
      without outer white space, never pending, and an image once completed. */
  predicate WellFormed(a: Asset) {
    && a.name != []
    && Trim(a.name) == a.name
    && a.status != Pending
    && (a.status == Completed ==> a.imageUrl.Some?)
  }

  predicate AllWellFormed(xs: seq<Asset>) {
    forall i :: 0 <= i < |xs| ==> WellFormed(xs[i])
  }

  /** The batch read from an input text: one asset per non-blank line in
      top-to-bottom order, named by the trimmed line, loading, without an
      image, in the selected style. */
  lemma NewBatch(text: string, ids: seq<string>, style: ImageStyle)
    requires |ids| == |MedicineNames(text)|
    ensures var lines := MedicineNames(text);
            var batch := NewAssets(lines, ids, style);
            && |batch| == |lines|
            && AllWellFormed(batch)
            && forall i :: 0 <= i < |batch| ==>
                 && batch[i].id == ids[i]
                 && batch[i].name == Trim(lines[i])
                 && batch[i].status == Loading
                 && batch[i].imageUrl == None
                 && batch[i].style == style
  {
    var lines := MedicineNames(text);
    forall i | 0 <= i < |lines| ensures Trim(lines[i]) != [] && Trim(Trim(lines[i])) == Trim(lines[i]) {
      TrimIdempotent(lines[i]);
    }
  }

  /** The state change a settled call asks for. */
  datatype Change = ToLoading | ToCompleted(url: string) | ToError

  /** `{...a, status: 'loading'}`, `{...a, status: 'completed', imageUrl}`
      and `{...a, status: 'error'}`: the spread keeps every other field,
      an earlier `imageUrl` included. */
  function Apply(a: Asset, change: Change): (b: Asset) {
    match change
    case ToLoading => a.(status := Loading)
    case ToCompleted(url) => a.(status := Completed, imageUrl := Some(url))
    case ToError => a.(status := Error)
  }

  /** `prev.map(a => a.id === id ? change(a) : a)`. */
  function PointUpdate(xs: seq<Asset>, id: string, change: Change): (ys: seq<Asset>)
    ensures |ys| == |xs|
    ensures forall i :: 0 <= i < |xs| ==>
              ys[i].id == xs[i].id && ys[i].name == xs[i].name && ys[i].style == xs[i].style
  {
    if xs == [] then []
    else [if xs[0].id == id then Apply(xs[0], change) else xs[0]] + PointUpdate(xs[1..], id, change)
  }

  /** Entry by entry: the entries with the id get the change, every other
      entry stays as it was. */
  lemma {:induction false} PointUpdateAt(xs: seq<Asset>, id: string, change: Change, i: nat)
    requires i < |xs|
    ensures PointUpdate(xs, id, change)[i] == if xs[i].id == id then Apply(xs[i], change) else xs[i]
  {
    if i > 0 {
      PointUpdateAt(xs[1..], id, change, i - 1);
    }
  }

  lemma PointUpdateEverywhere(xs: seq<Asset>, id: string, change: Change)
    ensures forall i :: 0 <= i < |xs| ==>
              PointUpdate(xs, id, change)[i] == if xs[i].id == id then Apply(xs[i], change) else xs[i]
  {
    forall i | 0 <= i < |xs| {
      PointUpdateAt(xs, id, change, i);
    }
  }

  /** An update for an id that is not in the registry (for instance after
      clear-all) leaves it identical. */
  lemma PointUpdateAbsent(xs: seq<Asset>, id: string, change: Change)
    requires forall i :: 0 <= i < |xs| ==> xs[i].id != id
    ensures PointUpdate(xs, id, change) == xs
  {
    PointUpdateEverywhere(xs, id, change);
  }

  /** Updates of two different ids commute, whatever order the calls settle
      in; this holds even when ids repeat in the registry. */
  lemma PointUpdatesCommute(xs: seq<Asset>, x: string, c: Change, y: string, d: Change)
    requires x != y
    ensures PointUpdate(PointUpdate(xs, x, c), y, d) == PointUpdate(PointUpdate(xs, y, d), x, c)
  {
    PointUpdateEverywhere(xs, x, c);
    PointUpdateEverywhere(xs, y, d);
    PointUpdateEverywhere(PointUpdate(xs, x, c), y, d);
    PointUpdateEverywhere(PointUpdate(xs, y, d), x, c);
  }

  /** Applying the same settlement twice is applying it once. */
  lemma PointUpdateIdempotent(xs: seq<Asset>, id: string, c: Change)
    ensures PointUpdate(PointUpdate(xs, id, c), id, c) == PointUpdate(xs, id, c)
  {
    PointUpdateEverywhere(xs, id, c);
    PointUpdateEverywhere(PointUpdate(xs, id, c), id, c);
  }

  /** A retry first marks the entry loading and then settles it; the final
      registry is the one the settlement alone would give. */
  lemma LoadingThenSettle(xs: seq<Asset>, id: string, o: Outcome)
    ensures PointUpdate(PointUpdate(xs, id, ToLoading), id, ChangeFor(o))
         == PointUpdate(xs, id, ChangeFor(o))
  {
    PointUpdateEverywhere(xs, id, ToLoading);
    PointUpdateEverywhere(xs, id, ChangeFor(o));
    PointUpdateEverywhere(PointUpdate(xs, id, ToLoading), id, ChangeFor(o));
  }

  /** Every update keeps the registry well formed. */
  lemma PointUpdateWellFormed(xs: seq<Asset>, id: string, c: Change)
    requires AllWellFormed(xs)
    ensures AllWellFormed(PointUpdate(xs, id, c))
  {
    PointUpdateEverywhere(xs, id, c);
  }

  /** The first entry with the id, as `assets.find(a => a.id === id)`. */
  function FindById(xs: seq<Asset>, id: string): (found: Option<Asset>)
    ensures found.None? <==> forall i :: 0 <= i < |xs| ==> xs[i].id != id
    ensures found.Some? ==>
              exists i :: 0 <= i < |xs| && xs[i] == found.value && xs[i].id == id
                          && forall j :: 0 <= j < i ==> xs[j].id != id
  {
    if xs == [] then None
    else if xs[0].id == id then Some(xs[0])
    else
      var found := FindById(xs[1..], id);
      assert found.Some? ==> exists i :: 0 <= i < |xs[1..]| && xs[1..][i] == found.value && xs[1..][i].id == id
                                         && forall j :: 0 <= j < i ==> xs[1..][j].id != id;
      if found.Some? then
        var i :| 0 <= i < |xs[1..]| && xs[1..][i] == found.value && xs[1..][i].id == id
                 && forall j :: 0 <= j < i ==> xs[1..][j].id != id;
        assert xs[i + 1] == found.value;
        found
      else found
  }

  /** The settlement of one generation call for one id. */
  datatype Settlement = Settlement(id: string, outcome: Outcome)

  /** A fulfilled call completes the asset with its image, a rejected one
      marks it as failed. */
  function ChangeFor(o: Outcome): (change: Change) {
    match o
    case Succeeded(url) => ToCompleted(url)
    case Failed(_) => ToError
  }

  /** The registry after the settlements, applied in the order they arrive. */
  function SettleAll(xs: seq<Asset>, events: seq<Settlement>): (ys: seq<Asset>)
    ensures |ys| == |xs|
    ensures forall i :: 0 <= i < |xs| ==> ys[i].id == xs[i].id
  {
    if events == [] then xs
    else
      var last := events[|events| - 1];
      PointUpdate(SettleAll(xs, events[..|events| - 1]), last.id, ChangeFor(last.outcome))
  }

  /** The changes, in arrival order, that the settlements ask for one id. */
  function ChangesFor(events: seq<Settlement>, id: string): (changes: seq<Change>) {
    if events == [] then []
    else
      var last := events[|events| - 1];
      ChangesFor(events[..|events| - 1], id) + (if last.id == id then [ChangeFor(last.outcome)] else [])
  }

  function ApplyAll(a: Asset, changes: seq<Change>): (b: Asset) {
    if changes == [] then a else Apply(ApplyAll(a, changes[..|changes| - 1]), changes[|changes| - 1])
  }

  /** Each entry ends up as the changes for its own id, in arrival order,
      make it: no settlement touches an entry of another id. */
  lemma {:induction false} SettleAllAt(xs: seq<Asset>, events: seq<Settlement>, p: nat)
    requires p < |xs|
    ensures SettleAll(xs, events)[p] == ApplyAll(xs[p], ChangesFor(events, xs[p].id))
  {
    if events != [] {
      var init, last := events[..|events| - 1], events[|events| - 1];
      SettleAllAt(xs, init, p);
      PointUpdateAt(SettleAll(xs, init), last.id, ChangeFor(last.outcome), p);
      var cs := ChangesFor(init, xs[p].id);
      if last.id == xs[p].id {
        assert (cs + [ChangeFor(last.outcome)])[..|cs|] == cs;
      } else {
        assert cs + [] == cs;
      }
    }
  }

  /** With no settlement for the id, nothing changes for it. */
  lemma {:induction false} ChangesForNone(events: seq<Settlement>, id: string)
    requires forall k :: 0 <= k < |events| ==> events[k].id != id
    ensures ChangesFor(events, id) == []
  {
    if events != [] {
      ChangesForNone(events[..|events| - 1], id);
    }
  }

  /** With exactly one settlement for the id, that one is its only change. */
  lemma {:induction false} ChangesForOne(events: seq<Settlement>, id: string, k: nat)
    requires k < |events| && events[k].id == id
    requires forall j :: 0 <= j < |events| && j != k ==> events[j].id != id
    ensures ChangesFor(events, id) == [ChangeFor(events[k].outcome)]
  {
    var n := |events|;
    var init := events[..n - 1];
    if k == n - 1 {
      ChangesForNone(init, id);
    } else {
      ChangesForOne(init, id, k);
    }
  }

  /** The order in which the calls of one batch settle: each of the `n`
      calls settles exactly once. */
  predicate IsSettlementOrder(order: seq<nat>, n: nat) {
    && |order| == n
    && (forall k :: 0 <= k < |order| ==> order[k] < n)
    && (forall j, k :: 0 <= j < k < |order| ==> order[j] != order[k])
    && (forall i :: 0 <= i < n ==> i in order)
  }

  /** The settlements of a batch: the `k`-th to arrive is the call for asset
      `order[k]`, which settled to `outcomes[order[k]]`. */
  function SettlementEvents(batch: seq<Asset>, order: seq<nat>, outcomes: seq<Outcome>): (events: seq<Settlement>)
    requires |outcomes| == |batch|
    requires forall k :: 0 <= k < |order| ==> order[k] < |batch|
  {
    seq(|order|, k requires 0 <= k < |order| => Settlement(batch[order[k]].id, outcomes[order[k]]))
  }

  predicate DistinctIds(xs: seq<Asset>) {
    forall i, j :: 0 <= i < j < |xs| ==> xs[i].id != xs[j].id
  }

  predicate FreshIds(batch: seq<Asset>, xs: seq<Asset>) {
    forall i, p :: 0 <= i < |batch| && 0 <= p < |xs| ==> batch[i].id != xs[p].id
  }

  /** The batch with every asset carrying its own call's result. */
  function SettledBatch(batch: seq<Asset>, outcomes: seq<Outcome>): (settled: seq<Asset>)
    requires |outcomes| == |batch|
  {
    seq(|batch|, i requires 0 <= i < |batch| => Apply(batch[i], ChangeFor(outcomes[i])))
  }

  /** When the batch's ids are fresh and pairwise distinct, once all of its
      calls have settled, in any order, each new asset carries its own
      call's result and the older entries are exactly as they were. */
  lemma BatchSettled(batch: seq<Asset>, xs: seq<Asset>, order: seq<nat>, outcomes: seq<Outcome>)
    requires DistinctIds(batch) && FreshIds(batch, xs)
    requires IsSettlementOrder(order, |batch|) && |outcomes| == |batch|
    ensures SettleAll(batch + xs, SettlementEvents(batch, order, outcomes))
         == SettledBatch(batch, outcomes) + xs
  {
    var ys := SettleAll(batch + xs, SettlementEvents(batch, order, outcomes));
    var want := SettledBatch(batch, outcomes) + xs;
    forall k | 0 <= k < |ys| ensures ys[k] == want[k] {
      BatchSettledAt(batch, xs, order, outcomes, k);
    }
  }

  /** BatchSettled, entry by entry. */
  lemma BatchSettledAt(batch: seq<Asset>, xs: seq<Asset>, order: seq<nat>, outcomes: seq<Outcome>, k: nat)
    requires DistinctIds(batch) && FreshIds(batch, xs)
    requires IsSettlementOrder(order, |batch|) && |outcomes| == |batch|
    requires k < |batch| + |xs|
    ensures SettleAll(batch + xs, SettlementEvents(batch, order, outcomes))[k]
         == (SettledBatch(batch, outcomes) + xs)[k]
  {
    if k < |batch| {
      NewEntrySettled(batch, xs, order, outcomes, k);
    } else {
      OldEntryUntouched(batch, xs, order, outcomes, k);
    }
  }

  /** The `i`-th new asset receives exactly its own call's result. */
  lemma NewEntrySettled(batch: seq<Asset>, xs: seq<Asset>, order: seq<nat>, outcomes: seq<Outcome>, i: nat)
    requires DistinctIds(batch)
    requires IsSettlementOrder(order, |batch|) && |outcomes| == |batch|
    requires i < |batch|
    ensures SettleAll(batch + xs, SettlementEvents(batch, order, outcomes))[i]
         == Apply(batch[i], ChangeFor(outcomes[i]))
  {
    var start := batch + xs;
    var events := SettlementEvents(batch, order, outcomes);
    assert i in order;
    var k :| 0 <= k < |order| && order[k] == i;
    forall j | 0 <= j < |events| && j != k ensures events[j].id != batch[i].id {
      assert order[j] != i;
    }
    ChangesForOne(events, batch[i].id, k);
    SettleAllAt(start, events, i);
    assert start[i] == batch[i];
    assert [ChangeFor(outcomes[i])][..0] == [];
  }

  /** An older entry, whose id no call of the batch carries, is untouched. */
  lemma OldEntryUntouched(batch: seq<Asset>, xs: seq<Asset>, order: seq<nat>, outcomes: seq<Outcome>, p: nat)
    requires FreshIds(batch, xs)
    requires IsSettlementOrder(order, |batch|) && |outcomes| == |batch|
    requires |batch| <= p < |batch| + |xs|
    ensures SettleAll(batch + xs, SettlementEvents(batch, order, outcomes))[p] == xs[p - |batch|]
  {
    var start := batch + xs;
    var events := SettlementEvents(batch, order, outcomes);
    assert start[p] == xs[p - |batch|];
    forall j | 0 <= j < |events| ensures events[j].id != start[p].id {
      assert events[j].id == batch[order[j]].id;
    }
    ChangesForNone(events, start[p].id);
    SettleAllAt(start, events, p);
  }

  /** For a batch with fresh, distinct ids the final registry does not
      depend on the order in which its calls settle. */
  lemma SettleOrderIrrelevant(batch: seq<Asset>, xs: seq<Asset>, order1: seq<nat>, order2: seq<nat>, outcomes: seq<Outcome>)
    requires DistinctIds(batch) && FreshIds(batch, xs) && |outcomes| == |batch|
    requires IsSettlementOrder(order1, |batch|) && IsSettlementOrder(order2, |batch|)
    ensures SettleAll(batch + xs, SettlementEvents(batch, order1, outcomes))
         == SettleAll(batch + xs, SettlementEvents(batch, order2, outcomes))
  {
    BatchSettled(batch, xs, order1, outcomes);
    BatchSettled(batch, xs, order2, outcomes);
  }
}
